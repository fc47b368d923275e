/**
 * The command table `terminalCommands` that both interactive terminals of
 * the About pages consult: a finite map from a command name to its
 * description and the lines it prints.
 */
module TerminalCommands {
  import opened JsStrings
  import opened Options

  /** One registry entry: `{ description, output }`. */
  datatype Definition = Definition(description: string, output: seq<string>)

  type Registry = map<string, Definition>

  /** `terminalCommands[name]` over the table's own keys: the entry, or
      `undefined` (None) when the name is not a key. */
  function Lookup(registry: Registry, name: string): (r: Option<Definition>)
    ensures r.Some? <==> name in registry
    ensures r.Some? ==> r.value == registry[name]
  {
    if name in registry then Some(registry[name]) else None
  }

  /** The table's own keys, section by section as the object literal lists
      them. */
  function Names(): set<string> {
    Essentials() + BioAndInfo() + SimulationAndUtility() + DevEnvironment() + EasterEggs()
  }

  function Essentials(): set<string> { {"help", "?", "clear"} }

  function BioAndInfo(): set<string> {
    {"about", "full_name", "skills", "stacks", "projects", "experience", "contact"}
  }

  function SimulationAndUtility(): set<string> { {"ls", "pwd", "whoami", "date"} }

  function DevEnvironment(): set<string> { {"setup"} }

  function EasterEggs(): set<string> { {"sudo", "cat", "coffee", "exit"} }

  /** The table. `now` is the `new Date().toString()` text read once, when
      the module is loaded and the object literal is evaluated; every entry
      is a value computed at that moment, and only `date` depends on it. */
  function Commands(now: string): (m: Registry)
    ensures m.Keys == Names()
  {
    map name | name in Names() :: DefinitionOf(name, now)
  }

  /** The value the object literal gives `name` (the cases are distinct keys,
      so their order is immaterial). Each entry is a function of its own
      below. Every one of them takes `now`, though only `Date` reads it: a
      function without parameters whose body is literal text is unfolded
      into every proof that can reach it, while one with a parameter is
      unfolded only where it is applied, which keeps the proofs about the
      table small. */
  function DefinitionOf(name: string, now: string): Definition
    requires name in Names()
  {
    match name
    case "help" => Help(now)
    case "?" => QuestionMark(now)
    case "clear" => Clear(now)
    case "date" => Date(now)
    case "about" => About(now)
    case "full_name" => FullName(now)
    case "skills" => Skills(now)
    case "stacks" => Stacks(now)
    case "projects" => Projects(now)
    case "experience" => Experience(now)
    case "contact" => Contact(now)
    case "ls" => Ls(now)
    case "pwd" => Pwd(now)
    case "whoami" => Whoami(now)
    case "setup" => Setup(now)
    case "sudo" => Sudo(now)
    case "cat" => Cat(now)
    case "coffee" => Coffee(now)
    case "exit" => Exit(now)
    case _ => assert false; Exit(now)
  }

  function Help(now: string): Definition {
    Definition("List available commands", [
      "Available commands:",
      "  about       - Who is Younes?",
      "  stacks      - Tech arsenal",
      "  projects    - Case studies",
      "  experience  - Career timeline",
      "  contact     - Communication channels",
      "  setup       - Hardware & Software config",
      "  ls          - List directory contents",
      "  clear       - Clear the terminal"])
  }

  function QuestionMark(now: string): Definition {
    Definition("Alias for help", ["Type \"help\" to see available commands."])
  }

  function Clear(now: string): Definition {
    Definition("Clears the terminal", [])
  }

  function About(now: string): Definition {
    Definition("Show short bio", [
      ">> IDENTITY_VERIFIED",
      "Younes El Bettate",
      "-----------------",
      "Self-taught Full-Stack Developer & Founder of OPICOM Tech.",
      "Based in Morocco \U{1F1F2}\U{1F1E6}",
      "Focus: Building purposeful digital products, civic tech tools, and school management systems."])
  }

  function FullName(now: string): Definition {
    Definition("Display full name", ["Younes El Bettate"])
  }

  function Skills(now: string): Definition {
    Definition("List key skills", [
      ">> LOADING_SKILL_MATRIX...",
      "- Architecture: API Design, Microservices, MVC",
      "- UI/UX: Motion Design, Rapid Prototyping, Design Systems",
      "- Strategy: Product Management, Agile/Scrum"])
  }

  function Stacks(now: string): Definition {
    Definition("List core stacks", [
      ">> ANALYZING_CODEBASE...",
      "[BACKEND]   Python (Django, FastAPI), PostgreSQL, Redis, Docker",
      "[FRONTEND]  React, TypeScript, TailwindCSS, Framer Motion",
      "[MOBILE]    React Native, Expo",
      "[DESKTOP]   Tauri, Electron"])
  }

  function Projects(now: string): Definition {
    Definition("Show highlight projects", [
      "1. Ksar-Data ....... [Civic Tech Dashboard]",
      "2. OPICOM Studio ... [Agency Portfolio]",
      "3. Restaurant OS ... [POS System]",
      "4. School MS ....... [EdTech Platform]",
      "",
      "Type \"open <project_name>\" (coming soon) to view details."])
  }

  function Experience(now: string): Definition {
    Definition("Show summary of experience", [
      ">> TIMELINE_FETCHED",
      "[202X - Now] Founder @ OPICOM Tech",
      "[202X - 202X] Freelance Full-Stack Developer",
      "-----------------",
      "4+ years building end-to-end solutions for schools, civic tech, and independent clients."])
  }

  function Contact(now: string): Definition {
    Definition("How to reach out", [
      ">> OPENING_CHANNELS...",
      "Email:    bt.younesse@gmail.com",
      "GitHub:   github.com/Younes-bt",
      "LinkedIn: /in/unesbt42"])
  }

  function Ls(now: string): Definition {
    Definition("List files", [
      "drwxr-xr-x  younes  projects/",
      "drwxr-xr-x  younes  skills/",
      "drwxr-xr-x  younes  config/",
      "-rw-r--r--  younes  resume.pdf",
      "-rw-r--r--  younes  secret_plans.txt"])
  }

  function Pwd(now: string): Definition {
    Definition("Print working directory", ["/home/guest/portfolio"])
  }

  function Whoami(now: string): Definition {
    Definition("Current user", ["guest@younes.dev (Access Level: VISITOR)"])
  }

  function Date(now: string): Definition {
    Definition("Show date", [now])
  }

  function Setup(now: string): Definition {
    Definition("Development environment", [
      ">> FETCHING_SYSTEM_SPECS",
      "- Editor:   VS Code (Theme: One Dark Pro)",
      "- Font:     Geist Mono / JetBrains Mono",
      "- Terminal: Zsh + Oh My Zsh + Starship",
      "- Browser:  Arc / Chrome Developer Edition"])
  }

  function Sudo(now: string): Definition {
    Definition("Superuser do", [
      "I like the way how you Think!!. This incident will be reported.",
      "(Nice try, though.)"])
  }

  function Cat(now: string): Definition {
    Definition("Read file", ["usage: cat <filename> (File system access is restricted for guests)"])
  }

  function Coffee(now: string): Definition {
    Definition("Brew coffee", [
      "\U{2615} Brewing...",
      "Error 418: I am a teapot."])
  }

  function Exit(now: string): Definition {
    Definition("Close terminal", ["There is no escape. You must hire me first."])
  }

  /** A non-empty key that is trimmed and free of upper-case letters is left
      as it is by trimming and by lower-casing. */
  predicate NormalKey(k: string) {
    k != "" && Trim(k) == k && ToLower(k) == k
  }

  lemma NormalFormFixed(k: string)
    requires k != "" && Trimmed(k) && HasNoUpper(k)
    ensures NormalKey(k)
  {
    assert [] + k + [] == k;
    TrimAround([], k, []);
    LowerFixed(k);
  }

  /** Every key is a non-empty lower-case word (or `?`) with no surrounding
      white space, so the normalised form of a key is the key itself: every
      entry can be reached by a lookup of the trimmed, lower-cased input. */
  lemma KeysNormalised()
    ensures forall k :: k in Names() ==> NormalKey(k)
  {
    EssentialsNormalised();
    BioAndInfoNormalised();
    SimulationAndUtilityNormalised();
    DevEnvironmentNormalised();
    EasterEggsNormalised();
  }

  lemma NameIsNormal(name: string)
    requires name in Names()
    ensures NormalKey(name)
  {
    KeysNormalised();
  }

  lemma EssentialsNormalised()
    ensures forall k :: k in Essentials() ==> NormalKey(k)
  {
    forall k | k in Essentials() ensures NormalKey(k) { NormalFormFixed(k); }
  }

  lemma BioAndInfoNormalised()
    ensures forall k :: k in BioAndInfo() ==> NormalKey(k)
  {
    forall k | k in BioAndInfo() ensures NormalKey(k) { NormalFormFixed(k); }
  }

  lemma SimulationAndUtilityNormalised()
    ensures forall k :: k in SimulationAndUtility() ==> NormalKey(k)
  {
    forall k | k in SimulationAndUtility() ensures NormalKey(k) { NormalFormFixed(k); }
  }

  lemma DevEnvironmentNormalised()
    ensures forall k :: k in DevEnvironment() ==> NormalKey(k)
  {
    forall k | k in DevEnvironment() ensures NormalKey(k) { NormalFormFixed(k); }
  }

  lemma EasterEggsNormalised()
    ensures forall k :: k in EasterEggs() ==> NormalKey(k)
  {
    forall k | k in EasterEggs() ensures NormalKey(k) { NormalFormFixed(k); }
  }

  /** `clear` has an entry, but its output is empty: looked up, it would add
      nothing beyond the echo. */
  lemma ClearIsSilent(now: string)
    ensures "clear" in Commands(now) && Commands(now)["clear"].output == []
  {
  }

  /** `help` prints nine lines, headed by "Available commands:". */
  lemma HelpListing(now: string)
    ensures |Commands(now)["help"].output| == 9
    ensures Commands(now)["help"].output[0] == "Available commands:"
  {
  }

  /** `?` is its own entry with a single line of its own, not a redirect to
      `help`. */
  lemma QuestionMarkIsIndependent(now: string)
    ensures Commands(now)["?"].output == ["Type \"help\" to see available commands."]
    ensures Commands(now)["?"].output != Commands(now)["help"].output
  {
  }

  /** `date` prints exactly one line: the date text captured at load time. */
  lemma DateIsFixedAtLoad(now: string)
    ensures "date" in Commands(now) && Commands(now)["date"].output == [now]
  {
  }
}
