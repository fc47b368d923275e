/**
 * The interactive terminal of the first About page: a session that keeps the
 * log `entries` and the input buffer `command`. Submitting runs the buffer
 * through `runCommand` and then empties the buffer.
 */
module AboutTerminal {
  import opened JsStrings
  import opened Options
  import opened TerminalCommands
  import opened Transcript

  const Prompt := "visitor@younes.dev:~$ "
  const NotFound := "Command not found: "

  /** The log a session starts with, and the one `clear` restores. */
  function InitialEntries(): (r: seq<Entry>)
    ensures |r| == 2 && r[0].kind == Banner && r[1].kind == Text
  {
    [ Entry(Banner, "Welcome to Younes' terminal portfolio"),
      Entry(Text, "Type \"help\" to see available commands.") ]
  }

  /** The echo of a submitted line: the prompt, then the trimmed input with
      its own casing. */
  function Echo(value: string): (e: Entry)
    ensures e.kind == Command
    ensures |e.text| == |Prompt| + |value| && e.text[..|Prompt|] == Prompt && e.text[|Prompt|..] == value
  {
    Entry(Command, Prompt + value)
  }

  /** The log after `runCommand(raw)` on the log `prev`. */
  function Execute(registry: Registry, prev: seq<Entry>, raw: string): (r: seq<Entry>)
    ensures Trim(raw) == "" ==> r == prev
    ensures Trim(raw) != "" && ToLower(Trim(raw)) == "clear" ==> r == InitialEntries()
    ensures Trim(raw) != "" && ToLower(Trim(raw)) != "clear" ==>
      |r| > |prev| && r[..|prev|] == prev && r[|prev|] == Echo(Trim(raw))
  {
    var value := Trim(raw);
    if value == "" then prev
    else
      var normalized := ToLower(value);
      if normalized == "clear" then InitialEntries()
      else
        match Lookup(registry, normalized)
        case None => prev + [Echo(value), Entry(Text, NotFound + value)]
        case Some(definition) => prev + [Echo(value)] + TextEntries(definition.output)
  }

  class Terminal {
    const registry: Registry
    var entries: seq<Entry>
    var command: string

    constructor (registry: Registry)
      ensures this.registry == registry
      ensures entries == InitialEntries() && command == ""
    {
      this.registry := registry;
      entries := InitialEntries();
      command := "";
    }

    /** The input's `onChange`: the buffer takes the typed value. */
    method Change(value: string)
      modifies this`command
      ensures command == value
    {
      command := value;
    }

    /** `runCommand(raw)`, with its early returns. */
    method RunCommand(raw: string)
      modifies this`entries
      ensures entries == Execute(registry, old(entries), raw)
    {
      var value := Trim(raw);
      if value == "" {
        return;
      }
      var normalized := ToLower(value);
      if normalized == "clear" {
        entries := InitialEntries();
        return;
      }
      var commandEntry := Echo(value);
      var lookup := Lookup(registry, normalized);
      if lookup.None? {
        entries := entries + [commandEntry, Entry(Text, NotFound + value)];
        return;
      }
      var responseEntries := TextEntries(lookup.value.output);
      entries := entries + [commandEntry] + responseEntries;
    }

    /** `handleSubmit`: run the buffer, then empty it, whatever the outcome. */
    method HandleSubmit()
      modifies this
      ensures entries == Execute(registry, old(entries), old(command))
      ensures command == ""
    {
      RunCommand(command);
      command := "";
    }
  }

  /** Input that is empty or all white space leaves the log as it was. */
  lemma BlankIsIgnored(registry: Registry, prev: seq<Entry>, raw: string)
    requires AllSpace(raw)
    ensures Execute(registry, prev, raw) == prev
  {
    TrimEmptyIff(raw);
  }

  /** `clear`, in any case and with any padding, resets the log to the
      two-entry seed, whatever it held and whatever the registry says. */
  lemma ClearResets(registry: Registry, prev: seq<Entry>, pre: string, word: string, post: string)
    requires AllSpace(pre) && AllSpace(post) && ToLower(word) == "clear"
    ensures Execute(registry, prev, pre + word + post) == InitialEntries()
    ensures |Execute(registry, prev, pre + word + post)| == 2
  {
    TrimPadding(pre, word, post);
    LowerTrimmedIsTrimmed(word);
    ClearRuns(registry, prev, pre + word + post);
  }

  /** The `clear` branch, stated on the normalised input. */
  lemma ClearRuns(registry: Registry, prev: seq<Entry>, raw: string)
    requires ToLower(Trim(raw)) == "clear"
    ensures Execute(registry, prev, raw) == InitialEntries()
  {
    assert |Trim(raw)| == |ToLower(Trim(raw))| == 5;
  }

  /** A registered command appends exactly the echo and then one `text`
      entry per output line, in order. */
  lemma KnownCommand(registry: Registry, prev: seq<Entry>, raw: string)
    requires Trim(raw) != "" && ToLower(Trim(raw)) != "clear"
    requires ToLower(Trim(raw)) in registry
    ensures var output := registry[ToLower(Trim(raw))].output;
      var next := Execute(registry, prev, raw);
      && |next| == |prev| + 1 + |output|
      && next[..|prev|] == prev
      && next[|prev|] == Entry(Command, Prompt + Trim(raw))
      && forall i :: 0 <= i < |output| ==> next[|prev| + 1 + i] == Entry(Text, output[i])
  {
  }

  /** An unknown command appends exactly two entries: the echo and a `text`
      entry naming the trimmed input. */
  lemma UnknownCommand(registry: Registry, prev: seq<Entry>, raw: string)
    requires Trim(raw) != "" && ToLower(Trim(raw)) != "clear"
    requires ToLower(Trim(raw)) !in registry
    ensures Execute(registry, prev, raw)
      == prev + [Entry(Command, Prompt + Trim(raw)), Entry(Text, "Command not found: " + Trim(raw))]
  {
  }

  /** Apart from `clear`, the old log is a prefix of the new one: nothing
      already displayed is altered or removed. */
  lemma AppendOnly(registry: Registry, prev: seq<Entry>, raw: string)
    requires ToLower(Trim(raw)) != "clear"
    ensures prev <= Execute(registry, prev, raw)
  {
  }

  /** White space around the input changes nothing at all. */
  lemma PaddingIsIgnored(registry: Registry, prev: seq<Entry>, pre: string, raw: string, post: string)
    requires AllSpace(pre) && AllSpace(post)
    ensures Execute(registry, prev, pre + raw + post) == Execute(registry, prev, raw)
  {
    TrimPadding(pre, raw, post);
  }

  /** Inputs that agree once trimmed and lower-cased name the same command:
      the log grows by the same amount, and everything after the echo is the
      same; a registered command's response is exactly equal. */
  lemma CaseIsIgnored(registry: Registry, prev: seq<Entry>, a: string, b: string)
    requires Trim(a) != "" && ToLower(Trim(a)) == ToLower(Trim(b))
    requires ToLower(Trim(a)) != "clear" && ToLower(Trim(a)) in registry
    ensures |Execute(registry, prev, a)| == |Execute(registry, prev, b)|
    ensures Execute(registry, prev, a)[|prev| + 1..] == Execute(registry, prev, b)[|prev| + 1..]
  {
    assert |Trim(b)| == |ToLower(Trim(b))| == |ToLower(Trim(a))| == |Trim(a)|;
  }

  /** Submitting the same command twice appends two identical blocks; nothing
      is merged or deduplicated. */
  lemma RepeatAppendsTwice(registry: Registry, prev: seq<Entry>, raw: string)
    requires ToLower(Trim(raw)) != "clear"
    ensures var once := Execute(registry, prev, raw);
      Execute(registry, once, raw) == once + once[|prev|..]
  {
    var once := Execute(registry, prev, raw);
    var response := Execute(registry, [], raw);
    ResponseIgnoresLog(registry, prev, raw);
    ResponseIgnoresLog(registry, once, raw);
    assert once[|prev|..] == response;
  }

  /** Apart from `clear`, what a submission appends does not depend on the
      log it is appended to. */
  lemma ResponseIgnoresLog(registry: Registry, prev: seq<Entry>, raw: string)
    requires ToLower(Trim(raw)) != "clear"
    ensures Execute(registry, prev, raw) == prev + Execute(registry, [], raw)
  {
    var value := Trim(raw);
    if value != "" {
      match Lookup(registry, ToLower(value))
      case None =>
        assert [] + [Echo(value), Entry(Text, NotFound + value)] == [Echo(value), Entry(Text, NotFound + value)];
      case Some(definition) =>
        var lines := TextEntries(definition.output);
        Reassociate(prev, [Echo(value)], lines);
        Reassociate([], [Echo(value)], lines);
        assert [] + ([Echo(value)] + lines) == [Echo(value)] + lines;
    }
  }

  lemma Reassociate(a: seq<Entry>, b: seq<Entry>, c: seq<Entry>)
    ensures a + b + c == a + (b + c)
  {
  }

  /** Against the site's own table, every command other than `clear` is
      reached by typing its name, and prints its output after the echo. */
  lemma EveryCommandReachable(now: string, prev: seq<Entry>, name: string)
    requires name in Names() && name != "clear"
    ensures Execute(Commands(now), prev, name)
      == prev + [Echo(name)] + TextEntries(Commands(now)[name].output)
  {
    NameIsNormal(name);
    NormalNameRuns(Commands(now), prev, name);
  }

  lemma NormalNameRuns(registry: Registry, prev: seq<Entry>, name: string)
    requires name in registry && name != "clear" && NormalKey(name)
    ensures Execute(registry, prev, name) == prev + [Echo(name)] + TextEntries(registry[name].output)
  {
    assert ToLower(Trim(name)) == name;
    RegisteredRuns(registry, prev, name);
  }

  lemma RegisteredRuns(registry: Registry, prev: seq<Entry>, raw: string)
    requires Trim(raw) != "" && ToLower(Trim(raw)) != "clear" && ToLower(Trim(raw)) in registry
    ensures Execute(registry, prev, raw)
      == prev + [Echo(Trim(raw))] + TextEntries(registry[ToLower(Trim(raw))].output)
  {
  }
}
