/**
 * The interactive terminal of the second About page. It has the same shape
 * as the first one, with a different prompt and seed, a `clear` that leaves
 * a single notice instead of the seed, an `error` entry for unknown
 * commands, and a guard for a missing command table.
 */
module About2Terminal {
  import opened JsStrings
  import opened Options
  import opened TerminalCommands
  import opened Transcript

  const Prompt := "guest@portfolio:~$ "

  /** The log a session starts with. */
  function InitialEntries(): (r: seq<Entry>)
    ensures |r| == 3 && r[0].kind == Banner && r[1].kind == Text && r[2].kind == Text
  {
    [ Entry(Banner, "Younes Interactive Shell v2.0.4"),
      Entry(Text, "Connected to remote instance."),
      Entry(Text, "Type \"help\" to view available commands.") ]
  }

  /** What `clear` leaves behind. */
  function Cleared(): (r: seq<Entry>)
    ensures |r| == 1 && r[0].kind == Text && r != InitialEntries()
  {
    [Entry(Text, "Console cleared.")]
  }

  /** The echo of a submitted line: the prompt, then the trimmed input with
      its own casing. */
  function Echo(value: string): (e: Entry)
    ensures e.kind == Command
    ensures |e.text| == |Prompt| + |value| && e.text[..|Prompt|] == Prompt && e.text[|Prompt|..] == value
  {
    Entry(Command, Prompt + value)
  }

  /** The entry for a name the table does not hold. */
  function NotFound(value: string): (e: Entry)
    ensures e.kind == Error
    ensures |e.text| == 19 + |value| + 13 && e.text[19..19 + |value|] == value
  {
    Entry(Error, "Command not found: " + value + ". Try \"help\".")
  }

  /** `terminalCommands ? terminalCommands[normalized] : null`: a missing
      table (None) finds nothing. */
  function SafeLookup(registry: Option<Registry>, name: string): (r: Option<Definition>)
    ensures r.Some? <==> registry.Some? && name in registry.value
    ensures r.Some? ==> r.value == registry.value[name]
  {
    match registry
    case None => None
    case Some(table) => Lookup(table, name)
  }

  /** `responseEntries`: the output lines as `text` entries, or the single
      `error` entry. */
  function Response(registry: Option<Registry>, value: string): (r: seq<Entry>)
    ensures SafeLookup(registry, ToLower(value)).Some? ==>
      Texts(r) == SafeLookup(registry, ToLower(value)).value.output
      && forall i :: 0 <= i < |r| ==> r[i].kind == Text
    ensures SafeLookup(registry, ToLower(value)).None? ==> r == [NotFound(value)]
  {
    match SafeLookup(registry, ToLower(value))
    case Some(definition) => TextEntries(definition.output)
    case None => [NotFound(value)]
  }

  /** The log after `runCommand(raw)` on the log `prev`. */
  function Execute(registry: Option<Registry>, prev: seq<Entry>, raw: string): (r: seq<Entry>)
    ensures Trim(raw) == "" ==> r == prev
    ensures Trim(raw) != "" && ToLower(Trim(raw)) == "clear" ==> r == Cleared()
    ensures Trim(raw) != "" && ToLower(Trim(raw)) != "clear" ==>
      |r| > |prev| && r[..|prev|] == prev && r[|prev|] == Echo(Trim(raw))
  {
    var value := Trim(raw);
    if value == "" then prev
    else if ToLower(value) == "clear" then Cleared()
    else prev + [Echo(value)] + Response(registry, value)
  }

  class Terminal {
    const registry: Option<Registry>
    var entries: seq<Entry>
    var command: string

    constructor (registry: Option<Registry>)
      ensures this.registry == registry
      ensures entries == InitialEntries() && command == ""
    {
      this.registry := registry;
      entries := InitialEntries();
      command := "";
    }

    /** The input's `onChange`: the buffer takes the typed value. */
    method Change(value: string)
      modifies this`command
      ensures command == value
    {
      command := value;
    }

    /** `runCommand(raw)`, with its early returns. */
    method RunCommand(raw: string)
      modifies this`entries
      ensures entries == Execute(registry, old(entries), raw)
    {
      var value := Trim(raw);
      if value == "" {
        return;
      }
      var normalized := ToLower(value);
      if normalized == "clear" {
        entries := Cleared();
        return;
      }
      var commandEntry := Echo(value);
      var lookup := SafeLookup(registry, normalized);
      var responseEntries;
      if lookup.Some? {
        responseEntries := TextEntries(lookup.value.output);
      } else {
        responseEntries := [NotFound(value)];
      }
      entries := entries + [commandEntry] + responseEntries;
    }

    /** `handleSubmit`: run the buffer, then empty it, whatever the outcome. */
    method HandleSubmit()
      modifies this
      ensures entries == Execute(registry, old(entries), old(command))
      ensures command == ""
    {
      RunCommand(command);
      command := "";
    }
  }

  /** Input that is empty or all white space leaves the log as it was. */
  lemma BlankIsIgnored(registry: Option<Registry>, prev: seq<Entry>, raw: string)
    requires AllSpace(raw)
    ensures Execute(registry, prev, raw) == prev
  {
    TrimEmptyIff(raw);
  }

  /** `clear`, in any case and with any padding, replaces the log with the
      one-line notice: whatever the log held, and not the three-entry seed. */
  lemma ClearLeavesNotice(registry: Option<Registry>, prev: seq<Entry>, pre: string, word: string, post: string)
    requires AllSpace(pre) && AllSpace(post) && ToLower(word) == "clear"
    ensures Execute(registry, prev, pre + word + post) == [Entry(Text, "Console cleared.")]
    ensures Execute(registry, prev, pre + word + post) != InitialEntries()
  {
    TrimPadding(pre, word, post);
    LowerTrimmedIsTrimmed(word);
  }

  /** A registered command appends the echo and then one `text` entry per
      output line, in order. */
  lemma KnownCommand(table: Registry, prev: seq<Entry>, raw: string)
    requires Trim(raw) != "" && ToLower(Trim(raw)) != "clear"
    requires ToLower(Trim(raw)) in table
    ensures var output := table[ToLower(Trim(raw))].output;
      var next := Execute(Some(table), prev, raw);
      && |next| == |prev| + 1 + |output|
      && next[..|prev|] == prev
      && next[|prev|] == Entry(Command, "guest@portfolio:~$ " + Trim(raw))
      && forall i :: 0 <= i < |output| ==> next[|prev| + 1 + i] == Entry(Text, output[i])
  {
  }

  /** An unknown command appends the echo and one `error` entry naming the
      trimmed input and suggesting `help`. */
  lemma UnknownCommand(registry: Option<Registry>, prev: seq<Entry>, raw: string)
    requires Trim(raw) != "" && ToLower(Trim(raw)) != "clear"
    requires registry.None? || ToLower(Trim(raw)) !in registry.value
    ensures Execute(registry, prev, raw)
      == prev + [ Entry(Command, "guest@portfolio:~$ " + Trim(raw)),
                  Entry(Error, "Command not found: " + Trim(raw) + ". Try \"help\".") ]
  {
  }

  /** A missing table behaves exactly like a table with no entries: every
      command is unknown. */
  lemma MissingRegistryIsUnknown(prev: seq<Entry>, raw: string)
    ensures Execute(None, prev, raw) == Execute(Some(map[]), prev, raw)
  {
  }

  /** Apart from `clear`, the old log is a prefix of the new one, and what is
      appended does not depend on the log. */
  lemma AppendOnly(registry: Option<Registry>, prev: seq<Entry>, raw: string)
    requires ToLower(Trim(raw)) != "clear"
    ensures prev <= Execute(registry, prev, raw)
    ensures Execute(registry, prev, raw) == prev + Execute(registry, [], raw)
  {
    var value := Trim(raw);
    if value != "" {
      var tail := [Echo(value)] + Response(registry, value);
      Reassociate(prev, [Echo(value)], Response(registry, value));
      Reassociate([], [Echo(value)], Response(registry, value));
      assert [] + tail == tail;
    }
  }

  lemma Reassociate(a: seq<Entry>, b: seq<Entry>, c: seq<Entry>)
    ensures a + b + c == a + (b + c)
  {
  }

  /** White space around the input changes nothing at all. */
  lemma PaddingIsIgnored(registry: Option<Registry>, prev: seq<Entry>, pre: string, raw: string, post: string)
    requires AllSpace(pre) && AllSpace(post)
    ensures Execute(registry, prev, pre + raw + post) == Execute(registry, prev, raw)
  {
    TrimPadding(pre, raw, post);
  }

  /** Inputs that agree once trimmed and lower-cased name the same command:
      the log grows by the same amount, and everything after the echo is the
      same. */
  lemma CaseIsIgnored(table: Registry, prev: seq<Entry>, a: string, b: string)
    requires Trim(a) != "" && ToLower(Trim(a)) == ToLower(Trim(b))
    requires ToLower(Trim(a)) != "clear" && ToLower(Trim(a)) in table
    ensures |Execute(Some(table), prev, a)| == |Execute(Some(table), prev, b)|
    ensures Execute(Some(table), prev, a)[|prev| + 1..] == Execute(Some(table), prev, b)[|prev| + 1..]
  {
    assert |Trim(b)| == |ToLower(Trim(b))| == |ToLower(Trim(a))| == |Trim(a)|;
  }
}
