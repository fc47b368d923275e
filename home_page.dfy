/**
 * The values the home page derives from its translations before rendering:
 * the typewriter's script, the terminal window's labels and the glitch
 * headline. Each translation is an input here; a missing one is `None`.
 */
module HomePage {
  import opened JsStrings
  import opened Options
  import opened TerminalTyper

  /** `defaultTerminalScript`: eleven lines, two of them empty spacers. */
  function DefaultTerminalScript(): (r: seq<ScriptLine>)
    ensures |r| == 11
  {
    [ ScriptLine("Initializing system...", "text-slate-500"),
      ScriptLine("Loading modules: [React, Node, Design]...", "text-slate-400"),
      ScriptLine(">> Access granted.", "text-emerald-500"),
      ScriptLine("", "text-transparent"),
      ScriptLine("Hello, World! I am", "text-slate-200"),
      ScriptLine("YOUNES", "text-emerald-400 font-bold text-lg tracking-wider"),
      ScriptLine("Full-Stack Developer & UI Architect", "text-blue-400"),
      ScriptLine("", "text-transparent"),
      ScriptLine("Current status:", "text-slate-400"),
      ScriptLine("-> Building digital experiences in Morocco.", "text-amber-300"),
      ScriptLine("-> Ready for new challenges.", "text-emerald-300") ]
  }

  /** `terminalScript`: the translated script when it is an array (Some)
      with at least one line, the default otherwise. */
  function TerminalScript(translated: Option<seq<ScriptLine>>): (r: seq<ScriptLine>)
    ensures r != []
    ensures translated.Some? && translated.value != [] ==> r == translated.value
    ensures translated.None? || translated.value == [] ==> r == DefaultTerminalScript()
  {
    match translated
    case Some(script) => if |script| > 0 then script else DefaultTerminalScript()
    case None => DefaultTerminalScript()
  }

  /** `value || fallback` on a string that may be missing: `undefined` and
      the empty string are both falsy. */
  function Or(value: Option<string>, fallback: string): (r: string)
    ensures value.Some? && value.value != "" ==> r == value.value
    ensures value.None? || value.value == "" ==> r == fallback
  {
    if value.Some? && value.value != "" then value.value else fallback
  }

  /** The window title: the translation when present, `bash - dev_env`
      otherwise. */
  function WindowTitle(translated: Option<string>): (r: string)
    ensures r != ""
    ensures translated.Some? && translated.value != "" ==> r == translated.value
  {
    Or(translated, "bash - dev_env")
  }

  /** The port label: the translation when present, `Port: 3000` otherwise. */
  function PortLabel(translated: Option<string>): (r: string)
    ensures r != ""
    ensures translated.Some? && translated.value != "" ==> r == translated.value
  {
    Or(translated, "Port: 3000")
  }

  /** The status label: the translation when present, `Online` otherwise. */
  function StatusLabel(translated: Option<string>): (r: string)
    ensures r != ""
    ensures translated.Some? && translated.value != "" ==> r == translated.value
  {
    Or(translated, "Online")
  }

  /** The headline's own fallback: the translation when present,
      `Creative Developer` otherwise. */
  function GlitchFallback(translated: Option<string>): (r: string)
    ensures r != ""
    ensures translated.Some? && translated.value != "" ==> r == translated.value
  {
    Or(translated, "Creative Developer")
  }

  /** `[prefix, highlight].filter(Boolean).join(' ').trim() || fallback`.
      A missing translation is an empty string here: `filter(Boolean)`
      drops both alike. */
  function GlitchText(prefix: string, highlight: string, fallback: string): (r: string)
    ensures r == fallback || (r != "" && Trimmed(r))
    ensures fallback != "" ==> r != ""
  {
    var joined := Trim(Join(FilterNonEmpty([prefix, highlight]), " "));
    if joined == "" then fallback else joined
  }

  /** Whatever the translations, the labels and the headline are never
      empty, since their own fallbacks are not. */
  lemma LabelsNeverEmpty(title: Option<string>, port: Option<string>, status: Option<string>,
                         glitch: Option<string>, prefix: string, highlight: string)
    ensures WindowTitle(title) != "" && PortLabel(port) != "" && StatusLabel(status) != ""
    ensures GlitchText(prefix, highlight, GlitchFallback(glitch)) != ""
  {
  }

  /** Filtering and joining two parts: one space between them when both are
      present, otherwise just the part that is there (or nothing). */
  lemma JoinTwo(prefix: string, highlight: string)
    ensures Join(FilterNonEmpty([prefix, highlight]), " ")
      == if prefix != "" && highlight != "" then prefix + " " + highlight else prefix + highlight
  {
    assert [prefix, highlight][1..] == [highlight];
    assert [highlight][1..] == [];
    if prefix != "" && highlight != "" {
      assert FilterNonEmpty([prefix, highlight]) == [prefix, highlight];
      assert [prefix, highlight][1..] == [highlight];
    } else if prefix != "" {
      assert FilterNonEmpty([prefix, highlight]) == [prefix];
      assert prefix + highlight == prefix;
    } else {
      assert FilterNonEmpty([prefix, highlight]) == (if highlight == "" then [] else [highlight]);
      assert prefix + highlight == highlight;
    }
  }

  /** Two trimmed, non-empty parts make the headline `prefix highlight`,
      with one space between them. */
  lemma GlitchBothParts(prefix: string, highlight: string, fallback: string)
    requires prefix != "" && highlight != "" && Trimmed(prefix) && Trimmed(highlight)
    ensures GlitchText(prefix, highlight, fallback) == prefix + " " + highlight
  {
    JoinTwo(prefix, highlight);
    var s := prefix + " " + highlight;
    assert s[0] == prefix[0] && s[|s| - 1] == highlight[|highlight| - 1];
    assert [] + s + [] == s;
    TrimAround([], s, []);
  }

  /** A missing or empty part drops out: no stray space is left. */
  lemma GlitchOnePart(part: string, fallback: string)
    requires part != "" && Trimmed(part)
    ensures GlitchText(part, "", fallback) == part
    ensures GlitchText("", part, fallback) == part
  {
    JoinTwo(part, "");
    JoinTwo("", part);
    assert part + "" == part && "" + part == part;
    assert [] + part + [] == part;
    TrimAround([], part, []);
  }

  /** Parts that are missing or only white space give the fallback. */
  lemma GlitchBlankParts(prefix: string, highlight: string, fallback: string)
    requires AllSpace(prefix) && AllSpace(highlight)
    ensures GlitchText(prefix, highlight, fallback) == fallback
  {
    JoinTwo(prefix, highlight);
    AllSpaceConcat(prefix, " ");
    AllSpaceConcat(prefix + " ", highlight);
    AllSpaceConcat(prefix, highlight);
    TrimEmptyIff(Join(FilterNonEmpty([prefix, highlight]), " "));
  }

  /** The default script has eleven lines, of which exactly the fourth and
      the eighth are empty: the typewriter shows those whole in one step. */
  lemma DefaultScriptShape()
    ensures |DefaultTerminalScript()| == 11
    ensures forall i :: 0 <= i < 11 ==>
      (DefaultTerminalScript()[i].text == "" <==> i == 3 || i == 7)
  {
  }
}
