/**
 * The typewriter of the home page's terminal window. A timer calls the step
 * `type` repeatedly; each call reveals one more character of the current
 * script line, or a whole empty line at once, and stops the timer once
 * every line has been shown.
 *
 * The pure part below (Cursor, Next, Iterate, Shown) says where the step is
 * and what must be on screen there; the class Typer performs the step in
 * place, the way the effect's closure does.
 */
module TerminalTyper {

  /** One script line: `{ text, color }`. */
  datatype ScriptLine = ScriptLine(text: string, color: string)

  /** The closure's `currentLineIndex` and `currentCharIndex`. */
  datatype Cursor = Cursor(line: nat, column: nat)

  /** How many steps a line takes: one per character, and one for an empty
      line. */
  function Width(l: ScriptLine): (w: nat)
    ensures w >= 1
    ensures l.text == "" ==> w == 1
    ensures l.text != "" ==> w == |l.text|
  {
    if l.text == "" then 1 else |l.text|
  }

  /** Σ max(1, |text|) over a script: the steps it takes to show it all. */
  function TotalSteps(lines: seq<ScriptLine>): (n: nat)
    ensures n >= |lines|
  {
    if lines == [] then 0 else Width(lines[0]) + TotalSteps(lines[1..])
  }

  /** A cursor the step can reach: at most one past the last line, at
      character 0 past the end, and strictly inside the current line. */
  predicate InRange(lines: seq<ScriptLine>, c: Cursor) {
    && c.line <= |lines|
    && (c.line == |lines| ==> c.column == 0)
    && (c.line < |lines| ==> c.column < Width(lines[c.line]))
  }

  /** The steps still to come from `c`. */
  function Remaining(lines: seq<ScriptLine>, c: Cursor): nat
    requires InRange(lines, c)
  {
    TotalSteps(lines[c.line..]) - c.column
  }

  /** Where one call of `type` moves the cursor. */
  function Next(lines: seq<ScriptLine>, c: Cursor): (r: Cursor)
    requires InRange(lines, c)
    ensures InRange(lines, r)
    ensures c.line >= |lines| ==> r == c
    ensures c.line < |lines| ==> Remaining(lines, r) == Remaining(lines, c) - 1
  {
    if c.line >= |lines| then c
    else
      var text := lines[c.line].text;
      assert lines[c.line..][1..] == lines[c.line + 1..];
      if text == "" then Cursor(c.line + 1, 0)
      else if c.column + 1 >= |text| then Cursor(c.line + 1, 0)
      else Cursor(c.line, c.column + 1)
  }

  /** The cursor `n` calls after `c`. */
  function Iterate(lines: seq<ScriptLine>, c: Cursor, n: nat): (r: Cursor)
    requires InRange(lines, c)
    ensures InRange(lines, r)
  {
    if n == 0 then c else Next(lines, Iterate(lines, c, n - 1))
  }

  /** What `displayedLines` holds at cursor `c`: every finished line whole,
      then the current line cut to its first `column` characters once it has
      started, with its other fields copied. */
  function Shown(lines: seq<ScriptLine>, c: Cursor): (r: seq<ScriptLine>)
    requires InRange(lines, c)
    ensures |r| == c.line + (if c.column == 0 then 0 else 1)
    ensures r[..c.line] == lines[..c.line]
    ensures c.column > 0 ==> r[c.line].color == lines[c.line].color
    ensures c.column > 0 ==> |r[c.line].text| == c.column && r[c.line].text < lines[c.line].text
  {
    if c.column == 0 then lines[..c.line]
    else lines[..c.line] + [lines[c.line].(text := lines[c.line].text[..c.column])]
  }

  /** Once the cursor is past the last line, a step changes nothing. */
  lemma DoneIsFixed(lines: seq<ScriptLine>, c: Cursor)
    requires InRange(lines, c) && c.line >= |lines|
    ensures Next(lines, c) == c && Shown(lines, Next(lines, c)) == lines
  {
  }

  /** An empty line is shown whole in one step, with its colour, and the
      cursor moves to the next line. */
  lemma EmptyLineInOneStep(lines: seq<ScriptLine>, c: Cursor)
    requires InRange(lines, c) && c.line < |lines| && lines[c.line].text == ""
    ensures Next(lines, c) == Cursor(c.line + 1, 0)
    ensures Shown(lines, Next(lines, c)) == Shown(lines, c) + [lines[c.line].(text := "")]
  {
    assert lines[..c.line + 1] == lines[..c.line] + [lines[c.line]];
  }

  /** On a non-empty line each step reveals exactly one more character:
      the next character of the line, or the last one, after which the line
      is shown whole and the cursor moves on. */
  lemma OneCharacterPerStep(lines: seq<ScriptLine>, c: Cursor)
    requires InRange(lines, c) && c.line < |lines| && lines[c.line].text != ""
    ensures var text := lines[c.line].text;
      && (c.column + 1 < |text| ==> Next(lines, c) == Cursor(c.line, c.column + 1))
      && (c.column + 1 == |text| ==> Next(lines, c) == Cursor(c.line + 1, 0))
      && Shown(lines, Next(lines, c))
         == lines[..c.line] + [lines[c.line].(text := text[..c.column + 1])]
  {
    var text := lines[c.line].text;
    if c.column + 1 == |text| {
      assert text[..c.column + 1] == text;
      assert lines[c.line].(text := text) == lines[c.line];
      assert lines[..c.line + 1] == lines[..c.line] + [lines[c.line]];
    }
  }

  /** After `n` steps the cursor has `n` fewer steps to go, until it is
      done. */
  lemma {:induction false} IterateRemaining(lines: seq<ScriptLine>, c: Cursor, n: nat)
    requires InRange(lines, c)
    ensures Remaining(lines, Iterate(lines, c, n))
      == if n >= Remaining(lines, c) then 0 else Remaining(lines, c) - n
  {
    if n > 0 {
      IterateRemaining(lines, c, n - 1);
      var p := Iterate(lines, c, n - 1);
      if p.line >= |lines| {
        assert Next(lines, p) == p;
      } else {
        assert Remaining(lines, p) >= 1 by { RemainingPositive(lines, p); }
      }
    }
  }

  lemma RemainingPositive(lines: seq<ScriptLine>, c: Cursor)
    requires InRange(lines, c) && c.line < |lines|
    ensures Remaining(lines, c) >= 1
  {
    assert lines[c.line..][1..] == lines[c.line + 1..];
  }

  /** No steps left means every line has been passed. */
  lemma NothingRemainingIsDone(lines: seq<ScriptLine>, c: Cursor)
    requires InRange(lines, c) && Remaining(lines, c) == 0
    ensures c == Cursor(|lines|, 0)
  {
    if c.line < |lines| {
      RemainingPositive(lines, c);
    }
  }

  /** Every line is eventually revealed in full: from the start, after
      Σ max(1, |text|) steps or more, the displayed lines are the script,
      texts and colours alike. */
  lemma CompletesAfterTotalSteps(lines: seq<ScriptLine>, n: nat)
    requires n >= TotalSteps(lines)
    ensures Iterate(lines, Cursor(0, 0), n) == Cursor(|lines|, 0)
    ensures Shown(lines, Iterate(lines, Cursor(0, 0), n)) == lines
  {
    assert lines[0..] == lines;
    IterateRemaining(lines, Cursor(0, 0), n);
    NothingRemainingIsDone(lines, Iterate(lines, Cursor(0, 0), n));
  }

  /** The effect's closure: the cursor, the partial text, and the displayed
      lines it pushes to or overwrites. `stopped` records that the timer was
      cleared. */
  class Typer {
    const lines: seq<ScriptLine>
    var lineIndex: nat
    var charIndex: nat
    var currentText: string
    var displayedLines: seq<ScriptLine>
    var stopped: bool

    function Position(): Cursor
      reads this
    {
      Cursor(lineIndex, charIndex)
    }

    /** The partial text is the first `charIndex` characters of the current
        line, and the displayed lines are what the cursor calls for. */
    predicate Valid()
      reads this
      ensures Valid() ==> |displayedLines| == lineIndex + (if charIndex == 0 then 0 else 1)
      ensures Valid() && lineIndex < |lines| ==>
        |currentText| == charIndex && currentText <= lines[lineIndex].text
      ensures Valid() && charIndex > 0 ==> displayedLines[lineIndex].text == currentText
    {
      && InRange(lines, Position())
      && (lineIndex < |lines| ==> currentText == lines[lineIndex].text[..charIndex])
      && (lineIndex >= |lines| ==> currentText == "")
      && displayedLines == Shown(lines, Position())
    }

    constructor (lines: seq<ScriptLine>)
      ensures this.lines == lines && Valid()
      ensures Position() == Cursor(0, 0) && displayedLines == [] && !stopped
    {
      this.lines := lines;
      lineIndex := 0;
      charIndex := 0;
      currentText := "";
      displayedLines := [];
      stopped := false;
    }

    /** One call of `type`. */
    method Step()
      requires Valid()
      modifies this
      ensures Valid()
      ensures Position() == Next(lines, old(Position()))
      ensures stopped == (old(stopped) || old(lineIndex) >= |lines|)
    {
      if lineIndex >= |lines| {
        stopped := true;
        return;
      }
      var line := lines[lineIndex];
      if line.text == "" {
        EmptyLineInOneStep(lines, Position());
        displayedLines := displayedLines + [line.(text := "")];
        lineIndex := lineIndex + 1;
        charIndex := 0;
        currentText := "";
        return;
      }
      OneCharacterPerStep(lines, Position());
      var typed := currentText + [line.text[charIndex]];
      assert typed == line.text[..charIndex + 1];
      var newLines;
      if lineIndex < |displayedLines| {
        newLines := displayedLines[lineIndex := line.(text := typed)];
      } else {
        newLines := displayedLines + [line.(text := typed)];
      }
      assert newLines == lines[..lineIndex] + [line.(text := typed)];
      displayedLines := newLines;
      if charIndex + 1 >= |line.text| {
        lineIndex, charIndex, currentText := lineIndex + 1, 0, "";
      } else {
        charIndex, currentText := charIndex + 1, typed;
      }
    }

    /** `ticks` calls of `type`. */
    method Run(ticks: nat)
      requires Valid()
      modifies this
      ensures Valid()
      ensures Position() == Iterate(lines, old(Position()), ticks)
    {
      var i := 0;
      while i < ticks
        invariant 0 <= i <= ticks && Valid()
        invariant Position() == Iterate(lines, old(Position()), i)
      {
        Step();
        i := i + 1;
      }
    }
  }

  /** A fresh typer driven for `ticks` steps: what it displays, and, once
      `ticks` covers the whole script, the script itself. */
  method Animate(lines: seq<ScriptLine>, ticks: nat) returns (displayed: seq<ScriptLine>)
    ensures displayed == Shown(lines, Iterate(lines, Cursor(0, 0), ticks))
    ensures ticks >= TotalSteps(lines) ==> displayed == lines
  {
    var typer := new Typer(lines);
    typer.Run(ticks);
    displayed := typer.displayedLines;
    if ticks >= TotalSteps(lines) {
      CompletesAfterTotalSteps(lines, ticks);
    }
  }
}
