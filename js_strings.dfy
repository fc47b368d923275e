/**
 * The JavaScript built-ins the portfolio's widgets lean on, as functions on
 * `string` (a sequence of `char`):
 *  - `String.prototype.trim`, removing ECMAScript white space and line
 *    terminators from both ends;
 *  - `String.prototype.toLowerCase`, restricted to ASCII letters;
 *  - `Array.prototype.filter(Boolean)` and `Array.prototype.join` on arrays
 *    of strings.
 */
module JsStrings {

  /** ECMAScript WhiteSpace (section 12.2 of ECMA-262: TAB, VT, FF, ZWNBSP
      and every Zs code point) and LineTerminator (section 12.3: LF, CR, LS, PS). */
  predicate IsSpace(c: char) {
    || c == '\t' || c == '\n' || c == '\U{000B}' || c == '\U{000C}' || c == '\r'
    || c == ' ' || c == '\U{00A0}' || c == '\U{1680}'
    || ('\U{2000}' <= c <= '\U{200A}')
    || c == '\U{2028}' || c == '\U{2029}' || c == '\U{202F}' || c == '\U{205F}'
    || c == '\U{3000}' || c == '\U{FEFF}'
  }

  /** Every character is white space (defined by recursion, front first). */
  predicate AllSpace(s: string) {
    s == [] || (IsSpace(s[0]) && AllSpace(s[1..]))
  }

  /** No white space at either end (the shape of every `trim()` result). */
  predicate Trimmed(s: string) {
    s == [] || (!IsSpace(s[0]) && !IsSpace(s[|s| - 1]))
  }

  /** Drops leading white space (what it keeps and drops: TrimStartFacts). */
  function TrimStart(s: string): string {
    if s != [] && IsSpace(s[0]) then TrimStart(s[1..]) else s
  }

  /** Drops trailing white space (what it keeps and drops: TrimEndFacts). */
  function TrimEnd(s: string): string {
    if s != [] && IsSpace(s[|s| - 1]) then TrimEnd(s[..|s| - 1]) else s
  }

  /** `s.trim()`: no white space is left at either end (TrimSplit below shows
      that only white space was removed). */
  function Trim(s: string): (r: string)
    ensures Trimmed(r)
  {
    TrimStartFacts(s);
    TrimEndFacts(TrimStart(s));
    var r := TrimEnd(TrimStart(s));
    assert r != [] ==> r[0] == TrimStart(s)[0];
    r
  }

  /** TrimStart keeps a suffix, drops only white space, and leaves a string
      that does not start with white space. */
  lemma {:induction false} TrimStartFacts(s: string)
    ensures var r := TrimStart(s);
      && |r| <= |s| && r == s[|s| - |r|..]
      && AllSpace(s[..|s| - |r|])
      && (r == [] || !IsSpace(r[0]))
  {
    if s != [] && IsSpace(s[0]) {
      TrimStartFacts(s[1..]);
      var k := |s| - |TrimStart(s)|;
      assert s[..k][0] == s[0] && s[..k][1..] == s[1..][..k - 1];
      assert s[1..][k - 1..] == s[k..];
    } else {
      assert s[..0] == [] && s[0..] == s;
    }
  }

  /** TrimEnd keeps a prefix, drops only white space, and leaves a string
      that does not end with white space. */
  lemma {:induction false} TrimEndFacts(s: string)
    ensures var r := TrimEnd(s);
      && |r| <= |s| && r == s[..|r|]
      && AllSpace(s[|r|..])
      && (r == [] || !IsSpace(r[|r| - 1]))
  {
    if s != [] && IsSpace(s[|s| - 1]) {
      var init := s[..|s| - 1];
      TrimEndFacts(init);
      var n := |TrimEnd(s)|;
      assert AllSpace([s[|s| - 1]]) by {
        assert [s[|s| - 1]][1..] == [];
      }
      AllSpaceConcat(init[n..], [s[|s| - 1]]);
      assert s[n..] == init[n..] + [s[|s| - 1]];
      assert init[..n] == s[..n];
    } else {
      assert s[|s|..] == [] && s[..|s|] == s;
    }
  }

  lemma {:induction false} TrimStartSkips(a: string, x: string)
    requires AllSpace(a)
    ensures TrimStart(a + x) == TrimStart(x)
  {
    if a != [] {
      assert (a + x)[0] == a[0] && IsSpace(a[0]);
      assert (a + x)[1..] == a[1..] + x;
      TrimStartSkips(a[1..], x);
    } else {
      assert a + x == x;
    }
  }

  lemma {:induction false} TrimEndSkips(x: string, b: string)
    requires AllSpace(b)
    ensures TrimEnd(x + b) == TrimEnd(x)
  {
    if b != [] {
      assert b == b[..|b| - 1] + [b[|b| - 1]];
      AllSpaceSplit(b[..|b| - 1], [b[|b| - 1]]);
      assert (x + b)[|x + b| - 1] == b[|b| - 1] && IsSpace(b[|b| - 1]);
      assert (x + b)[..|x + b| - 1] == x + b[..|b| - 1];
      TrimEndSkips(x, b[..|b| - 1]);
    } else {
      assert x + b == x;
    }
  }

  lemma TrimStartStops(x: string)
    requires x == [] || !IsSpace(x[0])
    ensures TrimStart(x) == x
  {
  }

  lemma TrimEndStops(x: string)
    requires x == [] || !IsSpace(x[|x| - 1])
    ensures TrimEnd(x) == x
  {
  }

  /** Trimming strips exactly the white space around an already trimmed core. */
  lemma {:induction false} TrimAround(a: string, t: string, b: string)
    requires AllSpace(a) && AllSpace(b) && Trimmed(t)
    ensures Trim(a + t + b) == t
  {
    assert a + t + b == a + (t + b);
    TrimStartSkips(a, t + b);
    if t == [] {
      assert t + b == b + [];
      TrimStartSkips(b, []);
      TrimStartStops([]);
      TrimEndStops([]);
    } else {
      assert (t + b)[0] == t[0];
      TrimStartStops(t + b);
      TrimEndSkips(t, b);
      TrimEndStops(t);
    }
  }

  lemma {:induction false} AllSpaceConcat(x: string, y: string)
    requires AllSpace(x) && AllSpace(y)
    ensures AllSpace(x + y)
  {
    if x == [] {
      assert x + y == y;
    } else {
      assert (x + y)[0] == x[0] && (x + y)[1..] == x[1..] + y;
      AllSpaceConcat(x[1..], y);
    }
  }

  lemma {:induction false} AllSpaceSplit(x: string, y: string)
    requires AllSpace(x + y)
    ensures AllSpace(x) && AllSpace(y)
  {
    if x == [] {
      assert x + y == y;
    } else {
      assert (x + y)[0] == x[0] && (x + y)[1..] == x[1..] + y;
      AllSpaceSplit(x[1..], y);
    }
  }

  lemma StartSplit(s: string) returns (a: string)
    ensures s == a + TrimStart(s) && AllSpace(a)
  {
    TrimStartFacts(s);
    a := s[..|s| - |TrimStart(s)|];
  }

  lemma EndSplit(t: string) returns (b: string)
    ensures t == TrimEnd(t) + b && AllSpace(b)
  {
    TrimEndFacts(t);
    b := t[|TrimEnd(t)|..];
  }

  /** Every string is white space, then its trimmed form, then white space. */
  lemma {:induction false} TrimSplit(s: string) returns (a: string, b: string)
    ensures s == a + Trim(s) + b && AllSpace(a) && AllSpace(b)
  {
    a := StartSplit(s);
    b := EndSplit(TrimStart(s));
  }

  lemma Regroup(pre: string, a: string, t: string, b: string, post: string)
    ensures pre + (a + t + b) + post == (pre + a) + t + (b + post)
  {
  }

  /** White space added around the input does not change what `trim()` returns. */
  lemma {:induction false} TrimPadding(pre: string, s: string, post: string)
    requires AllSpace(pre) && AllSpace(post)
    ensures Trim(pre + s + post) == Trim(s)
  {
    var a, b := TrimSplit(s);
    AllSpaceConcat(pre, a);
    AllSpaceConcat(b, post);
    Regroup(pre, a, Trim(s), b, post);
    TrimAround(pre + a, Trim(s), b + post);
  }

  lemma {:induction false} TrimIdempotent(s: string)
    ensures Trim(Trim(s)) == Trim(s)
  {
    assert [] + Trim(s) + [] == Trim(s);
    TrimAround([], Trim(s), []);
  }

  /** `trim()` returns the empty string exactly when the input is all white space. */
  lemma {:induction false} TrimEmptyIff(s: string)
    ensures Trim(s) == [] <==> AllSpace(s)
  {
    if Trim(s) == [] {
      var a, b := TrimSplit(s);
      assert s == a + b;
      AllSpaceConcat(a, b);
    }
    if AllSpace(s) {
      assert s + [] + [] == s;
      TrimAround(s, [], []);
    }
  }

  /** ASCII `toLowerCase` on one character. */
  function LowerChar(c: char): (d: char)
    ensures 'A' <= c <= 'Z' ==> 'a' <= d <= 'z' && d as int - c as int == 32
    ensures !('A' <= c <= 'Z') ==> d == c
  {
    if 'A' <= c <= 'Z' then (c as int + 32) as char else c
  }

  predicate HasNoUpper(s: string) {
    forall i :: 0 <= i < |s| ==> !('A' <= s[i] <= 'Z')
  }

  /** `s.toLowerCase()`, character by character. */
  function ToLower(s: string): (r: string)
    ensures |r| == |s|
    ensures forall i :: 0 <= i < |s| ==> r[i] == LowerChar(s[i])
    ensures HasNoUpper(r)
  {
    if s == [] then [] else [LowerChar(s[0])] + ToLower(s[1..])
  }

  /** A string without upper-case letters is its own lower-case form. */
  lemma LowerFixed(s: string)
    requires HasNoUpper(s)
    ensures ToLower(s) == s
  {
  }

  /** Lower-casing leaves white space alone, so a string whose lower-case
      form is trimmed is itself trimmed, and `trim()` returns it unchanged. */
  lemma {:induction false} LowerTrimmedIsTrimmed(s: string)
    requires Trimmed(ToLower(s))
    ensures Trim(s) == s
  {
    if s != [] {
      assert ToLower(s)[0] == LowerChar(s[0]);
      assert ToLower(s)[|s| - 1] == LowerChar(s[|s| - 1]);
    }
    assert [] + s + [] == s;
    TrimAround([], s, []);
  }

  /** Lower-casing twice is lower-casing once. */
  lemma ToLowerIdempotent(s: string)
    ensures ToLower(ToLower(s)) == ToLower(s)
  {
    LowerFixed(ToLower(s));
  }

  /** `parts.filter(Boolean)` on an array of strings: keeps the non-empty
      ones, in order. */
  function FilterNonEmpty(parts: seq<string>): (r: seq<string>)
    ensures |r| <= |parts|
    ensures forall p :: p in r ==> p != "" && p in parts
    ensures forall p :: p in parts && p != "" ==> p in r
    ensures |parts| == 1 ==> r == if parts[0] == "" then [] else parts
  {
    if parts == [] then []
    else (if parts[0] == "" then [] else [parts[0]]) + FilterNonEmpty(parts[1..])
  }

  /** Filtering works piece by piece: with the one-part cases above, this
      fixes the order and the repetitions of what is kept. */
  lemma {:induction false} FilterConcat(a: seq<string>, b: seq<string>)
    ensures FilterNonEmpty(a + b) == FilterNonEmpty(a) + FilterNonEmpty(b)
  {
    if a == [] {
      assert a + b == b;
    } else {
      assert (a + b)[0] == a[0] && (a + b)[1..] == a[1..] + b;
      FilterConcat(a[1..], b);
      var head := if a[0] == "" then [] else [a[0]];
      assert head + (FilterNonEmpty(a[1..]) + FilterNonEmpty(b))
          == head + FilterNonEmpty(a[1..]) + FilterNonEmpty(b);
    }
  }

  function TotalLength(parts: seq<string>): nat {
    if parts == [] then 0 else |parts[0]| + TotalLength(parts[1..])
  }

  /** `parts.join(sep)`: the parts in order with one `sep` between neighbours. */
  function Join(parts: seq<string>, sep: string): (r: string)
    ensures |r| == TotalLength(parts) + (if parts == [] then 0 else (|parts| - 1) * |sep|)
    ensures parts != [] ==> r[..|parts[0]|] == parts[0]
    ensures |parts| == 1 ==> r == parts[0]
  {
    if |parts| == 0 then ""
    else if |parts| == 1 then parts[0]
    else parts[0] + sep + Join(parts[1..], sep)
  }

  /** Joining two non-empty runs of parts puts exactly one separator where
      they meet: with the one-part case above, this places every part and
      every separator. */
  lemma {:induction false} JoinConcat(a: seq<string>, b: seq<string>, sep: string)
    requires a != [] && b != []
    ensures Join(a + b, sep) == Join(a, sep) + sep + Join(b, sep)
  {
    assert (a + b)[0] == a[0] && (a + b)[1..] == a[1..] + b;
    if |a| == 1 {
      assert a[1..] + b == b;
    } else {
      JoinConcat(a[1..], b, sep);
      assert a[0] + sep + (Join(a[1..], sep) + sep + Join(b, sep))
          == (a[0] + sep + Join(a[1..], sep)) + sep + Join(b, sep);
    }
  }
}
