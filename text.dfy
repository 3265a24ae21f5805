/**
 * The Python `str` operations the pipeline relies on, on `seq<char>`:
 * `strip`, `lower`, `capitalize`, `in` (substring), `find` of one character,
 * `"\n".join`, `splitlines`, left-aligned padding (`f"{s:<w}"`), `c * n`,
 * and the code-point order used by `sorted`.
 * Case mapping is ASCII only.
 */
module Text {

  // ---------------------------------------------------------------------------
  // Character classes
  // ---------------------------------------------------------------------------

  /** The characters `str.splitlines` ends a line at. */
  predicate IsLineBoundary(c: char) {
    c == '\n' || c == '\r' || c == '\U{000B}' || c == '\U{000C}'
    || c == '\U{001C}' || c == '\U{001D}' || c == '\U{001E}'
    || c == '\U{0085}' || c == '\U{2028}' || c == '\U{2029}'
  }

  /** The characters `str.isspace` accepts, the ones `str.strip()` removes. */
  predicate IsSpace(c: char) {
    c == ' ' || ('\t' <= c <= '\r') || ('\U{001C}' <= c <= '\U{001F}')
    || c == '\U{0085}' || c == '\U{00A0}' || c == '\U{1680}'
    || ('\U{2000}' <= c <= '\U{200A}') || c == '\U{2028}' || c == '\U{2029}'
    || c == '\U{202F}' || c == '\U{205F}' || c == '\U{3000}'
  }

  predicate IsAsciiLetter(c: char) {
    ('A' <= c <= 'Z') || ('a' <= c <= 'z')
  }

  /** No character of `s` would end a line for `splitlines`. */
  predicate NoLineBreak(s: string) {
    forall i :: 0 <= i < |s| ==> !IsLineBoundary(s[i])
  }

  /** `s` has no surrounding whitespace, so `s.strip() == s`. */
  predicate Trimmed(s: string) {
    s == [] || (!IsSpace(s[0]) && !IsSpace(s[|s| - 1]))
  }

  // ---------------------------------------------------------------------------
  // strip
  // ---------------------------------------------------------------------------

  /** How many whitespace characters `s` starts with. */
  function LeadingSpaces(s: string): (n: nat)
    ensures n <= |s|
  {
    if s != [] && IsSpace(s[0]) then 1 + LeadingSpaces(s[1..]) else 0
  }

  /** How many whitespace characters `s` ends with. */
  function TrailingSpaces(s: string): (n: nat)
    ensures n <= |s|
  {
    if s != [] && IsSpace(s[|s| - 1]) then 1 + TrailingSpaces(s[..|s| - 1]) else 0
  }

  /** Python's `s.strip()`: `s` without its leading and trailing whitespace. */
  function Strip(s: string): string {
    var t := s[LeadingSpaces(s)..];
    t[..|t| - TrailingSpaces(t)]
  }

  /** The leading whitespace run is maximal. */
  lemma {:induction false} LeadingSpacesSpec(s: string)
    ensures forall i :: 0 <= i < LeadingSpaces(s) ==> IsSpace(s[i])
    ensures LeadingSpaces(s) < |s| ==> !IsSpace(s[LeadingSpaces(s)])
  {
    if s != [] && IsSpace(s[0]) {
      LeadingSpacesSpec(s[1..]);
    }
  }

  /** The trailing whitespace run is maximal. */
  lemma {:induction false} TrailingSpacesSpec(s: string)
    ensures forall i :: |s| - TrailingSpaces(s) <= i < |s| ==> IsSpace(s[i])
    ensures TrailingSpaces(s) < |s| ==> !IsSpace(s[|s| - TrailingSpaces(s) - 1])
  {
    if s != [] && IsSpace(s[|s| - 1]) {
      TrailingSpacesSpec(s[..|s| - 1]);
    }
  }

  /**
   * `strip` leaves no whitespace at either end, removes only whitespace, and
   * leaves nothing of a string made of whitespace alone.
   */
  lemma StripSpec(s: string)
    ensures Trimmed(Strip(s))
    ensures |Strip(s)| <= |s|
    ensures Strip(s) == [] <==> forall i :: 0 <= i < |s| ==> IsSpace(s[i])
  {
    var a := LeadingSpaces(s);
    var t := s[a..];
    LeadingSpacesSpec(s);
    TrailingSpacesSpec(t);
    var r := Strip(s);
    if r != [] {
      assert r[0] == s[a];
      assert r[|r| - 1] == t[|t| - TrailingSpaces(t) - 1];
      assert !IsSpace(s[a]);
    }
  }

  lemma StripOfTrimmed(s: string)
    requires Trimmed(s)
    ensures Strip(s) == s
  {
    assert LeadingSpaces(s) == 0;
    assert s[0..] == s;
    assert TrailingSpaces(s) == 0;
  }

  /** Every character of a whitespace prefix is counted as leading whitespace. */
  lemma {:induction false} LeadingSpacesPadded(pad: string, s: string)
    requires forall i :: 0 <= i < |pad| ==> IsSpace(pad[i])
    ensures LeadingSpaces(pad + s) == |pad| + LeadingSpaces(s)
  {
    if pad != [] {
      assert (pad + s)[1..] == pad[1..] + s;
      LeadingSpacesPadded(pad[1..], s);
    } else {
      assert pad + s == s;
    }
  }

  /** A whitespace prefix in front of a trimmed string is exactly what `strip` removes. */
  lemma StripPadded(pad: string, s: string)
    requires forall i :: 0 <= i < |pad| ==> IsSpace(pad[i])
    requires Trimmed(s)
    ensures Strip(pad + s) == s
  {
    LeadingSpacesPadded(pad, s);
    assert LeadingSpaces(s) == 0;
    assert (pad + s)[|pad|..] == s;
    StripOfTrimmed(s);
  }

  // ---------------------------------------------------------------------------
  // lower, capitalize (ASCII)
  // ---------------------------------------------------------------------------

  function LowerChar(c: char): (r: char)
    ensures IsAsciiLetter(c) <==> IsAsciiLetter(r)
    ensures !IsAsciiLetter(c) ==> r == c
  {
    if 'A' <= c <= 'Z' then (c as int + 32) as char else c
  }

  function UpperChar(c: char): (r: char)
    ensures IsAsciiLetter(c) <==> IsAsciiLetter(r)
    ensures !IsAsciiLetter(c) ==> r == c
  {
    if 'a' <= c <= 'z' then (c as int - 32) as char else c
  }

  /** Python's `s.lower()`, ASCII letters only. */
  function Lower(s: string): (r: string)
    ensures |r| == |s|
    ensures forall i :: 0 <= i < |s| ==> r[i] == LowerChar(s[i])
  {
    seq(|s|, i requires 0 <= i < |s| => LowerChar(s[i]))
  }

  /** Python's `s.capitalize()`: the first character upper-cased, the rest lower-cased. */
  function Capitalize(s: string): (r: string)
    ensures |r| == |s|
    ensures |s| > 0 ==> r[0] == UpperChar(s[0])
    ensures forall i :: 1 <= i < |s| ==> r[i] == LowerChar(s[i])
  {
    seq(|s|, i requires 0 <= i < |s| => if i == 0 then UpperChar(s[i]) else LowerChar(s[i]))
  }

  /** Case mapping changes letters only, so a non-letter occurs in `Capitalize(s)` exactly where it occurs in `s`. */
  lemma CapitalizeKeepsNonLetters(s: string, i: nat)
    requires i < |s|
    ensures IsAsciiLetter(s[i]) <==> IsAsciiLetter(Capitalize(s)[i])
    ensures !IsAsciiLetter(s[i]) ==> Capitalize(s)[i] == s[i]
  {
  }

  /** Lower-casing twice is lower-casing once. */
  lemma LowerIdempotent(s: string)
    ensures Lower(Lower(s)) == Lower(s)
  {
    var l := Lower(s);
    forall i | 0 <= i < |s|
      ensures Lower(l)[i] == l[i]
    {
      assert LowerChar(LowerChar(s[i])) == LowerChar(s[i]);
    }
  }

  /** Lower-casing works character by character, so it distributes over concatenation. */
  lemma LowerAppend(a: string, b: string)
    ensures Lower(a + b) == Lower(a) + Lower(b)
  {
    var l, r := Lower(a + b), Lower(a) + Lower(b);
    forall i | 0 <= i < |a + b|
      ensures l[i] == r[i]
    {
      if i < |a| {
        assert (a + b)[i] == a[i];
      } else {
        assert (a + b)[i] == b[i - |a|];
      }
    }
  }

  /** Capitalizing twice is capitalizing once. */
  lemma CapitalizeIdempotent(s: string)
    ensures Capitalize(Capitalize(s)) == Capitalize(s)
  {
    var c := Capitalize(s);
    forall i | 0 <= i < |s|
      ensures Capitalize(c)[i] == c[i]
    {
      if i == 0 {
        assert UpperChar(UpperChar(s[0])) == UpperChar(s[0]);
      } else {
        assert LowerChar(LowerChar(s[i])) == LowerChar(s[i]);
      }
    }
  }

  /** Capitalizing changes only letter case: lower-cased, a capitalized text is the lower-cased original. */
  lemma LowerOfCapitalize(s: string)
    ensures Lower(Capitalize(s)) == Lower(s)
  {
    var c := Capitalize(s);
    forall i | 0 <= i < |s|
      ensures Lower(c)[i] == Lower(s)[i]
    {
      if i == 0 {
        assert LowerChar(UpperChar(s[0])) == LowerChar(s[0]);
      } else {
        assert LowerChar(LowerChar(s[i])) == LowerChar(s[i]);
      }
    }
  }

  // ---------------------------------------------------------------------------
  // Searching
  // ---------------------------------------------------------------------------

  /** Python's `t in s` for strings: `t` occurs in `s` at some offset. The empty string occurs everywhere. */
  predicate Contains(s: string, t: string)
    decreases |s|
  {
    t <= s || (s != [] && Contains(s[1..], t))
  }

  /** Index of the first `c` in `s`, or `|s|` when there is none (`s.find(c)` with -1 read as `|s|`). */
  function IndexOf(s: string, c: char): (r: nat)
    ensures r <= |s|
  {
    if s == [] then 0 else if s[0] == c then 0 else 1 + IndexOf(s[1..], c)
  }

  /** `IndexOf` finds the first occurrence, and `|s|` exactly when there is none. */
  lemma {:induction false} IndexOfSpec(s: string, c: char)
    ensures IndexOf(s, c) < |s| ==> s[IndexOf(s, c)] == c
    ensures forall j :: 0 <= j < IndexOf(s, c) ==> s[j] != c
    ensures IndexOf(s, c) == |s| <==> c !in s
  {
    if s != [] && s[0] != c {
      IndexOfSpec(s[1..], c);
      assert forall j :: 1 <= j < |s| ==> s[j] == s[1..][j - 1];
    }
  }

  lemma {:induction false} IndexOfAfter(a: string, b: string, c: char)
    requires c !in a
    ensures IndexOf(a + b, c) == |a| + IndexOf(b, c)
  {
    if a == [] {
      assert a + b == b;
    } else {
      assert (a + b)[0] == a[0];
      assert (a + b)[1..] == a[1..] + b;
      IndexOfAfter(a[1..], b, c);
    }
  }

  // ---------------------------------------------------------------------------
  // "\n".join and splitlines
  // ---------------------------------------------------------------------------

  /** Python's `"\n".join(lines)`. */
  function JoinLines(lines: seq<string>): string {
    if |lines| == 0 then "" else if |lines| == 1 then lines[0] else lines[0] + "\n" + JoinLines(lines[1..])
  }

  /** Index of the first line boundary of `s`, or `|s|`. */
  function LineEnd(s: string): (r: nat)
    ensures r <= |s|
  {
    if s == [] then 0 else if IsLineBoundary(s[0]) then 0 else 1 + LineEnd(s[1..])
  }

  /** `LineEnd` is the first line boundary. */
  lemma {:induction false} LineEndSpec(s: string)
    ensures LineEnd(s) < |s| ==> IsLineBoundary(s[LineEnd(s)])
    ensures forall j :: 0 <= j < LineEnd(s) ==> !IsLineBoundary(s[j])
  {
    if s != [] && !IsLineBoundary(s[0]) {
      LineEndSpec(s[1..]);
      assert forall j :: 1 <= j < |s| ==> s[j] == s[1..][j - 1];
    }
  }

  /**
   * Python's `s.splitlines()`: the pieces between line boundaries, with
   * `"\r\n"` read as one boundary and no empty piece after a final boundary.
   */
  function SplitLines(s: string): seq<string>
    decreases |s|
  {
    if s == [] then []
    else
      var e := LineEnd(s);
      if e == |s| then [s]
      else
        var next := if s[e] == '\r' && e + 1 < |s| && s[e + 1] == '\n' then e + 2 else e + 1;
        [s[..e]] + SplitLines(s[next..])
  }

  /** No piece of `splitlines` holds a line boundary. */
  lemma {:induction false} SplitLinesUnbroken(s: string)
    ensures forall i :: 0 <= i < |SplitLines(s)| ==> NoLineBreak(SplitLines(s)[i])
    decreases |s|
  {
    if s != [] {
      var e := LineEnd(s);
      LineEndSpec(s);
      if e < |s| {
        var next := if s[e] == '\r' && e + 1 < |s| && s[e + 1] == '\n' then e + 2 else e + 1;
        SplitLinesUnbroken(s[next..]);
        assert SplitLines(s) == [s[..e]] + SplitLines(s[next..]);
      }
    }
  }

  /** `lines` without its last element when that one is empty. */
  function DropTrailingEmpty(lines: seq<string>): seq<string> {
    if |lines| > 0 && lines[|lines| - 1] == "" then lines[..|lines| - 1] else lines
  }

  lemma {:induction false} LineEndOfUnbroken(s: string)
    requires NoLineBreak(s)
    ensures LineEnd(s) == |s|
  {
    if s != [] {
      assert !IsLineBoundary(s[0]);
      LineEndOfUnbroken(s[1..]);
    }
  }

  lemma {:induction false} LineEndOfJoin(head: string, rest: string)
    requires NoLineBreak(head)
    ensures LineEnd(head + "\n" + rest) == |head|
  {
    var s := head + "\n" + rest;
    if head == [] {
      assert s[0] == '\n';
    } else {
      assert s[0] == head[0];
      assert !IsLineBoundary(head[0]);
      assert s[1..] == head[1..] + "\n" + rest;
      LineEndOfJoin(head[1..], rest);
    }
  }

  lemma SplitLinesCons(head: string, rest: string)
    requires NoLineBreak(head)
    ensures SplitLines(head + "\n" + rest) == [head] + SplitLines(rest)
  {
    var s := head + "\n" + rest;
    LineEndOfJoin(head, rest);
    assert s[|head|] == '\n';
    assert s[..|head|] == head;
    assert s[|head| + 1..] == rest;
  }

  lemma SplitLinesOne(line: string)
    requires NoLineBreak(line)
    ensures SplitLines(line) == DropTrailingEmpty([line])
  {
    if line != [] {
      LineEndOfUnbroken(line);
    }
  }

  lemma DropTrailingEmptyCons(lines: seq<string>)
    requires |lines| >= 2
    ensures DropTrailingEmpty(lines) == [lines[0]] + DropTrailingEmpty(lines[1..])
  {
    assert lines[1..][..|lines| - 2] == lines[1..|lines| - 1];
    assert lines[..|lines| - 1] == [lines[0]] + lines[1..|lines| - 1];
    assert lines == [lines[0]] + lines[1..];
  }

  /** Splitting a join gives the lines back, except a final empty line, which `splitlines` drops. */
  lemma {:induction false} SplitJoin(lines: seq<string>)
    requires forall i :: 0 <= i < |lines| ==> NoLineBreak(lines[i])
    ensures SplitLines(JoinLines(lines)) == DropTrailingEmpty(lines)
  {
    if |lines| == 1 {
      SplitLinesOne(lines[0]);
    } else if |lines| >= 2 {
      var rest := lines[1..];
      assert NoLineBreak(lines[0]);
      SplitLinesCons(lines[0], JoinLines(rest));
      SplitJoin(rest);
      DropTrailingEmptyCons(lines);
    }
  }

  // ---------------------------------------------------------------------------
  // Padding and repetition
  // ---------------------------------------------------------------------------

  function Max(a: int, b: int): int {
    if a < b then b else a
  }

  /** `n` spaces (none when `n <= 0`). */
  function Spaces(n: int): (r: string)
    ensures |r| == Max(n, 0)
    ensures forall i :: 0 <= i < |r| ==> r[i] == ' '
  {
    seq(Max(n, 0), _ => ' ')
  }

  /**
   * Python's `f"{s:<w}"`: `s` left-aligned in a field of width `w`, padded
   * with spaces on the right and never truncated.
   */
  function PadRight(s: string, w: int): (r: string)
    ensures |r| == Max(w, |s|)
    ensures r[..|s|] == s
    ensures forall i :: |s| <= i < |r| ==> r[i] == ' '
  {
    s + Spaces(w - |s|)
  }

  /** Python's `c * n` for a one-character string `c`. */
  function Repeat(c: char, n: nat): (r: string)
    ensures |r| == n
    ensures forall i :: 0 <= i < n ==> r[i] == c
  {
    seq(n, _ => c)
  }

  // ---------------------------------------------------------------------------
  // String order (Python compares strings code point by code point)
  // ---------------------------------------------------------------------------

  /** `a < b` for Python strings: lexicographic on code points, a proper prefix first. */
  predicate StrLt(a: string, b: string) {
    if a == [] then b != []
    else if b == [] then false
    else if a[0] != b[0] then a[0] < b[0]
    else StrLt(a[1..], b[1..])
  }

  lemma {:induction false} StrLtIrreflexive(a: string)
    ensures !StrLt(a, a)
  {
    if a != [] {
      StrLtIrreflexive(a[1..]);
    }
  }

  lemma {:induction false} StrLtTransitive(a: string, b: string, c: string)
    requires StrLt(a, b) && StrLt(b, c)
    ensures StrLt(a, c)
  {
    if a != [] && b != [] && c != [] && a[0] == b[0] && b[0] == c[0] {
      StrLtTransitive(a[1..], b[1..], c[1..]);
    }
  }

  lemma {:induction false} StrLtTotal(a: string, b: string)
    requires a != b
    ensures StrLt(a, b) || StrLt(b, a)
  {
    if a != [] && b != [] && a[0] == b[0] {
      assert a == [a[0]] + a[1..] && b == [b[0]] + b[1..];
      StrLtTotal(a[1..], b[1..]);
    }
  }

  lemma StrLtAsymmetric(a: string, b: string)
    requires StrLt(a, b)
    ensures !StrLt(b, a)
  {
    if StrLt(b, a) {
      StrLtTransitive(a, b, a);
      StrLtIrreflexive(a);
    }
  }

  /** Strictly increasing, so sorted and free of duplicates. */
  predicate StrictlySorted(s: seq<string>) {
    forall i, j :: 0 <= i < j < |s| ==> StrLt(s[i], s[j])
  }

  /** `x` put into its place in a strictly sorted sequence that lacks it. */
  function Insert(x: string, s: seq<string>): (r: seq<string>)
    ensures |r| == |s| + 1
    ensures forall y :: y in r <==> y == x || y in s
  {
    if s == [] then [x]
    else if StrLt(x, s[0]) then [x] + s
    else [s[0]] + Insert(x, s[1..])
  }

  lemma {:induction false} InsertSorted(x: string, s: seq<string>)
    requires StrictlySorted(s) && x !in s
    ensures StrictlySorted(Insert(x, s))
  {
    if s != [] && !StrLt(x, s[0]) {
      assert x != s[0];
      StrLtTotal(x, s[0]);
      InsertSorted(x, s[1..]);
      var r := Insert(x, s);
      var t := Insert(x, s[1..]);
      assert r == [s[0]] + t;
      forall j | 0 < j < |r|
        ensures StrLt(r[0], r[j])
      {
        assert r[j] in t;
        if r[j] != x {
          var k :| 0 <= k < |s[1..]| && s[1..][k] == r[j];
          assert s[k + 1] == r[j];
        }
      }
    } else if s != [] {
      var r := [x] + s;
      forall i, j | 0 <= i < j < |r|
        ensures StrLt(r[i], r[j])
      {
        if i == 0 && j > 1 {
          StrLtTransitive(x, s[0], s[j - 1]);
        }
      }
    }
  }
}
