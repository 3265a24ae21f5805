/**
 * The stat-text parser, `parse_stats` (src/utils.py and
 * fantasy-baseball-cli/src/utils.py): every line holding a colon is cut at its
 * first colon, both halves are stripped, and the pair is stored in a dict, a
 * later key overwriting an earlier one. Lines without a colon are skipped.
 */
module Parse {
  import opened Wrappers
  import opened Text
  import opened Stats

  /** The pair a line contributes to the dict: none without a colon, else the stripped halves around the first colon. */
  function LinePair(line: string): Option<(string, string)> {
    var c := IndexOf(line, ':');
    if c == |line| then None else Some((Strip(line[..c]), Strip(line[c + 1..])))
  }

  /** A line contributes a pair exactly when it holds a colon. */
  lemma LinePairPresence(line: string)
    ensures LinePair(line).None? <==> ':' !in line
  {
    IndexOfSpec(line, ':');
  }

  function PairSeq(o: Option<(string, string)>): seq<(string, string)> {
    if o.Some? then [o.value] else []
  }

  /** The pairs of all lines, line after line. */
  function LinePairs(lines: seq<string>): seq<(string, string)> {
    if lines == [] then [] else LinePairs(lines[..|lines| - 1]) + PairSeq(LinePair(lines[|lines| - 1]))
  }

  /** `f` applied to every element, keeping the present results in order. */
  function Collect<A, B>(f: A -> Option<B>, xs: seq<A>): seq<B> {
    if xs == [] then []
    else
      var o := f(xs[|xs| - 1]);
      Collect(f, xs[..|xs| - 1]) + (if o.Some? then [o.value] else [])
  }

  lemma {:induction false} CollectMembers<A, B>(f: A -> Option<B>, xs: seq<A>, e: B)
    ensures e in Collect(f, xs) <==> exists i :: 0 <= i < |xs| && f(xs[i]) == Some(e)
  {
    if xs != [] {
      var prev := xs[..|xs| - 1];
      CollectMembers(f, prev, e);
      assert forall i :: 0 <= i < |prev| ==> prev[i] == xs[i];
    }
  }

  lemma {:induction false} LinePairsCollect(lines: seq<string>)
    ensures LinePairs(lines) == Collect(LinePair, lines)
  {
    if lines != [] {
      LinePairsCollect(lines[..|lines| - 1]);
    }
  }

  /** A pair is parsed exactly when some line contributes it. */
  lemma LinePairsMembers(lines: seq<string>, e: (string, string))
    ensures e in LinePairs(lines) <==> exists i :: 0 <= i < |lines| && LinePair(lines[i]) == Some(e)
  {
    LinePairsCollect(lines);
    CollectMembers(LinePair, lines, e);
  }

  lemma {:induction false} LinePairsAppend(a: seq<string>, b: seq<string>)
    ensures LinePairs(a + b) == LinePairs(a) + LinePairs(b)
  {
    if b == [] {
      assert a + b == a;
    } else {
      var last := |b| - 1;
      assert (a + b)[..|a + b| - 1] == a + b[..last];
      assert (a + b)[|a + b| - 1] == b[last];
      LinePairsAppend(a, b[..last]);
    }
  }

  /** What `parse_stats(text)` returns. */
  function ParsedStats(text: string): map<string, string> {
    FoldPairs(LinePairs(SplitLines(text)))
  }

  /** `parse_stats(text)`: the loop runs over `text.splitlines()`. */
  method ParseStats(text: string) returns (stats: map<string, string>)
    ensures stats == ParsedStats(text)
  {
    stats := ParseLines(SplitLines(text));
  }

  /** The body of `parse_stats`, over its lines. */
  method ParseLines(lines: seq<string>) returns (stats: map<string, string>)
    ensures stats == FoldPairs(LinePairs(lines))
  {
    stats := map[];
    var i := 0;
    while i < |lines|
      invariant 0 <= i <= |lines|
      invariant stats == FoldPairs(LinePairs(lines[..i]))
    {
      ParseStep(lines, i);
      stats := ParseLine(stats, lines[i]);
      i := i + 1;
    }
    assert lines[..i] == lines;
  }

  /** The loop body of `parse_stats`: a line holding a colon is cut at the first one and stored, stripped. */
  method ParseLine(stats: map<string, string>, line: string) returns (next: map<string, string>)
    ensures LinePair(line).Some? ==> next == stats[LinePair(line).value.0 := LinePair(line).value.1]
    ensures LinePair(line).None? ==> next == stats
  {
    var c := IndexOf(line, ':');
    if c < |line| {
      var key, value := Strip(line[..c]), Strip(line[c + 1..]);
      next := stats[key := value];
    } else {
      next := stats;
    }
  }

  /** One more line: its pair, if any, is stored over what the earlier lines gave. */
  lemma ParseStep(lines: seq<string>, i: nat)
    requires i < |lines|
    ensures LinePair(lines[i]).Some? ==>
      FoldPairs(LinePairs(lines[..i + 1])) == FoldPairs(LinePairs(lines[..i]))[LinePair(lines[i]).value.0 := LinePair(lines[i]).value.1]
    ensures LinePair(lines[i]).None? ==> FoldPairs(LinePairs(lines[..i + 1])) == FoldPairs(LinePairs(lines[..i]))
  {
    var pairs := LinePairs(lines[..i]);
    assert lines[..i + 1][..i] == lines[..i];
    assert LinePairs(lines[..i + 1]) == pairs + PairSeq(LinePair(lines[i]));
    if LinePair(lines[i]).Some? {
      assert (pairs + [LinePair(lines[i]).value])[..|pairs|] == pairs;
    } else {
      assert pairs + [] == pairs;
    }
  }

  /**
   * A key of the dict parsed from `lines` (for `parse_stats(text)`, the lines
   * `text.splitlines()`) is exactly the stripped text before the first colon
   * of some line.
   */
  lemma ParsedKeys(lines: seq<string>, k: string)
    ensures k in FoldPairs(LinePairs(lines)) <==>
      exists i :: 0 <= i < |lines| && LinePair(lines[i]).Some? && LinePair(lines[i]).value.0 == k
  {
    var pairs := LinePairs(lines);
    FoldPairsKeys(pairs, k);
    if k in FoldPairs(pairs) {
      var j :| 0 <= j < |pairs| && pairs[j].0 == k;
      LinePairsMembers(lines, pairs[j]);
      var i :| 0 <= i < |lines| && LinePair(lines[i]) == Some(pairs[j]);
    }
    if exists i :: 0 <= i < |lines| && LinePair(lines[i]).Some? && LinePair(lines[i]).value.0 == k {
      var i :| 0 <= i < |lines| && LinePair(lines[i]).Some? && LinePair(lines[i]).value.0 == k;
      var e := LinePair(lines[i]).value;
      LinePairsMembers(lines, e);
      var j :| 0 <= j < |pairs| && pairs[j] == e;
    }
  }

  /** Last write wins: a key takes the value of the last line that holds it. */
  lemma {:induction false} ParsedLastWins(lines: seq<string>, i: nat, k: string, v: string)
    requires i < |lines| && LinePair(lines[i]) == Some((k, v))
    requires forall j :: i < j < |lines| ==> LinePair(lines[j]).None? || LinePair(lines[j]).value.0 != k
    ensures k in FoldPairs(LinePairs(lines)) && FoldPairs(LinePairs(lines))[k] == v
  {
    var prev, last := lines[..|lines| - 1], lines[|lines| - 1];
    var ps := LinePairs(prev);
    assert LinePairs(lines) == ps + PairSeq(LinePair(last));
    if i == |lines| - 1 {
      assert (ps + [(k, v)])[..|ps|] == ps;
    } else {
      assert prev[i] == lines[i];
      assert forall j :: i < j < |prev| ==> prev[j] == lines[j];
      ParsedLastWins(prev, i, k, v);
      if LinePair(last).Some? {
        assert (ps + [LinePair(last).value])[..|ps|] == ps;
      } else {
        assert ps + [] == ps;
      }
    }
  }

  /**
   * Only the first colon splits: a line holding a colon gives a pair, cut
   * where the text before holds no colon; the text after may hold more.
   */
  lemma LinePairSplitsAtFirstColon(line: string)
    requires ':' in line
    ensures LinePair(line).Some?
    ensures ':' !in line[..IndexOf(line, ':')]
    ensures line == line[..IndexOf(line, ':')] + ":" + line[IndexOf(line, ':') + 1..]
  {
    LinePairPresence(line);
    FirstColonCut(line, IndexOf(line, ':'));
  }

  lemma FirstColonCut(line: string, c: nat)
    requires c == IndexOf(line, ':') && c < |line|
    ensures ':' !in line[..c]
    ensures line == line[..c] + ":" + line[c + 1..]
  {
    IndexOfSpec(line, ':');
    var head, tail := line[..c], line[c + 1..];
    assert forall j :: 0 <= j < |head| ==> head[j] == line[j];
    assert line == head + [line[c]] + tail;
  }

  /**
   * A line `pad + key + ":" + gap + value`, with whitespace `pad` and `gap`, a
   * trimmed colon-free key and a trimmed value, parses back to `(key, value)`;
   * the value may hold further colons.
   */
  lemma LinePairOfPadded(pad: string, key: string, gap: string, value: string)
    requires forall i :: 0 <= i < |pad| ==> IsSpace(pad[i])
    requires forall i :: 0 <= i < |gap| ==> IsSpace(gap[i])
    requires ':' !in pad && ':' !in key
    requires Trimmed(key) && Trimmed(value)
    ensures LinePair(pad + key + ":" + gap + value) == Some((key, value))
  {
    var line := pad + key + ":" + gap + value;
    var head, tail := pad + key, ":" + gap + value;
    assert ':' !in head by {
      forall i | 0 <= i < |head|
        ensures head[i] != ':'
      {
        if i < |pad| {
          assert head[i] == pad[i];
        } else {
          assert head[i] == key[i - |pad|];
        }
      }
    }
    assert line == head + tail;
    IndexOfAfter(head, tail, ':');
    assert tail[0] == ':';
    assert line[..|head|] == head;
    assert line[|head| + 1..] == tail[1..] == gap + value;
    StripPadded(pad, key);
    StripPadded(gap, value);
  }

  /** A value keeps its own colons: `"  note: a:b"` parses to `("note", "a:b")`. */
  lemma ValueKeepsColons()
    ensures LinePair("  note: a:b") == Some(("note", "a:b"))
  {
    assert "  note: a:b" == "  " + "note" + ":" + " " + "a:b";
    LinePairOfPadded("  ", "note", " ", "a:b");
  }
}
