/**
 * The side-by-side table of `compare_players` (`src/commands.py` and
 * `fantasy-baseball-cli/src/commands.py`), once the two stat texts and the two
 * player names have been fetched: a header, a separator, and one row per key
 * of the sorted union of both parsed key sets.
 */
module Compare {
  import opened Wrappers
  import opened Text
  import opened Stats
  import opened Render
  import opened Parse
  import opened Fetch
  import opened RoundTrip

  const NoStatsMessage: string := "Could not retrieve stats for one or both players."

  // ---------------------------------------------------------------------------
  // Sorting the key union
  // ---------------------------------------------------------------------------

  /** Every non-empty set of strings has a least element. */
  lemma {:induction false} LeastExists(K: set<string>)
    requires K != {}
    ensures exists x :: x in K && forall y :: y in K && y != x ==> StrLt(x, y)
    decreases |K|
  {
    var z :| z in K;
    var rest := K - {z};
    if rest == {} {
      forall y | y in K
        ensures y == z
      {
        assert y !in rest;
      }
      assert forall y :: y in K && y != z ==> StrLt(z, y);
    } else {
      LeastExists(rest);
      var m :| m in rest && forall y :: y in rest && y != m ==> StrLt(m, y);
      if StrLt(z, m) {
        forall y | y in K && y != z
          ensures StrLt(z, y)
        {
          if y != m {
            StrLtTransitive(z, m, y);
          }
        }
      } else {
        StrLtTotal(z, m);
        assert forall y :: y in K && y != m ==> StrLt(m, y);
      }
    }
  }

  /** `sorted(K)` for a set of strings: its elements in increasing order. */
  ghost function SortedSet(K: set<string>): (r: seq<string>)
    ensures StrictlySorted(r)
    ensures forall k :: k in r <==> k in K
    decreases K
  {
    if K == {} then []
    else
      LeastExists(K);
      var x :| x in K && forall y :: y in K && y != x ==> StrLt(x, y);
      var rest := SortedSet(K - {x});
      assert forall j :: 0 <= j < |rest| ==> StrLt(x, rest[j]);
      [x] + rest
  }

  /** Two strictly sorted sequences with the same elements are equal: `sorted` has one answer. */
  lemma {:induction false} SortedUnique(a: seq<string>, b: seq<string>)
    requires StrictlySorted(a) && StrictlySorted(b)
    requires forall k :: k in a <==> k in b
    ensures a == b
  {
    if a != [] {
      assert a[0] in a;
    }
    if b != [] {
      assert b[0] in b;
    }
    if a != [] && b != [] {
      if a[0] != b[0] {
        var j :| 0 <= j < |b| && b[j] == a[0];
        var i :| 0 <= i < |a| && a[i] == b[0];
        assert StrLt(b[0], a[0]) && StrLt(a[0], b[0]);
        StrLtAsymmetric(a[0], b[0]);
      }
      forall k
        ensures k in a[1..] <==> k in b[1..]
      {
        SortedTail(a, k);
        SortedTail(b, k);
      }
      SortedUnique(a[1..], b[1..]);
      assert a == [a[0]] + a[1..] && b == [b[0]] + b[1..];
    }
  }

  /** The tail of a strictly sorted sequence holds every element but the head. */
  lemma SortedTail(a: seq<string>, k: string)
    requires StrictlySorted(a) && a != []
    ensures k in a[1..] <==> k in a && k != a[0]
  {
    if k in a[1..] {
      var i :| 0 <= i < |a[1..]| && a[1..][i] == k;
      assert StrLt(a[0], a[i + 1]);
      StrLtIrreflexive(a[0]);
    }
    if k in a && k != a[0] {
      var i :| 0 <= i < |a| && a[i] == k;
      assert a[1..][i - 1] == k;
    }
  }

  /** A strictly sorted sequence has as many entries as the set of its elements. */
  lemma {:induction false} SortedSize(r: seq<string>, K: set<string>)
    requires StrictlySorted(r)
    requires forall k :: k in r <==> k in K
    ensures |r| == |K|
  {
    if r != [] {
      var rest := K - {r[0]};
      forall k
        ensures k in r[1..] <==> k in rest
      {
        SortedTail(r, k);
      }
      SortedSize(r[1..], rest);
    } else {
      assert forall k :: k !in K;
      assert K == {};
    }
  }

  /** `sorted(K)` by insertion, one element at a time. */
  method SortKeys(K: set<string>) returns (keys: seq<string>)
    ensures keys == SortedSet(K)
    ensures |keys| == |K|
  {
    keys := [];
    var rest := K;
    while rest != {}
      invariant rest <= K
      invariant StrictlySorted(keys)
      invariant forall k :: k in keys <==> k in K && k !in rest
      decreases |rest|
    {
      var x :| x in rest;
      InsertSorted(x, keys);
      keys := Insert(x, keys);
      rest := rest - {x};
    }
    SortedUnique(keys, SortedSet(K));
    SortedSize(keys, K);
  }

  // ---------------------------------------------------------------------------
  // The table
  // ---------------------------------------------------------------------------

  /** `f"{name}"`: a missing name prints as `None`. */
  function NameText(name: Option<string>): string {
    match name
    case Some(n) => n
    case None => "None"
  }

  function Header(name1: Option<string>, name2: Option<string>): string {
    PadRight("Stat", 20) + " | " + NameText(name1) + " | " + NameText(name2)
  }

  /** `stats.get(key, "-")` */
  function ValueOr(stats: map<string, string>, key: string): string {
    if key in stats then stats[key] else "-"
  }

  /** `f"{key:<20} | {val1:<{w1}} | {val2:<{w2}}"` */
  function Row(key: string, stats1: map<string, string>, stats2: map<string, string>, w1: nat, w2: nat): string {
    PadRight(key, 20) + " | " + PadRight(ValueOr(stats1, key), w1) + " | " + PadRight(ValueOr(stats2, key), w2)
  }

  function Rows(keys: seq<string>, stats1: map<string, string>, stats2: map<string, string>, w1: nat, w2: nat): (r: seq<string>)
    ensures |r| == |keys|
    ensures forall i :: 0 <= i < |keys| ==> r[i] == Row(keys[i], stats1, stats2, w1, w2)
  {
    seq(|keys|, i requires 0 <= i < |keys| => Row(keys[i], stats1, stats2, w1, w2))
  }

  /** Why the table cannot be built: `len(None)` on a missing name, raised at the first row. */
  datatype CompareError = NameUnavailable

  /** The lines of the table over the given keys: header, separator, rows. */
  function TableLines(keys: seq<string>, stats1: map<string, string>, stats2: map<string, string>,
                      name1: string, name2: string): seq<string> {
    var header := Header(Some(name1), Some(name2));
    [header, Repeat('-', |header|)] + Rows(keys, stats1, stats2, |name1|, |name2|)
  }

  /** The table over the given keys; with no keys a missing name is only printed, never measured. */
  function Table(keys: seq<string>, stats1: map<string, string>, stats2: map<string, string>,
                 name1: Option<string>, name2: Option<string>): Result<string, CompareError> {
    if keys == [] then
      var header := Header(name1, name2);
      Ok(JoinLines([header, Repeat('-', |header|)]))
    else if name1.None? || name2.None? then Err(NameUnavailable)
    else Ok(JoinLines(TableLines(keys, stats1, stats2, name1.value, name2.value)))
  }

  /** What `compare_players` returns once its inputs are fetched. */
  ghost function CompareResult(text1: Option<string>, text2: Option<string>, name1: Option<string>, name2: Option<string>):
    Result<string, CompareError>
  {
    if !Truthy(text1) || !Truthy(text2) then Ok(NoStatsMessage)
    else
      var stats1, stats2 := ParsedStats(text1.value), ParsedStats(text2.value);
      Table(SortedSet(stats1.Keys + stats2.Keys), stats1, stats2, name1, name2)
  }

  /**
   * `compare_players` after its fetches: `text1`/`text2` are what
   * `fetch_player_stats` returned, `name1`/`name2` what `lookup_player_name`
   * returned.
   */
  method ComparePlayers(text1: Option<string>, text2: Option<string>, name1: Option<string>, name2: Option<string>)
    returns (r: Result<string, CompareError>)
    ensures r == CompareResult(text1, text2, name1, name2)
  {
    if !Truthy(text1) || !Truthy(text2) {
      return Ok(NoStatsMessage);
    }
    var stats1 := ParseStats(text1.value);
    var stats2 := ParseStats(text2.value);
    var keys := SortKeys(stats1.Keys + stats2.Keys);
    r := BuildTable(keys, stats1, stats2, name1, name2);
  }

  /** The header, the separator, then the rows, one key at a time; the first row measures the names. */
  method BuildTable(keys: seq<string>, stats1: map<string, string>, stats2: map<string, string>,
                    name1: Option<string>, name2: Option<string>)
    returns (r: Result<string, CompareError>)
    ensures r == Table(keys, stats1, stats2, name1, name2)
  {
    var header := Header(name1, name2);
    var sep := Repeat('-', |header|);
    var rows := [header, sep];
    if keys == [] {
      return Ok(JoinLines(rows));
    }
    if name1.None? || name2.None? {
      return Err(NameUnavailable);
    }
    var n1, n2 := name1.value, name2.value;
    rows := AppendRows(rows, keys, stats1, stats2, |n1|, |n2|);
    r := Ok(JoinLines(rows));
  }

  /** The row loop: one row per key, in key order. */
  method AppendRows(lines: seq<string>, keys: seq<string>, stats1: map<string, string>, stats2: map<string, string>, w1: nat, w2: nat)
    returns (out: seq<string>)
    ensures out == lines + Rows(keys, stats1, stats2, w1, w2)
  {
    out := lines;
    var i := 0;
    while i < |keys|
      invariant 0 <= i <= |keys|
      invariant out == lines + Rows(keys[..i], stats1, stats2, w1, w2)
    {
      RowsSnoc(keys, i, stats1, stats2, w1, w2);
      out := out + [Row(keys[i], stats1, stats2, w1, w2)];
      i := i + 1;
    }
    assert keys[..i] == keys;
  }

  lemma RowsSnoc(keys: seq<string>, i: nat, stats1: map<string, string>, stats2: map<string, string>, w1: nat, w2: nat)
    requires i < |keys|
    ensures Rows(keys[..i + 1], stats1, stats2, w1, w2) == Rows(keys[..i], stats1, stats2, w1, w2) + [Row(keys[i], stats1, stats2, w1, w2)]
  {
    var r1, r0 := Rows(keys[..i + 1], stats1, stats2, w1, w2), Rows(keys[..i], stats1, stats2, w1, w2);
    var r := r0 + [Row(keys[i], stats1, stats2, w1, w2)];
    forall j | 0 <= j < |r1|
      ensures r1[j] == r[j]
    {
      assert keys[..i + 1][j] == keys[j];
      if j < i {
        assert keys[..i][j] == keys[j];
      }
    }
  }

  // ---------------------------------------------------------------------------
  // Properties of the table
  // ---------------------------------------------------------------------------

  /** A falsy stat text gives the fixed message, whatever the names. */
  lemma MissingStatsMessage(text1: Option<string>, text2: Option<string>, name1: Option<string>, name2: Option<string>)
    requires !Truthy(text1) || !Truthy(text2)
    ensures CompareResult(text1, text2, name1, name2) == Ok("Could not retrieve stats for one or both players.")
  {
  }

  /** The table has the header, the separator and one line per key, each key of the union exactly once and in order. */
  lemma TableShape(keys: seq<string>, stats1: map<string, string>, stats2: map<string, string>, name1: string, name2: string)
    requires keys == SortedSet(stats1.Keys + stats2.Keys)
    ensures |TableLines(keys, stats1, stats2, name1, name2)| == 2 + |stats1.Keys + stats2.Keys|
    ensures forall k :: k in keys <==> k in stats1 || k in stats2
    ensures forall i, j :: 0 <= i < j < |keys| ==> StrLt(keys[i], keys[j])
  {
    SortedSize(keys, stats1.Keys + stats2.Keys);
  }

  /** The header starts with `"Stat"` padded to 20, and the separator is as long as the header. */
  lemma HeaderLayout(name1: Option<string>, name2: Option<string>)
    ensures Header(name1, name2)[..20] == "Stat                "
    ensures |Header(name1, name2)| == 26 + |NameText(name1)| + |NameText(name2)|
    ensures |Repeat('-', |Header(name1, name2)|)| == |Header(name1, name2)|
  {
    var p := PadRight("Stat", 20);
    assert |p| == 20;
    assert p == "Stat                ";
    assert Header(name1, name2) == p + (" | " + NameText(name1) + " | " + NameText(name2));
  }

  /**
   * Each row is the key cell, `" | "`, the first value cell, `" | "`, the
   * second value cell; each cell holds its text left-aligned, padded with
   * spaces to the column width and never cut; a key missing from a player's
   * stats shows `"-"`.
   */
  lemma RowLayout(key: string, stats1: map<string, string>, stats2: map<string, string>, w1: nat, w2: nat)
    ensures var c0, c1, c2 := PadRight(key, 20), PadRight(ValueOr(stats1, key), w1), PadRight(ValueOr(stats2, key), w2);
      Row(key, stats1, stats2, w1, w2) == c0 + " | " + c1 + " | " + c2
      && |c0| == Max(20, |key|) && c0[..|key|] == key
      && |c1| == Max(w1, |ValueOr(stats1, key)|) && c1[..|ValueOr(stats1, key)|] == ValueOr(stats1, key)
      && |c2| == Max(w2, |ValueOr(stats2, key)|) && c2[..|ValueOr(stats2, key)|] == ValueOr(stats2, key)
    ensures ValueOr(stats1, key) == (if key in stats1 then stats1[key] else "-")
    ensures key !in stats1 ==> ValueOr(stats1, key) == "-"
  {
  }

  /** A missing name fails the table exactly when there is a row to build. */
  lemma MissingNameFails(keys: seq<string>, stats1: map<string, string>, stats2: map<string, string>,
                         name1: Option<string>, name2: Option<string>)
    requires name1.None? || name2.None?
    ensures Table(keys, stats1, stats2, name1, name2).Err? <==> keys != []
  {
  }

  /**
   * Reading the table back with `splitlines` gives exactly its lines, when
   * no name, key or value holds a line break.
   */
  lemma TableLinesSplit(keys: seq<string>, stats1: map<string, string>, stats2: map<string, string>, name1: string, name2: string)
    requires NoLineBreak(name1) && NoLineBreak(name2)
    requires forall i :: 0 <= i < |keys| ==> NoLineBreak(keys[i])
    requires forall k :: k in stats1 ==> NoLineBreak(stats1[k])
    requires forall k :: k in stats2 ==> NoLineBreak(stats2[k])
    ensures SplitLines(JoinLines(TableLines(keys, stats1, stats2, name1, name2))) == TableLines(keys, stats1, stats2, name1, name2)
  {
    var lines := TableLines(keys, stats1, stats2, name1, name2);
    TableLinesUnbroken(keys, stats1, stats2, name1, name2);
    SplitJoin(lines);
    TableLastLine(keys, stats1, stats2, name1, name2);
  }

  lemma TableLinesUnbroken(keys: seq<string>, stats1: map<string, string>, stats2: map<string, string>, name1: string, name2: string)
    requires NoLineBreak(name1) && NoLineBreak(name2)
    requires forall i :: 0 <= i < |keys| ==> NoLineBreak(keys[i])
    requires forall k :: k in stats1 ==> NoLineBreak(stats1[k])
    requires forall k :: k in stats2 ==> NoLineBreak(stats2[k])
    ensures forall i :: 0 <= i < |TableLines(keys, stats1, stats2, name1, name2)| ==> NoLineBreak(TableLines(keys, stats1, stats2, name1, name2)[i])
  {
    var header := Header(Some(name1), Some(name2));
    var rows := Rows(keys, stats1, stats2, |name1|, |name2|);
    var lines := [header, Repeat('-', |header|)] + rows;
    HeaderUnbroken(name1, name2);
    forall i | 0 <= i < |lines|
      ensures NoLineBreak(lines[i])
    {
      if i >= 2 {
        assert lines[i] == rows[i - 2];
        RowUnbroken(keys[i - 2], stats1, stats2, |name1|, |name2|);
      }
    }
  }

  /** The last line is a row or the separator, never empty. */
  lemma TableLastLine(keys: seq<string>, stats1: map<string, string>, stats2: map<string, string>, name1: string, name2: string)
    ensures TableLines(keys, stats1, stats2, name1, name2)[|TableLines(keys, stats1, stats2, name1, name2)| - 1] != ""
  {
    var lines := TableLines(keys, stats1, stats2, name1, name2);
    if keys == [] {
      HeaderLayout(Some(name1), Some(name2));
      assert |lines[1]| == |Header(Some(name1), Some(name2))|;
    } else {
      var last := keys[|keys| - 1];
      RowLayout(last, stats1, stats2, |name1|, |name2|);
      assert lines[|lines| - 1] == Row(last, stats1, stats2, |name1|, |name2|);
    }
  }

  lemma HeaderUnbroken(name1: string, name2: string)
    requires NoLineBreak(name1) && NoLineBreak(name2)
    ensures NoLineBreak(Header(Some(name1), Some(name2)))
    ensures NoLineBreak(Repeat('-', |Header(Some(name1), Some(name2))|))
  {
    var p := PadRight("Stat", 20);
    assert NoLineBreak(p) by {
      assert p[..4] == "Stat";
      forall i | 0 <= i < |p|
        ensures !IsLineBoundary(p[i])
      {
        if i < 4 {
          assert p[i] == "Stat"[i];
        }
      }
    }
    NoLineBreakConcat(p, " | ");
    NoLineBreakConcat(p + " | ", name1);
    NoLineBreakConcat(p + " | " + name1, " | ");
    NoLineBreakConcat(p + " | " + name1 + " | ", name2);
  }

  lemma PadUnbroken(s: string, w: int)
    requires NoLineBreak(s)
    ensures NoLineBreak(PadRight(s, w))
  {
    var r := PadRight(s, w);
    forall i | 0 <= i < |r|
      ensures !IsLineBoundary(r[i])
    {
      if i < |s| {
        assert r[i] == r[..|s|][i];
      }
    }
  }

  lemma RowUnbroken(key: string, stats1: map<string, string>, stats2: map<string, string>, w1: nat, w2: nat)
    requires NoLineBreak(key)
    requires forall k :: k in stats1 ==> NoLineBreak(stats1[k])
    requires forall k :: k in stats2 ==> NoLineBreak(stats2[k])
    ensures NoLineBreak(Row(key, stats1, stats2, w1, w2))
  {
    var v1, v2 := ValueOr(stats1, key), ValueOr(stats2, key);
    assert NoLineBreak(v1) && NoLineBreak(v2);
    var c0, c1, c2 := PadRight(key, 20), PadRight(v1, w1), PadRight(v2, w2);
    PadUnbroken(key, 20);
    PadUnbroken(v1, w1);
    PadUnbroken(v2, w2);
    NoLineBreakConcat(c0, " | ");
    NoLineBreakConcat(c0 + " | ", c1);
    NoLineBreakConcat(c0 + " | " + c1, " | ");
    NoLineBreakConcat(c0 + " | " + c1 + " | ", c2);
  }

  /**
   * Comparing two fetched players whose stats render safely: the rows are
   * the union of the scalar stat keys of both players, each with the value
   * the player's last stat item of that key holds.
   */
  lemma ComparedStatsAreFetchedStats(status: int, people: Option<seq<Person>>)
    requires FetchPlayerStats(status, people).Some?
    requires SafePerson(people.value[0])
    ensures ParsedStats(FetchPlayerStats(status, people).value) == Flatten(GroupsOf(people.value[0]))
  {
    PlayerRoundTrip(people.value[0]);
  }
}
