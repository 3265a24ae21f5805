/**
 * The stat payload as the upstream statistics service returns it (people,
 * stat groups, splits, stat dicts), and its flattened form: the scalar
 * `(key, value)` items in group, split and item order, folded into a map in
 * which a later item overwrites an earlier one.
 */
module Stats {
  import opened Wrappers

  /** A stat value: a scalar, held as the text `str(v)` gives for it, or a nested dict. */
  datatype StatValue = Scalar(text: string) | Nested

  /**
   * A split's `stat` dict as its items in insertion order. A Python dict has
   * unique keys; the sequence need not, and `Lookup` reads the last item with
   * a key, which is what a dict built from these items would hold.
   */
  type StatMap = seq<(string, StatValue)>

  /** One entry of a group's `splits`; its `stat` dict may be missing. */
  datatype Split = Split(stat: Option<StatMap>)

  /** One entry of `stats`: `type.displayName`, `group.displayName` and `splits`, each possibly missing. */
  datatype StatGroup = StatGroup(typeName: Option<string>, groupName: Option<string>, splits: Option<seq<Split>>)

  /** One entry of a response's `people`: `id`, `fullName`, `primaryPosition.name` and the hydrated `stats`. */
  datatype Person = Person(id: int, fullName: string, position: string, stats: Option<seq<StatGroup>>)

  /** `split.get('stat', {})` */
  function StatOf(s: Split): StatMap {
    s.stat.GetOr([])
  }

  /** `stat_group.get('splits', [])` */
  function SplitsOf(g: StatGroup): seq<Split> {
    g.splits.GetOr([])
  }

  /** `player.get('stats', [])` */
  function GroupsOf(p: Person): seq<StatGroup> {
    p.stats.GetOr([])
  }

  /** `d.get(k)` on a dict given by its items: the value of the last item with key `k`, if any. */
  function Lookup<V>(m: seq<(string, V)>, k: string): Option<V> {
    if m == [] then None
    else if m[|m| - 1].0 == k then Some(m[|m| - 1].1)
    else Lookup(m[..|m| - 1], k)
  }

  /** A key is found exactly when some item has it, and then the value is that of the last such item. */
  lemma {:induction false} LookupSpec<V>(m: seq<(string, V)>, k: string)
    ensures Lookup(m, k).None? <==> forall i :: 0 <= i < |m| ==> m[i].0 != k
    ensures Lookup(m, k).Some? ==>
      exists i :: 0 <= i < |m| && m[i] == (k, Lookup(m, k).value) && forall j :: i < j < |m| ==> m[j].0 != k
  {
    if m != [] && m[|m| - 1].0 != k {
      var prev := m[..|m| - 1];
      LookupSpec(prev, k);
      assert forall i :: 0 <= i < |prev| ==> prev[i] == m[i];
    }
  }

  /** The items of a dict as the service sends it: no key occurs twice. */
  predicate UniqueKeys<V>(m: seq<(string, V)>) {
    forall i, j :: 0 <= i < j < |m| ==> m[i].0 != m[j].0
  }

  /** With unique keys, every item is what its key looks up to. */
  lemma LookupUnique<V>(m: seq<(string, V)>, i: nat)
    requires UniqueKeys(m) && i < |m|
    ensures Lookup(m, m[i].0) == Some(m[i].1)
  {
    LookupSpec(m, m[i].0);
  }

  /** Items whose key is not `k` do not change what `k` looks up to. */
  lemma {:induction false} LookupOther<V>(m: seq<(string, V)>, extra: seq<(string, V)>, k: string)
    requires forall i :: 0 <= i < |extra| ==> extra[i].0 != k
    ensures Lookup(m + extra, k) == Lookup(m, k)
  {
    if extra != [] {
      var last := |extra| - 1;
      assert (m + extra)[..|m + extra| - 1] == m + extra[..last];
      assert (m + extra)[|m + extra| - 1] == extra[last];
      LookupOther(m, extra[..last], k);
    } else {
      assert m + extra == m;
    }
  }

  // ---------------------------------------------------------------------------
  // Flattening
  // ---------------------------------------------------------------------------

  /** The scalar items of a stat dict, in order, with nested values dropped. */
  function ScalarEntries(m: StatMap): (r: seq<(string, string)>)
    ensures |r| <= |m|
    ensures forall e :: e in r <==> (e.0, Scalar(e.1)) in m
  {
    if m == [] then []
    else
      var last := m[|m| - 1];
      var prev := ScalarEntries(m[..|m| - 1]);
      assert m == m[..|m| - 1] + [last];
      match last.1
      case Scalar(v) => prev + [(last.0, v)]
      case Nested => prev
  }

  /** The scalar items of every split, split after split. */
  function SplitsEntries(ss: seq<Split>): seq<(string, string)> {
    if ss == [] then [] else SplitsEntries(ss[..|ss| - 1]) + ScalarEntries(StatOf(ss[|ss| - 1]))
  }

  /** The scalar items of every split of every group, group after group. */
  function GroupsEntries(gs: seq<StatGroup>): seq<(string, string)> {
    if gs == [] then [] else GroupsEntries(gs[..|gs| - 1]) + SplitsEntries(SplitsOf(gs[|gs| - 1]))
  }

  lemma {:induction false} GroupsEntriesAppend(a: seq<StatGroup>, b: seq<StatGroup>)
    ensures GroupsEntries(a + b) == GroupsEntries(a) + GroupsEntries(b)
  {
    if b == [] {
      assert a + b == a;
    } else {
      var ab, init, g := a + b, b[..|b| - 1], b[|b| - 1];
      assert ab[..|ab| - 1] == a + init;
      assert ab[|ab| - 1] == g;
      var tail := SplitsEntries(SplitsOf(g));
      assert GroupsEntries(ab) == GroupsEntries(a + init) + tail;
      GroupsEntriesAppend(a, init);
      assert GroupsEntries(b) == GroupsEntries(init) + tail;
      assert GroupsEntries(a) + GroupsEntries(init) + tail == GroupsEntries(a) + (GroupsEntries(init) + tail);
    }
  }

  /** A dict filled item by item (`d[k] = v`), so a later key overwrites an earlier one. */
  function FoldPairs(ps: seq<(string, string)>): map<string, string> {
    if ps == [] then map[] else FoldPairs(ps[..|ps| - 1])[ps[|ps| - 1].0 := ps[|ps| - 1].1]
  }

  /** The dict holds exactly the keys of the items. */
  lemma {:induction false} FoldPairsKeys(ps: seq<(string, string)>, k: string)
    ensures k in FoldPairs(ps) <==> exists i :: 0 <= i < |ps| && ps[i].0 == k
  {
    if ps != [] {
      var prev := ps[..|ps| - 1];
      FoldPairsKeys(prev, k);
      assert forall i :: 0 <= i < |prev| ==> prev[i] == ps[i];
    }
  }

  /** Last write wins: a key maps to the value of its last item. */
  lemma {:induction false} FoldPairsLastWins(ps: seq<(string, string)>, i: nat)
    requires i < |ps|
    requires forall j :: i < j < |ps| ==> ps[j].0 != ps[i].0
    ensures ps[i].0 in FoldPairs(ps) && FoldPairs(ps)[ps[i].0] == ps[i].1
  {
    if i < |ps| - 1 {
      var prev := ps[..|ps| - 1];
      assert prev[i] == ps[i];
      FoldPairsLastWins(prev, i);
    }
  }

  /** Filling a dict with `a` then `b` is the merge of the two, `b` winning on shared keys. */
  lemma {:induction false} FoldPairsAppend(a: seq<(string, string)>, b: seq<(string, string)>)
    ensures FoldPairs(a + b) == FoldPairs(a) + FoldPairs(b)
  {
    if b == [] {
      assert a + b == a;
    } else {
      var last := |b| - 1;
      assert (a + b)[..|a + b| - 1] == a + b[..last];
      assert (a + b)[|a + b| - 1] == b[last];
      var k, v := b[last].0, b[last].1;
      calc {
        FoldPairs(a + b);
        FoldPairs(a + b[..last])[k := v];
        { FoldPairsAppend(a, b[..last]); }
        (FoldPairs(a) + FoldPairs(b[..last]))[k := v];
        { MergeUpdate(FoldPairs(a), FoldPairs(b[..last]), k, v); }
        FoldPairs(a) + FoldPairs(b[..last])[k := v];
        FoldPairs(a) + FoldPairs(b);
      }
    }
  }

  lemma MergeUpdate(m1: map<string, string>, m2: map<string, string>, k: string, v: string)
    ensures (m1 + m2)[k := v] == m1 + m2[k := v]
  {
  }

  /** The flattened view of a group sequence: every scalar stat, later ones overwriting earlier ones. */
  function Flatten(gs: seq<StatGroup>): map<string, string> {
    FoldPairs(GroupsEntries(gs))
  }

  /** Flattening a concatenation merges the two flattened views, the later groups winning. */
  lemma FlattenAppend(a: seq<StatGroup>, b: seq<StatGroup>)
    ensures Flatten(a + b) == Flatten(a) + Flatten(b)
  {
    GroupsEntriesAppend(a, b);
    FoldPairsAppend(GroupsEntries(a), GroupsEntries(b));
  }
}
