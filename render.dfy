/**
 * The stat-text renderer: `format_player_stats` and `format_team_stats`
 * (src/utils.py and fantasy-baseball-cli/src/utils.py).
 *
 * A player's text is a title line `"{fullName} ({position})"`, an empty line,
 * then for each stat group a `"{Type} {Group}"` line followed, for each split,
 * by one `"    k: v"` line per scalar item and an empty line; the lines are
 * joined with `"\n"`. A team's text is the same without the title, or
 * `"No stats available."` for an empty list.
 */
module Render {
  import opened Wrappers
  import opened Text
  import opened Stats

  const NoTeamStats: string := "No stats available."

  function TitleLine(p: Person): string {
    p.fullName + " (" + p.position + ")"
  }

  /** `f"{type_name} {group_name}"`, both display names capitalized, a missing one read as `""`. */
  function GroupTitle(g: StatGroup): string {
    Capitalize(g.typeName.GetOr("")) + " " + Capitalize(g.groupName.GetOr(""))
  }

  function StatLine(k: string, v: string): string {
    "    " + k + ": " + v
  }

  /** The line of one stat item: one for a scalar, none for a nested dict. */
  function ItemLines(item: (string, StatValue)): seq<string> {
    match item.1
    case Scalar(v) => [StatLine(item.0, v)]
    case Nested => []
  }

  function MapLines(m: StatMap): seq<string> {
    if m == [] then [] else MapLines(m[..|m| - 1]) + ItemLines(m[|m| - 1])
  }

  /** The lines of a sequence of splits, each split's lines closed by an empty line. */
  function SplitsBlock(ss: seq<Split>): seq<string> {
    if ss == [] then [] else SplitsBlock(ss[..|ss| - 1]) + MapLines(StatOf(ss[|ss| - 1])) + [""]
  }

  function GroupLines(g: StatGroup): seq<string> {
    [GroupTitle(g)] + SplitsBlock(SplitsOf(g))
  }

  function GroupsBlock(gs: seq<StatGroup>): seq<string> {
    if gs == [] then [] else GroupsBlock(gs[..|gs| - 1]) + GroupLines(gs[|gs| - 1])
  }

  /** Both display names are present; `format_player_stats` indexes them without a default. */
  predicate Named(g: StatGroup) {
    g.typeName.Some? && g.groupName.Some?
  }

  predicate AllNamed(gs: seq<StatGroup>) {
    forall i :: 0 <= i < |gs| ==> Named(gs[i])
  }

  function PlayerLines(p: Person): seq<string> {
    [TitleLine(p), ""] + GroupsBlock(GroupsOf(p))
  }

  /** What `format_player_stats` returns; `None` stands for the `KeyError` of a group without a display name. */
  function PlayerText(p: Person): Option<string> {
    if AllNamed(GroupsOf(p)) then Some(JoinLines(PlayerLines(p))) else None
  }

  /** What `format_team_stats` returns. */
  function TeamText(gs: seq<StatGroup>): string {
    if gs == [] then NoTeamStats else JoinLines(GroupsBlock(gs))
  }

  // ---------------------------------------------------------------------------
  // The formatters, appending to `lines` as the source does
  // ---------------------------------------------------------------------------

  /** The innermost loop: one line per scalar item of a stat dict. */
  method AppendStatLines(lines: seq<string>, stat: StatMap) returns (out: seq<string>)
    ensures out == lines + MapLines(stat)
  {
    out := lines;
    var k := 0;
    while k < |stat|
      invariant 0 <= k <= |stat|
      invariant out == lines + MapLines(stat[..k])
    {
      MapLinesSnoc(stat, k);
      AppendAssoc(lines, MapLines(stat[..k]), ItemLines(stat[k]), []);
      match stat[k].1 {
        case Scalar(v) =>
          out := out + [StatLine(stat[k].0, v)];
        case Nested =>
      }
      k := k + 1;
    }
    assert stat[..k] == stat;
  }

  /** The group body of both formatters: the title line, then each split's lines and an empty line. */
  method AppendGroup(lines: seq<string>, g: StatGroup) returns (out: seq<string>)
    ensures out == lines + GroupLines(g)
  {
    var start := lines + [GroupTitle(g)];
    out := start;
    var splits := SplitsOf(g);
    var j := 0;
    while j < |splits|
      invariant 0 <= j <= |splits|
      invariant out == start + SplitsBlock(splits[..j])
    {
      SplitsBlockSnoc(splits, j);
      AppendAssoc(start, SplitsBlock(splits[..j]), MapLines(StatOf(splits[j])), [""]);
      out := AppendStatLines(out, StatOf(splits[j]));
      out := out + [""];
      j := j + 1;
    }
    assert splits[..j] == splits;
    AppendAssoc(lines, [GroupTitle(g)], SplitsBlock(splits), []);
  }

  method FormatPlayerStats(p: Person) returns (r: Option<string>)
    ensures r == PlayerText(p)
  {
    var lines := AppendNamedGroups([TitleLine(p), ""], GroupsOf(p));
    if lines.None? {
      return None;
    }
    r := Some(JoinLines(lines.value));
  }

  /** The group loop of `format_player_stats`, which stops at the first group without display names. */
  method AppendNamedGroups(head: seq<string>, groups: seq<StatGroup>) returns (r: Option<seq<string>>)
    ensures r.Some? <==> AllNamed(groups)
    ensures r.Some? ==> r.value == head + GroupsBlock(groups)
  {
    var lines := head;
    var i := 0;
    while i < |groups|
      invariant 0 <= i <= |groups|
      invariant lines == head + GroupsBlock(groups[..i])
      invariant AllNamed(groups[..i])
    {
      if !Named(groups[i]) {
        return None;
      }
      NamedSnoc(groups, i);
      GroupsBlockSnoc(groups, i);
      AppendAssoc(head, GroupsBlock(groups[..i]), GroupLines(groups[i]), []);
      lines := AppendGroup(lines, groups[i]);
      i := i + 1;
    }
    assert groups[..i] == groups;
    r := Some(lines);
  }

  lemma NamedSnoc(gs: seq<StatGroup>, i: nat)
    requires i < |gs| && AllNamed(gs[..i]) && Named(gs[i])
    ensures AllNamed(gs[..i + 1])
  {
    assert forall k :: 0 <= k < i ==> gs[..i + 1][k] == gs[..i][k];
  }

  lemma AppendAssoc<T>(a: seq<T>, b: seq<T>, c: seq<T>, d: seq<T>)
    ensures a + b + c + d == a + (b + c + d)
  {
  }

  lemma MapLinesSnoc(m: StatMap, k: nat)
    requires k < |m|
    ensures MapLines(m[..k + 1]) == MapLines(m[..k]) + ItemLines(m[k])
  {
    assert m[..k + 1][..k] == m[..k];
  }

  lemma SplitsBlockSnoc(ss: seq<Split>, j: nat)
    requires j < |ss|
    ensures SplitsBlock(ss[..j + 1]) == SplitsBlock(ss[..j]) + MapLines(StatOf(ss[j])) + [""]
  {
    assert ss[..j + 1][..j] == ss[..j];
  }

  lemma GroupsBlockSnoc(gs: seq<StatGroup>, i: nat)
    requires i < |gs|
    ensures GroupsBlock(gs[..i + 1]) == GroupsBlock(gs[..i]) + GroupLines(gs[i])
  {
    assert gs[..i + 1][..i] == gs[..i];
  }

  method FormatTeamStats(stats: seq<StatGroup>) returns (r: string)
    ensures r == TeamText(stats)
  {
    if stats == [] {
      return NoTeamStats;
    }
    var lines := [];
    var i := 0;
    while i < |stats|
      invariant 0 <= i <= |stats|
      invariant lines == GroupsBlock(stats[..i])
    {
      GroupsBlockSnoc(stats, i);
      lines := AppendGroup(lines, stats[i]);
      i := i + 1;
    }
    assert stats[..i] == stats;
    r := JoinLines(lines);
  }

  // ---------------------------------------------------------------------------
  // Properties of the rendered text
  // ---------------------------------------------------------------------------

  /** Each scalar item becomes exactly one `"    k: v"` line, in item order; nested items none. */
  lemma {:induction false} MapLinesAreScalarEntries(m: StatMap)
    ensures |MapLines(m)| == |ScalarEntries(m)|
    ensures forall i :: 0 <= i < |MapLines(m)| ==>
      MapLines(m)[i] == StatLine(ScalarEntries(m)[i].0, ScalarEntries(m)[i].1)
  {
    if m != [] {
      MapLinesAreScalarEntries(m[..|m| - 1]);
    }
  }

  /** Number of splits over all groups. */
  function SplitCount(gs: seq<StatGroup>): nat {
    if gs == [] then 0 else SplitCount(gs[..|gs| - 1]) + |SplitsOf(gs[|gs| - 1])|
  }

  lemma {:induction false} SplitsBlockLength(ss: seq<Split>)
    ensures |SplitsBlock(ss)| == |SplitsEntries(ss)| + |ss|
  {
    if ss != [] {
      SplitsBlockLength(ss[..|ss| - 1]);
      MapLinesAreScalarEntries(StatOf(ss[|ss| - 1]));
    }
  }

  /**
   * One title line per group, one empty line per split (not per group) and one
   * line per scalar item: nothing else is emitted.
   */
  lemma {:induction false} GroupsBlockLength(gs: seq<StatGroup>)
    ensures |GroupsBlock(gs)| == |gs| + SplitCount(gs) + |GroupsEntries(gs)|
  {
    if gs != [] {
      GroupsBlockLength(gs[..|gs| - 1]);
      SplitsBlockLength(SplitsOf(gs[|gs| - 1]));
    }
  }

  /** Each split's block ends with an empty line. */
  lemma SplitsBlockEndsBlank(ss: seq<Split>)
    requires ss != []
    ensures SplitsBlock(ss)[|SplitsBlock(ss)| - 1] == ""
  {
  }

  /** A player's text opens with the title line, then the empty line. */
  lemma PlayerTextOpening(p: Person)
    requires AllNamed(GroupsOf(p))
    ensures PlayerText(p).Some?
    ensures PlayerText(p).value[..|TitleLine(p)| + 1] == TitleLine(p) + "\n"
  {
    var lines := PlayerLines(p);
    assert lines[1..][0] == "";
    assert JoinLines(lines) == TitleLine(p) + "\n" + JoinLines(lines[1..]);
  }

  lemma GroupsBlockNonEmpty(gs: seq<StatGroup>)
    requires gs != []
    ensures |GroupsBlock(gs)| > 0
  {
  }

  /**
   * The team text of a non-empty group list is the player text without its
   * title line and the empty line after it.
   */
  lemma PlayerTextIsTitledTeamText(p: Person)
    requires AllNamed(GroupsOf(p)) && GroupsOf(p) != []
    ensures PlayerText(p) == Some(TitleLine(p) + "\n" + "\n" + TeamText(GroupsOf(p)))
  {
    var block := GroupsBlock(GroupsOf(p));
    GroupsBlockNonEmpty(GroupsOf(p));
    var lines := PlayerLines(p);
    var tail := [""] + block;
    assert lines[1..] == tail;
    assert tail[1..] == block;
    assert JoinLines(tail) == "\n" + JoinLines(block);
    assert JoinLines(lines) == TitleLine(p) + "\n" + JoinLines(tail);
    assert TeamText(GroupsOf(p)) == JoinLines(block);
    assert PlayerText(p) == Some(JoinLines(lines));
    assert TitleLine(p) + "\n" + ("\n" + JoinLines(block)) == TitleLine(p) + "\n" + "\n" + JoinLines(block);
  }

  lemma EmptyTeamText()
    ensures TeamText([]) == "No stats available."
  {
  }
}
