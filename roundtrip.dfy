/**
 * Parsing the renderer's output: `parse_stats(format_player_stats(p))` and
 * `parse_stats(format_team_stats(gs))` give back the flattened scalar stats,
 * provided no name, key or value carries a character the line format cannot
 * hold (a colon in a title or key, a line boundary anywhere, whitespace around
 * a key or value).
 */
module RoundTrip {
  import opened Wrappers
  import opened Text
  import opened Stats
  import opened Render
  import opened Parse

  /** Text that can sit in a title line without being read as a stat. */
  predicate Plain(s: string) {
    ':' !in s && NoLineBreak(s)
  }

  /** A scalar item whose `"    k: v"` line reads back as `(k, v)`. */
  predicate SafeItem(item: (string, StatValue)) {
    item.1.Scalar? ==> Plain(item.0) && Trimmed(item.0) && NoLineBreak(item.1.text) && Trimmed(item.1.text)
  }

  predicate SafeStat(m: StatMap) {
    forall i :: 0 <= i < |m| ==> SafeItem(m[i])
  }

  predicate SafeSplits(ss: seq<Split>) {
    forall j :: 0 <= j < |ss| ==> SafeStat(StatOf(ss[j]))
  }

  predicate SafeGroup(g: StatGroup) {
    Plain(g.typeName.GetOr("")) && Plain(g.groupName.GetOr("")) && SafeSplits(SplitsOf(g))
  }

  predicate SafeGroups(gs: seq<StatGroup>) {
    forall i :: 0 <= i < |gs| ==> SafeGroup(gs[i])
  }

  predicate SafePerson(p: Person) {
    Plain(p.fullName) && Plain(p.position) && SafeGroups(GroupsOf(p))
  }

  predicate Unbroken(lines: seq<string>) {
    forall i :: 0 <= i < |lines| ==> NoLineBreak(lines[i])
  }

  // ---------------------------------------------------------------------------
  // Line-level facts
  // ---------------------------------------------------------------------------

  lemma NoLineBreakConcat(a: string, b: string)
    requires NoLineBreak(a) && NoLineBreak(b)
    ensures NoLineBreak(a + b)
  {
    assert forall i :: |a| <= i < |a + b| ==> (a + b)[i] == b[i - |a|];
  }

  lemma PlainConcat(a: string, b: string)
    requires Plain(a) && Plain(b)
    ensures Plain(a + b)
  {
    NoLineBreakConcat(a, b);
  }

  lemma UnbrokenAppend(a: seq<string>, b: seq<string>)
    requires Unbroken(a) && Unbroken(b)
    ensures Unbroken(a + b)
  {
    assert forall i :: |a| <= i < |a + b| ==> (a + b)[i] == b[i - |a|];
  }

  /** A line without a colon contributes nothing to the parsed dict. */
  lemma PlainLineNoPair(line: string)
    requires Plain(line)
    ensures LinePairs([line]) == []
  {
    IndexOfSpec(line, ':');
    assert [line][..0] == [];
  }

  /** Capitalizing keeps a text plain: case mapping only turns letters into letters. */
  lemma CapitalizePlain(s: string)
    requires Plain(s)
    ensures Plain(Capitalize(s))
  {
    var r := Capitalize(s);
    forall i | 0 <= i < |r|
      ensures r[i] != ':' && !IsLineBoundary(r[i])
    {
      CapitalizeKeepsNonLetters(s, i);
    }
  }

  lemma GroupTitlePlain(g: StatGroup)
    requires SafeGroup(g)
    ensures Plain(GroupTitle(g))
  {
    CapitalizePlain(g.typeName.GetOr(""));
    CapitalizePlain(g.groupName.GetOr(""));
    PlainConcat(Capitalize(g.typeName.GetOr("")), " ");
    PlainConcat(Capitalize(g.typeName.GetOr("")) + " ", Capitalize(g.groupName.GetOr("")));
  }

  lemma TitleLinePlain(p: Person)
    requires SafePerson(p)
    ensures Plain(TitleLine(p))
  {
    PlainConcat(p.fullName, " (");
    PlainConcat(p.fullName + " (", p.position);
    PlainConcat(p.fullName + " (" + p.position, ")");
  }

  /** A stat line `"    k: v"` reads back as `(k, v)`. */
  lemma StatLineParses(k: string, v: string)
    requires Plain(k) && Trimmed(k) && NoLineBreak(v) && Trimmed(v)
    ensures LinePairs([StatLine(k, v)]) == [(k, v)]
    ensures NoLineBreak(StatLine(k, v))
  {
    StatLinePair(k, v);
    assert [StatLine(k, v)][..0] == [];
    StatLineUnbroken(k, v);
  }

  lemma StatLinePair(k: string, v: string)
    requires Plain(k) && Trimmed(k) && Trimmed(v)
    ensures LinePair(StatLine(k, v)) == Some((k, v))
  {
    assert StatLine(k, v) == "    " + k + ":" + " " + v;
    LinePairOfPadded("    ", k, " ", v);
  }

  lemma StatLineUnbroken(k: string, v: string)
    requires NoLineBreak(k) && NoLineBreak(v)
    ensures NoLineBreak(StatLine(k, v))
  {
    NoLineBreakConcat("    ", k);
    NoLineBreakConcat("    " + k, ": ");
    NoLineBreakConcat("    " + k + ": ", v);
  }

  // ---------------------------------------------------------------------------
  // Block-level facts
  // ---------------------------------------------------------------------------

  lemma {:induction false} MapLinesParse(m: StatMap)
    requires SafeStat(m)
    ensures LinePairs(MapLines(m)) == ScalarEntries(m)
    ensures Unbroken(MapLines(m))
  {
    if m != [] {
      var prev, last := m[..|m| - 1], m[|m| - 1];
      assert forall i :: 0 <= i < |prev| ==> prev[i] == m[i];
      MapLinesParse(prev);
      LinePairsAppend(MapLines(prev), ItemLines(last));
      match last.1 {
        case Scalar(v) =>
          assert SafeItem(m[|m| - 1]);
          StatLineParses(last.0, v);
        case Nested =>
      }
      UnbrokenAppend(MapLines(prev), ItemLines(last));
    }
  }

  lemma {:induction false} SplitsBlockParse(ss: seq<Split>)
    requires SafeSplits(ss)
    ensures LinePairs(SplitsBlock(ss)) == SplitsEntries(ss)
    ensures Unbroken(SplitsBlock(ss))
  {
    if ss != [] {
      var prev, stat := ss[..|ss| - 1], StatOf(ss[|ss| - 1]);
      assert forall j :: 0 <= j < |prev| ==> prev[j] == ss[j];
      SplitsBlockParse(prev);
      MapLinesParse(stat);
      PlainLineNoPair("");
      LinePairsAppend(SplitsBlock(prev), MapLines(stat));
      LinePairsAppend(SplitsBlock(prev) + MapLines(stat), [""]);
      UnbrokenAppend(SplitsBlock(prev), MapLines(stat));
      UnbrokenAppend(SplitsBlock(prev) + MapLines(stat), [""]);
    }
  }

  lemma GroupLinesParse(g: StatGroup)
    requires SafeGroup(g)
    ensures LinePairs(GroupLines(g)) == SplitsEntries(SplitsOf(g))
    ensures Unbroken(GroupLines(g))
  {
    GroupTitlePlain(g);
    PlainLineNoPair(GroupTitle(g));
    SplitsBlockParse(SplitsOf(g));
    LinePairsAppend([GroupTitle(g)], SplitsBlock(SplitsOf(g)));
    UnbrokenAppend([GroupTitle(g)], SplitsBlock(SplitsOf(g)));
  }

  /** The stat lines of the rendered groups read back as their scalar items, in order. */
  lemma {:induction false} GroupsBlockParse(gs: seq<StatGroup>)
    requires SafeGroups(gs)
    ensures LinePairs(GroupsBlock(gs)) == GroupsEntries(gs)
    ensures Unbroken(GroupsBlock(gs))
  {
    if gs != [] {
      var prev, g := gs[..|gs| - 1], gs[|gs| - 1];
      assert forall i :: 0 <= i < |prev| ==> prev[i] == gs[i];
      GroupsBlockParse(prev);
      GroupLinesParse(g);
      LinePairsAppend(GroupsBlock(prev), GroupLines(g));
      UnbrokenAppend(GroupsBlock(prev), GroupLines(g));
    }
  }

  /** Parsing joined lines is parsing the lines themselves. */
  lemma JoinedParse(lines: seq<string>)
    requires Unbroken(lines)
    ensures ParsedStats(JoinLines(lines)) == FoldPairs(LinePairs(lines))
  {
    SplitJoin(lines);
    DropTrailingEmptyPairs(lines);
  }

  /** The empty last line `splitlines` drops contributes nothing anyway. */
  lemma DropTrailingEmptyPairs(lines: seq<string>)
    ensures LinePairs(DropTrailingEmpty(lines)) == LinePairs(lines)
  {
    if |lines| > 0 && lines[|lines| - 1] == "" {
      var kept := lines[..|lines| - 1];
      assert DropTrailingEmpty(lines) == kept;
      assert LinePair("") == None;
      assert LinePairs(lines) == LinePairs(kept) + [];
    }
  }

  // ---------------------------------------------------------------------------
  // The round trips
  // ---------------------------------------------------------------------------

  /** The player's lines read back as the scalar items of its groups: the title line and the empty line add nothing. */
  lemma PlayerLinesParse(p: Person)
    requires SafePerson(p)
    ensures LinePairs(PlayerLines(p)) == GroupsEntries(GroupsOf(p))
    ensures Unbroken(PlayerLines(p))
  {
    var gs := GroupsOf(p);
    var head := [TitleLine(p), ""];
    TitleLinePlain(p);
    GroupsBlockParse(gs);
    assert LinePairs(head) == [] by {
      assert head[..1] == [TitleLine(p)];
      PlainLineNoPair(TitleLine(p));
      assert LinePair("") == None;
    }
    LinePairsAppend(head, GroupsBlock(gs));
    UnbrokenAppend(head, GroupsBlock(gs));
  }

  /** `parse_stats(format_player_stats(p))` is the flattened scalar stats of `p`. */
  lemma PlayerRoundTrip(p: Person)
    requires AllNamed(GroupsOf(p)) && SafePerson(p)
    ensures PlayerText(p).Some?
    ensures ParsedStats(PlayerText(p).value) == Flatten(GroupsOf(p))
  {
    PlayerLinesParse(p);
    JoinedParse(PlayerLines(p));
  }

  /** A single line without a colon parses to the empty dict. */
  lemma PlainParsesEmpty(s: string)
    requires Plain(s)
    ensures ParsedStats(s) == map[]
  {
    PlainLineNoPair(s);
    assert JoinLines([s]) == s;
    JoinedParse([s]);
  }

  lemma NoTeamStatsPlain()
    ensures Plain(NoTeamStats)
  {
  }

  /** `parse_stats(format_team_stats(gs))` is the flattened scalar stats of `gs`, the empty list included. */
  lemma TeamRoundTrip(gs: seq<StatGroup>)
    requires SafeGroups(gs)
    ensures ParsedStats(TeamText(gs)) == Flatten(gs)
  {
    if gs == [] {
      NoTeamStatsPlain();
      PlainParsesEmpty(NoTeamStats);
    } else {
      GroupsBlockParse(gs);
      JoinedParse(GroupsBlock(gs));
    }
  }
}
