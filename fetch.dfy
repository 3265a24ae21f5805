/**
 * The steps around the statistics service: picking the first person of a
 * people response (`lookup_player_id`, `lookup_player_name`,
 * `fetch_player_stats`), the status check (`handle_api_error`), the team-name
 * search (`lookup_team_id`), the team-stats request (`fetch_team_stats`, in
 * both copies) and the split collection of `get_player_fantasy_points`.
 *
 * Each HTTP response is an input: its status code and the decoded body.
 */
module Fetch {
  import opened Wrappers
  import opened Text
  import opened Stats
  import opened Render
  import opened Scoring

  // ---------------------------------------------------------------------------
  // People responses
  // ---------------------------------------------------------------------------

  /** `data["people"][0]` when `"people" in data and data["people"]`. */
  function FirstPerson(people: Option<seq<Person>>): (r: Option<Person>)
    ensures r.Some? <==> people.Some? && |people.value| > 0
    ensures r.Some? ==> r.value == people.value[0]
  {
    if people.Some? && |people.value| > 0 then Some(people.value[0]) else None
  }

  /** `lookup_player_id`: the id of the first person found, if any; the status is not consulted. */
  function LookupPlayerId(people: Option<seq<Person>>): (r: Option<int>)
    ensures r.Some? <==> people.Some? && |people.value| > 0
    ensures r.Some? ==> r.value == people.value[0].id
  {
    match FirstPerson(people)
    case Some(p) => Some(p.id)
    case None => None
  }

  /** `lookup_player_name`: the full name of the first person found, if any. */
  function LookupPlayerName(people: Option<seq<Person>>): (r: Option<string>)
    ensures r.Some? <==> people.Some? && |people.value| > 0
    ensures r.Some? ==> r.value == people.value[0].fullName
  {
    match FirstPerson(people)
    case Some(p) => Some(p.fullName)
    case None => None
  }

  /** `handle_api_error`: whether the response can be used. */
  function HandleApiError(status: int): (ok: bool)
    ensures ok <==> status == 200
  {
    status == 200
  }

  /**
   * `fetch_player_stats`: `None` on a status other than 200, on a response
   * without people, and when formatting raises; otherwise the formatted stats
   * of the first person. The season only shapes the request, so both branches
   * of the source compute the same thing from their response.
   */
  function FetchPlayerStats(status: int, people: Option<seq<Person>>): (r: Option<string>)
    ensures r.Some? <==> HandleApiError(status) && FirstPerson(people).Some? && PlayerText(FirstPerson(people).value).Some?
    ensures r.Some? ==> r == PlayerText(people.value[0])
  {
    if !HandleApiError(status) then None
    else
      match FirstPerson(people)
      case None => None
      case Some(p) => PlayerText(p)
  }

  // ---------------------------------------------------------------------------
  // Team search
  // ---------------------------------------------------------------------------

  /** One entry of the `teams` list: `id`, `name`, and the optional `teamName` and `locationName`. */
  datatype Team = Team(id: int, name: string, teamName: Option<string>, locationName: Option<string>)

  /**
   * The condition of `lookup_team_id`: the lower-cased query equals the
   * lower-cased name, team name or location name, or occurs in the name or
   * team name. A missing team or location name reads as `""`.
   */
  predicate TeamMatches(query: string, t: Team) {
    var q := Lower(query);
    var name, teamName, location := Lower(t.name), Lower(t.teamName.GetOr("")), Lower(t.locationName.GetOr(""));
    q == name || q == teamName || q == location || Contains(name, q) || Contains(teamName, q)
  }

  /** The id of the first team in list order that matches, or `None` when none does. */
  function FirstMatch(query: string, teams: seq<Team>): Option<int> {
    if teams == [] then None
    else if TeamMatches(query, teams[0]) then Some(teams[0].id)
    else FirstMatch(query, teams[1..])
  }

  /** The first match is a matching team with no matching team before it, and `None` means no team matches. */
  lemma {:induction false} FirstMatchSpec(query: string, teams: seq<Team>)
    ensures FirstMatch(query, teams).Some? ==>
      exists i :: 0 <= i < |teams| && TeamMatches(query, teams[i]) && FirstMatch(query, teams).value == teams[i].id
        && forall j :: 0 <= j < i ==> !TeamMatches(query, teams[j])
    ensures FirstMatch(query, teams).None? <==> forall i :: 0 <= i < |teams| ==> !TeamMatches(query, teams[i])
  {
    if teams != [] && !TeamMatches(query, teams[0]) {
      var rest := teams[1..];
      FirstMatchSpec(query, rest);
      assert forall i :: 0 <= i < |rest| ==> rest[i] == teams[i + 1];
      if FirstMatch(query, rest).Some? {
        var i :| 0 <= i < |rest| && TeamMatches(query, rest[i]) && FirstMatch(query, rest).value == rest[i].id
          && forall j :: 0 <= j < i ==> !TeamMatches(query, rest[j]);
        assert TeamMatches(query, teams[i + 1]);
        assert forall j :: 0 <= j < i + 1 ==> !TeamMatches(query, teams[j]) by {
          forall j | 0 <= j < i + 1
            ensures !TeamMatches(query, teams[j])
          {
            if j > 0 {
              assert teams[j] == rest[j - 1];
            }
          }
        }
      } else {
        forall i | 0 <= i < |teams|
          ensures !TeamMatches(query, teams[i])
        {
          if i > 0 {
            assert teams[i] == rest[i - 1];
          }
        }
      }
    }
  }

  /** What the search gives for a teams response: nothing on a bad status, otherwise the first match. */
  function TeamSearch(query: string, status: int, teams: Option<seq<Team>>): Option<int> {
    if status == 200 then FirstMatch(query, teams.GetOr([])) else None
  }

  /**
   * `lookup_team_id` given the teams response: `None` on a status other than
   * 200; otherwise the id of the first matching team, or `None` if none matches.
   */
  method LookupTeamId(query: string, status: int, teams: Option<seq<Team>>) returns (r: Option<int>)
    ensures r == TeamSearch(query, status, teams)
    ensures status != 200 ==> r.None?
    ensures status == 200 && r.Some? ==>
      exists i :: 0 <= i < |teams.GetOr([])| && TeamMatches(query, teams.GetOr([])[i]) && r.value == teams.GetOr([])[i].id
        && forall j :: 0 <= j < i ==> !TeamMatches(query, teams.GetOr([])[j])
    ensures status == 200 && r.None? ==> forall i :: 0 <= i < |teams.GetOr([])| ==> !TeamMatches(query, teams.GetOr([])[i])
  {
    if status != 200 {
      return None;
    }
    var ts := teams.GetOr([]);
    FirstMatchSpec(query, ts);
    var i := 0;
    while i < |ts|
      invariant 0 <= i <= |ts|
      invariant FirstMatch(query, ts[i..]) == FirstMatch(query, ts)
    {
      assert ts[i..][1..] == ts[i + 1..];
      if TeamMatches(query, ts[i]) {
        return Some(ts[i].id);
      }
      i := i + 1;
    }
    return None;
  }

  /** `"" in s` holds for every string. */
  lemma ContainsEmpty(s: string)
    ensures Contains(s, "")
  {
  }

  /** `"" in s` always holds, so the empty query matches every team, and the search returns the first one. */
  lemma EmptyQueryMatches(t: Team)
    ensures TeamMatches("", t)
  {
    ContainsEmpty(Lower(t.name));
  }

  /** A non-empty string whose first character does not occur in `s` does not occur in `s`. */
  lemma {:induction false} NotContainedWithoutFirst(s: string, t: string)
    requires t != [] && t[0] !in s
    ensures !Contains(s, t)
    decreases |s|
  {
    if s != [] {
      assert s[0] != t[0];
      NotContainedWithoutFirst(s[1..], t);
    }
  }

  /** A substring of the location name alone does not match; the whole location name does. */
  lemma LocationSubstringExample()
    ensures !TeamMatches("mento", Team(133, "Athletics", Some("Athletics"), Some("Sacramento")))
    ensures TeamMatches("Sacramento", Team(133, "Athletics", Some("Athletics"), Some("Sacramento")))
  {
    var athletics := "Athletics";
    var q, name := Lower("mento"), Lower(athletics);
    assert |q| == 5 && |name| == 9 && |Lower("Sacramento")| == 10;
    assert q[0] == 'm';
    forall i | 0 <= i < |name|
      ensures name[i] != 'm'
    {
      assert athletics[i] != 'm' && athletics[i] != 'M';
    }
    NotContainedWithoutFirst(name, q);
  }

  /**
   * The match ignores the query's letter case: queries that agree once
   * lower-cased match the same teams, and so do a query and its lower-cased form.
   */
  lemma QueryCaseIgnored(q1: string, q2: string, t: Team)
    requires Lower(q1) == Lower(q2)
    ensures TeamMatches(q1, t) <==> TeamMatches(q2, t)
    ensures TeamMatches(Lower(q1), t) <==> TeamMatches(q1, t)
  {
    LowerIdempotent(q1);
  }

  /** The search ignores the query's letter case too: queries that agree once lower-cased find the same team. */
  lemma {:induction false} SearchIgnoresCase(q1: string, q2: string, teams: seq<Team>)
    requires Lower(q1) == Lower(q2)
    ensures FirstMatch(q1, teams) == FirstMatch(q2, teams)
  {
    if teams != [] {
      QueryCaseIgnored(q1, q2, teams[0]);
      SearchIgnoresCase(q1, q2, teams[1..]);
    }
  }

  // ---------------------------------------------------------------------------
  // Team stats
  // ---------------------------------------------------------------------------

  /** The query of the team-stats request: `stats`, `group` and `season`. */
  datatype StatsQuery = StatsQuery(teamId: int, statsType: string, group: string, season: string)

  /** Python truthiness of an optional string: present and non-empty. */
  predicate Truthy(s: Option<string>) {
    s.Some? && s.value != ""
  }

  /** `season or '2025'`, and `if not season: season = "2025"`: the given season, or `"2025"` when it is falsy. */
  function SeasonOrDefault(season: Option<string>): (s: string)
    ensures Truthy(season) ==> s == season.value
    ensures !Truthy(season) ==> s == "2025"
  {
    if Truthy(season) then season.value else "2025"
  }

  /** What `fetch_team_stats` in `src/utils.py` leaves behind. */
  datatype TeamStatsOutcome =
    | TeamNotFound(message: string)       // the string returned when the search finds nothing or id 0
    | TeamApiError(status: int)           // the `"API Error: ..."` string returned on a bad status
    | TeamPrinted(query: StatsQuery, text: string)  // the formatted text printed; the call returns `None`

  /** The default `group` argument of `fetch_team_stats` in `src/utils.py`. */
  const SrcDefaultGroup: string := "hitting,pitching,fielding"

  /** The default `group` argument of `fetch_team_stats` in `fantasy-baseball-cli/src/test_team_lookup.py`. */
  const CliDefaultGroup: string := "hitting,pitching"

  /** A search result `lookup_team_id` reports as found: Python treats id `0` like `None`. */
  predicate Found(id: Option<int>) {
    id.Some? && id.value != 0
  }

  /**
   * `fetch_team_stats` of `src/utils.py`, given both responses, with the
   * source's defaults for `season`, `group` and `stats_type`.
   */
  method FetchTeamStats(teamName: string, teamsStatus: int, teams: Option<seq<Team>>,
                        statsStatus: int, stats: Option<seq<StatGroup>>,
                        season: Option<string> := None, group: string := SrcDefaultGroup, statsType: string := "season")
    returns (r: TeamStatsOutcome)
    ensures r.TeamNotFound? <==> !Found(TeamSearch(teamName, teamsStatus, teams))
    ensures r.TeamNotFound? ==> r.message == "Team '" + teamName + "' not found."
    ensures r.TeamApiError? <==> Found(TeamSearch(teamName, teamsStatus, teams)) && statsStatus != 200
    ensures r.TeamApiError? ==> r.status == statsStatus
    ensures r.TeamPrinted? <==> Found(TeamSearch(teamName, teamsStatus, teams)) && statsStatus == 200
    ensures r.TeamPrinted? ==>
      r.query == StatsQuery(TeamSearch(teamName, teamsStatus, teams).value, statsType, group, SeasonOrDefault(season))
      && r.text == TeamText(stats.GetOr([]))
  {
    var seasonUsed := SeasonOrDefault(season);
    var teamId := LookupTeamId(teamName, teamsStatus, teams);
    if teamId.None? || teamId.value == 0 {
      return TeamNotFound("Team '" + teamName + "' not found.");
    }
    var query := StatsQuery(teamId.value, statsType, group, seasonUsed);
    if statsStatus != 200 {
      return TeamApiError(statsStatus);
    }
    var text := FormatTeamStats(stats.GetOr([]));
    return TeamPrinted(query, text);
  }

  /**
   * The `--team` command of `src/cli.py`: `fetch_team_stats(team, season=season)`,
   * so the request asks for season stats of all three groups.
   */
  method TeamCommand(teamName: string, season: Option<string>, teamsStatus: int, teams: Option<seq<Team>>,
                     statsStatus: int, stats: Option<seq<StatGroup>>) returns (r: TeamStatsOutcome)
    ensures r.TeamPrinted? <==> Found(TeamSearch(teamName, teamsStatus, teams)) && statsStatus == 200
    ensures r.TeamPrinted? ==>
      r.query.group == "hitting,pitching,fielding" && r.query.statsType == "season" && r.query.season == SeasonOrDefault(season)
  {
    r := FetchTeamStats(teamName, teamsStatus, teams, statsStatus, stats, season := season);
  }

  /**
   * `fetch_team_stats` of `fantasy-baseball-cli/src/test_team_lookup.py`:
   * `None` when no team is found or the stats status is not 200, otherwise
   * the request it made and the raw `stats` list (empty when missing).
   */
  method FetchTeamStatsList(teamName: string, teamsStatus: int, teams: Option<seq<Team>>,
                            statsStatus: int, stats: Option<seq<StatGroup>>,
                            season: Option<string> := None, group: string := CliDefaultGroup, statsType: string := "season")
    returns (r: Option<(StatsQuery, seq<StatGroup>)>)
    ensures r.Some? <==> Found(TeamSearch(teamName, teamsStatus, teams)) && statsStatus == 200
    ensures r.Some? ==>
      r.value.0 == StatsQuery(TeamSearch(teamName, teamsStatus, teams).value, statsType, group, SeasonOrDefault(season))
      && r.value.1 == stats.GetOr([])
  {
    var seasonUsed := SeasonOrDefault(season);
    var teamId := LookupTeamId(teamName, teamsStatus, teams);
    if teamId.None? || teamId.value == 0 {
      return None;
    }
    var query := StatsQuery(teamId.value, statsType, group, seasonUsed);
    if statsStatus != 200 {
      return None;
    }
    return Some((query, stats.GetOr([])));
  }

  /**
   * The module-level call `fetch_team_stats("San Francisco Giants")` at the end
   * of `test_team_lookup.py`: every argument but the team name takes its default.
   */
  method GiantsStats(teamsStatus: int, teams: Option<seq<Team>>, statsStatus: int, stats: Option<seq<StatGroup>>)
    returns (r: Option<(StatsQuery, seq<StatGroup>)>)
    ensures r.Some? <==> Found(TeamSearch("San Francisco Giants", teamsStatus, teams)) && statsStatus == 200
    ensures r.Some? ==> r.value.0.group == "hitting,pitching" && r.value.0.statsType == "season" && r.value.0.season == "2025"
  {
    r := FetchTeamStatsList("San Francisco Giants", teamsStatus, teams, statsStatus, stats);
  }

  // ---------------------------------------------------------------------------
  // Fantasy points of a player
  // ---------------------------------------------------------------------------

  /** The `stat` dict of every split, in split order. */
  function SplitStats(ss: seq<Split>): (r: seq<StatMap>)
    ensures |r| == |ss|
    ensures forall i :: 0 <= i < |ss| ==> r[i] == StatOf(ss[i])
  {
    if ss == [] then [] else SplitStats(ss[..|ss| - 1]) + [StatOf(ss[|ss| - 1])]
  }

  /** The `stat` dict of every split of every group, in group and then split order. */
  function AllSplitStats(gs: seq<StatGroup>): seq<StatMap> {
    if gs == [] then [] else AllSplitStats(gs[..|gs| - 1]) + SplitStats(SplitsOf(gs[|gs| - 1]))
  }

  /** The collection loop of `get_player_fantasy_points`. */
  method CollectStatDicts(groups: seq<StatGroup>) returns (dicts: seq<StatMap>)
    ensures dicts == AllSplitStats(groups)
  {
    dicts := [];
    var i := 0;
    while i < |groups|
      invariant 0 <= i <= |groups|
      invariant dicts == AllSplitStats(groups[..i])
    {
      assert groups[..i + 1][..i] == groups[..i];
      var splits := SplitsOf(groups[i]);
      ghost var before := dicts;
      var j := 0;
      while j < |splits|
        invariant 0 <= j <= |splits|
        invariant dicts == before + SplitStats(splits[..j])
      {
        assert splits[..j + 1][..j] == splits[..j];
        dicts := dicts + [StatOf(splits[j])];
        j := j + 1;
      }
      assert splits[..j] == splits;
      i := i + 1;
    }
    assert groups[..i] == groups;
  }

  /** One dict per split: nothing is dropped or added. */
  lemma {:induction false} AllSplitStatsCount(gs: seq<StatGroup>)
    ensures |AllSplitStats(gs)| == SplitCount(gs)
  {
    if gs != [] {
      AllSplitStatsCount(gs[..|gs| - 1]);
    }
  }

  /** The scalar items of the scored dicts, in order. */
  function DictsEntries(ms: seq<StatMap>): seq<(string, string)> {
    if ms == [] then [] else DictsEntries(ms[..|ms| - 1]) + ScalarEntries(ms[|ms| - 1])
  }

  lemma {:induction false} DictsEntriesAppend(a: seq<StatMap>, b: seq<StatMap>)
    ensures DictsEntries(a + b) == DictsEntries(a) + DictsEntries(b)
  {
    if b == [] {
      assert a + b == a;
    } else {
      var last := |b| - 1;
      assert (a + b)[..|a + b| - 1] == a + b[..last];
      assert (a + b)[|a + b| - 1] == b[last];
      DictsEntriesAppend(a, b[..last]);
    }
  }

  lemma {:induction false} SplitStatsEntries(ss: seq<Split>)
    ensures DictsEntries(SplitStats(ss)) == SplitsEntries(ss)
  {
    if ss != [] {
      var prev := ss[..|ss| - 1];
      SplitStatsEntries(prev);
      DictsEntriesAppend(SplitStats(prev), [StatOf(ss[|ss| - 1])]);
      assert [StatOf(ss[|ss| - 1])][..0] == [];
    }
  }

  /**
   * The dicts the scorer reads hold exactly the scalar stats the formatter
   * prints, in the same order.
   */
  lemma {:induction false} ScoredDictsAreRendered(gs: seq<StatGroup>)
    ensures DictsEntries(AllSplitStats(gs)) == GroupsEntries(gs)
  {
    if gs != [] {
      var prev := gs[..|gs| - 1];
      ScoredDictsAreRendered(prev);
      DictsEntriesAppend(AllSplitStats(prev), SplitStats(SplitsOf(gs[|gs| - 1])));
      SplitStatsEntries(SplitsOf(gs[|gs| - 1]));
    }
  }

  lemma {:induction false} AllSplitStatsAppend(a: seq<StatGroup>, b: seq<StatGroup>)
    ensures AllSplitStats(a + b) == AllSplitStats(a) + AllSplitStats(b)
  {
    if b == [] {
      assert a + b == a;
    } else {
      var ab, init, g := a + b, b[..|b| - 1], b[|b| - 1];
      assert ab[..|ab| - 1] == a + init;
      assert ab[|ab| - 1] == g;
      var tail := SplitStats(SplitsOf(g));
      assert AllSplitStats(ab) == AllSplitStats(a + init) + tail;
      AllSplitStatsAppend(a, init);
      assert AllSplitStats(b) == AllSplitStats(init) + tail;
      assert AllSplitStats(a) + AllSplitStats(init) + tail == AllSplitStats(a) + (AllSplitStats(init) + tail);
    }
  }

  /** A player's points are additive over their stat groups, the first failure winning. */
  lemma GroupScoresAdd(a: seq<StatGroup>, b: seq<StatGroup>)
    ensures TotalScore(AllSplitStats(a)).Ok? && TotalScore(AllSplitStats(b)).Ok? ==>
      TotalScore(AllSplitStats(a + b)).Ok?
      && TotalScore(AllSplitStats(a + b)).value == TotalScore(AllSplitStats(a)).value + TotalScore(AllSplitStats(b)).value
    ensures TotalScore(AllSplitStats(a)).Err? ==> TotalScore(AllSplitStats(a + b)) == TotalScore(AllSplitStats(a))
  {
    AllSplitStatsAppend(a, b);
    TotalScoreAppend(AllSplitStats(a), AllSplitStats(b));
  }

  /** What `get_player_fantasy_points` gives back. */
  datatype PointsOutcome =
    | Points(score: real)             // the score, returned
    | ScoreFailed(error: ScoreError)  // `float()` raised inside the scorer
    | NoPlayerData                    // no people: prints a message and returns `None`
    | PointsApiError(status: int)     // a status other than 200: prints it and returns `None`

  /**
   * `get_player_fantasy_points`, given the response to its request for the
   * season `seasonUsed`: the score of every split's stat dict of the first
   * person.
   */
  method GetPlayerFantasyPoints(season: Option<string>, status: int, people: Option<seq<Person>>)
    returns (r: PointsOutcome, seasonUsed: string)
    ensures seasonUsed == SeasonOrDefault(season)
    ensures status != 200 <==> r.PointsApiError?
    ensures r.PointsApiError? ==> r.status == status
    ensures r.NoPlayerData? <==> status == 200 && FirstPerson(people).None?
    ensures r.Points? ==>
      FirstPerson(people).Some? && TotalScore(AllSplitStats(GroupsOf(people.value[0]))).Ok? &&
      r.score == TotalScore(AllSplitStats(GroupsOf(people.value[0]))).value
    ensures r.ScoreFailed? ==>
      FirstPerson(people).Some? && TotalScore(AllSplitStats(GroupsOf(people.value[0]))) == Err(r.error)
  {
    seasonUsed := SeasonOrDefault(season);
    if status != 200 {
      return PointsApiError(status), seasonUsed;
    }
    var player := FirstPerson(people);
    if player.None? {
      return NoPlayerData, seasonUsed;
    }
    var dicts := CollectStatDicts(GroupsOf(player.value));
    var score := CalculateFantasyScore(DictList(dicts));
    match score {
      case Ok(x) => r := Points(x);
      case Err(e) => r := ScoreFailed(e);
    }
  }
}
