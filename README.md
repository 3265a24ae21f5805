# fantasy-CLI-tool, modelled in Dafny

This project models the data pipeline of a fantasy-baseball command-line tool. The pipeline sits between the statistics service's JSON responses and the text the tool prints:

- **Stat-text renderer.** `format_player_stats` and `format_team_stats` turn a person's stat groups, each split's stat dict and the scalar stat items into lines of text. Module `Render`, over the payload datatypes of `Stats`.
- **Stat-text parser.** `parse_stats` splits each line at its first colon, trims both sides and fills a dict, so a later key overwrites an earlier one. Module `Parse`. Module `RoundTrip` proves that parsing rendered text gives back the flattened scalar stats.
- **Fantasy scorer.** `calculate_fantasy_score` is a fixed weighted sum of fifteen readings per stat dict, summed over a list of dicts. The stat values go through a model of `float()` that can fail. Module `Scoring`.
- **Lookups and fetch wrappers.** Module `Fetch` covers:
  - first-result selection in `lookup_player_id` and `lookup_player_name`, and `handle_api_error`;
  - the team-name matcher of `lookup_team_id`;
  - the season defaults and outcomes of both `fetch_team_stats` functions;
  - `fetch_player_stats`;
  - the split collection and scoring of `get_player_fantasy_points`.

  Every HTTP response is an input: a status code plus the decoded payload.
- **Comparison table.** `compare_players` builds a table from the sorted union of both players' parsed keys, with `"-"` for a missing value and left-aligned padding that never truncates. Module `Compare`.
- **Roster table.** `fantasy_db.py` keeps a table keyed by `(user, player_id)`. Module `FantasyDb` models it as a class over an in-memory relation, with the operations:
  - create-if-missing;
  - insert-or-ignore;
  - delete-by-key;
  - select-by-user.

  Team scoring treats the per-player score as an oracle that can succeed, raise a database error or fail.

The repository ships two near-identical copies of this code, `src/` and `fantasy-baseball-cli/src/`. Each function is modelled once, and the table below cites both copies. The copies differ in two places:

- `fetch_team_stats`: the `src/` version returns texts and prints the formatted team stats, and its group defaults to `"hitting,pitching,fielding"`. The other returns `None` or the raw stats list, and its group defaults to `"hitting,pitching"`. They are `Fetch.FetchTeamStats` and `Fetch.FetchTeamStatsList`. Both keep the source's defaults as default parameter values.
- The CLI copy of `fantasy_db.py` has no team scoring, but has a scripted `__main__` scenario (`FantasyDb.ExampleRun`).

**BB and K cancel.** The comments in the scoring table (src/utils.py:177-178, 185-186) suggest that walks and strikeouts are counted once as batting stats and once as pitching stats. The code does not separate the two. The scoring table gives `pitchingBaseOnBalls` −1 and `pitchingStrikeOuts` +1 (src/utils.py:185-186). The loop applies those weights to the same `baseOnBalls` and `strikeOuts` values the batting weights already read (src/utils.py:213-214). So each of the two stats gets +1 and −1, and they cancel. The model follows the code: `Scoring.StrikeOutsCancelExample` proves that `{"runs":"2","rbi":"1","strikeOuts":"3"}` scores 3.0, not the −3 that a double strikeout penalty would give.

Other modelling choices:

- A stat dict is the sequence of its items in insertion order. A lookup reads the last item with the key, which is what a dict built from those items holds. The service's dicts never repeat a key (`Stats.UniqueKeys`), but the model also accepts dicts that do. For such a dict the renderer emits every item, whereas a lookup sees only the last one. This domain is larger than the source's, and no lemma depends on unique keys except `Stats.LookupUnique`.
- The parsed stats are a `map<string, string>`.
- `float()` is exact decimal arithmetic over `real`: surrounding whitespace, an optional `-` or `+`, then digits with at most one point. Every other text is an error.
- `lower()` and `capitalize()` act on ASCII letters only.
- A stat group without a `group` or `type` display name makes `format_player_stats` raise `KeyError`, so it renders to `None`. `format_team_stats` reads such a name as `""`.
- When a player name is `None`, the header prints `None`. The row loop's `len(None)` then raises. This is modelled as `Err(NameUnavailable)` when there is at least one key.
- Operations on the roster before `init_fantasy_db` fail, because the table does not exist yet. They return `Err(NoSuchTable)`.

## Model

| member | source | states |
|---|---|---|
| `Text.Lower` | src/utils.py:93 | lower-casing keeps the length and lower-cases each ASCII letter in place |
| `Text.LowerIdempotent` | src/utils.py:93 | lower-casing an already lower-cased text changes nothing |
| `Text.LowerAppend` | fantasy-baseball-cli/src/test_team_lookup.py:14 | lower-casing distributes over concatenation |
| `Text.Capitalize` | src/utils.py:31-32 | the first character is upper-cased, every later one lower-cased, and the length is kept |
| `Text.CapitalizeIdempotent` | fantasy-baseball-cli/src/utils.py:31-32 | capitalizing an already capitalized display name changes nothing |
| `Text.LowerOfCapitalize` | src/utils.py:113-114 | capitalizing only changes letter case: lower-cased, the capitalized text is the lower-cased original |
| `Text.StripSpec` | src/utils.py:155 | `strip()` yields a text with no surrounding whitespace, no longer than its input, and empty exactly when the input is all whitespace |
| `Text.StripPadded` | fantasy-baseball-cli/src/utils.py:90 | stripping removes leading spaces and nothing of an already trimmed text |
| `Text.IndexOfSpec` | src/utils.py:154 | the first-occurrence index holds the character, nothing before it does, and it equals the length exactly when the character is absent |
| `Text.SplitJoin` | src/utils.py:150 | `splitlines()` of lines joined with `"\n"` gives them back, minus one trailing empty line, when no line holds a line break |
| `Text.SplitLinesUnbroken` | fantasy-baseball-cli/src/utils.py:85 | no line that `splitlines()` yields contains a line boundary |
| `Text.PadRight` | src/commands.py:31 | `format(s, '<w')` has length max(w, \|s\|), starts with `s` and is padded only with spaces, never truncated |
| `Text.StrLtTransitive` | src/commands.py:22 | the ordering `sorted` uses on strings is transitive |
| `Text.StrLtTotal` | fantasy-baseball-cli/src/commands.py:21 | any two distinct strings are ordered one way or the other |
| `Text.StrLtIrreflexive` | src/commands.py:22 | no string sorts before itself |
| `Text.InsertSorted` | fantasy-baseball-cli/src/commands.py:21 | inserting a new key into a strictly sorted key list keeps it strictly sorted |
| `Text.Insert` | src/commands.py:22 | inserting a key adds exactly that key and lengthens the list by one |
| `Stats.LookupSpec` | src/utils.py:117 | a key is found exactly when some item has it, and then with the value of the last such item |
| `Stats.LookupUnique` | src/utils.py:118 | in a dict without repeated keys, every item's key looks up to that item's value |
| `Stats.ScalarEntries` | src/utils.py:118-120 | the scalar items of a stat dict are exactly its items whose value is not a nested dict, and there are no more of them than items |
| `Stats.FoldPairsKeys` | src/utils.py:155 | the dict filled item by item holds exactly the keys of the items |
| `Stats.FoldPairsLastWins` | fantasy-baseball-cli/src/utils.py:90 | a key maps to the value of its last item |
| `Stats.FoldPairsAppend` | src/utils.py:152-155 | filling with `a` then `b` gives the merge of the two, `b` winning on shared keys |
| `Stats.FlattenAppend` | src/utils.py:30-39 | flattening a concatenation of groups merges the two flattened views, the later groups winning |
| `Stats.GroupsEntriesAppend` | src/utils.py:112-121 | the scalar items of concatenated groups are those of the first part followed by those of the second |
| `Render.AppendStatLines` | src/utils.py:36-39 | the stat loop appends one `"    k: v"` line per scalar item in item order and skips nested values |
| `Render.AppendGroup` | src/utils.py:112-122 | one group appends its `"{Type} {Group}"` title, then each split's stat lines followed by one blank line |
| `Render.AppendNamedGroups` | fantasy-baseball-cli/src/utils.py:30-40 | the group loop of the player formatter succeeds exactly when every group has both display names, and then appends every group's block in order |
| `Render.FormatPlayerStats` | src/utils.py:24-41 | the player formatter returns the title line, an empty line and the group blocks joined with `"\n"`, or nothing when a display name is missing |
| `Render.FormatTeamStats` | src/utils.py:104-123 | the team formatter returns `"No stats available."` for an empty list, otherwise the group blocks joined with `"\n"`, with a missing display name read as `""` |
| `Render.MapLinesAreScalarEntries` | fantasy-baseball-cli/src/utils.py:34-39 | line i of a stat dict's rendering is `"    " + k + ": " + v` for its i-th scalar item, and there are as many lines as scalar items |
| `Render.SplitsBlockLength` | src/utils.py:34-40 | a group's splits render to one line per scalar item plus one blank line per split |
| `Render.GroupsBlockLength` | fantasy-baseball-cli/src/utils.py:30-40 | the group blocks have one title line per group, one blank line per split and one line per scalar item |
| `Render.SplitsBlockEndsBlank` | src/utils.py:40 | the blank line follows every split, so a non-empty split list ends with `""` |
| `Render.PlayerTextOpening` | fantasy-baseball-cli/src/utils.py:26-28 | the player text starts with `"{fullName} ({position})"` and a line break |
| `Render.PlayerTextIsTitledTeamText` | src/utils.py:26-33 | with at least one group, the player text is the title line and an empty line put in front of the team rendering of the same groups |
| `Render.EmptyTeamText` | src/utils.py:108-109 | an empty stats list renders as exactly `"No stats available."` |
| `Parse.ParseStats` | src/utils.py:148-156 | `parse_stats` is the last-write-wins fold of the first-colon pairs of the text's `splitlines()` |
| `Parse.ParseLines` | fantasy-baseball-cli/src/utils.py:85-91 | the line loop fills the dict exactly as the fold of the lines' pairs |
| `Parse.ParseLine` | fantasy-baseball-cli/src/utils.py:88-90 | a line with a colon sets its stripped key to its stripped value, and a line without one changes nothing |
| `Parse.LinePairPresence` | src/utils.py:153 | a line yields a pair exactly when it contains a colon |
| `Parse.LinePairSplitsAtFirstColon` | src/utils.py:154 | the split happens at the first colon: the key part holds no colon and the line is key part, colon, rest |
| `Parse.ParsedKeys` | src/utils.py:152-155 | a key is parsed exactly when some line's pair has it |
| `Parse.ParsedLastWins` | src/utils.py:155 | a duplicate key keeps the value of its last line |
| `Parse.LinePairOfPadded` | src/utils.py:155 | key and value are recovered from a line padded with spaces before the key and after the colon |
| `Parse.ValueKeepsColons` | fantasy-baseball-cli/src/utils.py:89 | only the first colon splits, so a value keeps further colons |
| `Parse.LinePairsAppend` | src/utils.py:152 | the pairs of concatenated lines are the pairs of each part in order |
| `RoundTrip.StatLinePair` | src/utils.py:39 | a rendered stat line parses back to its key and value |
| `RoundTrip.MapLinesParse` | fantasy-baseball-cli/src/utils.py:36-39 | the stat lines of a dict parse back to its scalar items in order |
| `RoundTrip.GroupsBlockParse` | src/utils.py:30-40 | the group blocks parse back to every scalar item in group, split and item order |
| `RoundTrip.PlainParsesEmpty` | src/utils.py:153 | a colon-free, single-line text parses to the empty dict |
| `RoundTrip.PlayerRoundTrip` | fantasy-baseball-cli/src/utils.py:24-41 | when every group has both display names, the name, position, display names and keys hold no colon or line break, keys and values have no surrounding whitespace, and values hold no line break, `parse_stats(format_player_stats(p))` is the last-write-wins fold of all scalar stats in group, split and item order |
| `RoundTrip.TeamRoundTrip` | src/utils.py:104-123 | when display names and keys hold no colon or line break, keys and values have no surrounding whitespace, and values hold no line break, parsing the team rendering gives the flattened stats; the empty list's `"No stats available."` parses to the empty dict |
| `Scoring.UnsignedDigits` | src/utils.py:200 | `float()` of a run of digits is the number they denote |
| `Scoring.ParseIntText` | src/utils.py:201 | `float(str(i))` of an integer is that integer |
| `Scoring.ParseNegative` | src/utils.py:202 | a leading minus negates the unsigned reading and an unreadable rest stays unreadable |
| `Scoring.ParseDecimal` | src/utils.py:207 | `float("w.f")` is w plus f divided by 10 to the length of f |
| `Scoring.ReadingsLookup` | src/utils.py:200-217 | reading every value of a dict and then looking a key up equals looking it up and then reading it |
| `Scoring.WeightTableEntries` | src/utils.py:172-190 | a table built from named weights with distinct names maps each name to its weight and holds no other name |
| `Scoring.TermsFollowTable` | src/utils.py:172-190 | every addition of the loop body uses the weight the scoring table gives its name, and every table name is used |
| `Scoring.TermNamesDistinct` | src/utils.py:199-217 | the fifteen additions use fifteen distinct table names |
| `Scoring.CalculateFantasyScore` | src/utils.py:166-218 | the scorer's loop gives the sum of per-dict scores over the list, or the first `float()` failure |
| `Scoring.OneDictIsList` | src/utils.py:192-195 | a single dict scores as the one-element list holding it |
| `Scoring.EmptyListScoresZero` | src/utils.py:197 | the empty list scores 0 |
| `Scoring.TotalScoreAppend` | src/utils.py:198-218 | scoring is additive over list concatenation, and a failure in either part is the result |
| `Scoring.TotalScoreAbort` | src/utils.py:198 | the first dict whose reading fails decides the error, whatever follows |
| `Scoring.ScoreFromOk` | src/utils.py:199-217 | the additions succeed exactly when every scored key reads as a number, and then give the weighted sum |
| `Scoring.ScoreFromAgree` | src/utils.py:200-217 | two dicts that read alike on every scored key score alike |
| `Scoring.ReadScoreClosedForm` | src/utils.py:199-217 | a readable dict scores runs + totalBases + rbi + stolenBases + 3·inningsPitched − hits − 2·earnedRuns + 2·holds + 2·wins − 2·losses + 2·saves; baseOnBalls and strikeOuts cancel |
| `Scoring.DictScoreOk` | src/utils.py:200 | a dict's score succeeds exactly when every scored key is missing or reads as a number |
| `Scoring.DictScoreIgnoresOtherKeys` | src/utils.py:213-214 | items whose keys are outside the thirteen scored keys do not change the score |
| `Scoring.ScoredKeysAre` | src/utils.py:199-217 | the keys read are the thirteen distinct stat names, `baseOnBalls` and `strikeOuts` being read twice |
| `Scoring.NOfMissing` | src/utils.py:200 | a missing key counts as 0 |
| `Scoring.StrikeOutsCancelExample` | src/utils.py:204 | `{"runs":"2","rbi":"1","strikeOuts":"3"}` scores 3.0 |
| `Fetch.FirstPerson` | src/utils.py:60-61 | the first person is chosen exactly when `people` is present and non-empty |
| `Fetch.LookupPlayerId` | fantasy-baseball-cli/src/utils.py:9-11 | the id of the first person, or None exactly when `people` is missing or empty |
| `Fetch.LookupPlayerName` | fantasy-baseball-cli/src/utils.py:20-22 | the full name of the first person, or None exactly when `people` is missing or empty |
| `Fetch.HandleApiError` | fantasy-baseball-cli/src/utils.py:93-98 | true exactly when the status is 200 |
| `Fetch.FetchPlayerStats` | src/utils.py:43-81 | stats text exactly when the status is 200, a first person exists and it renders; then it is that person's rendering |
| `Fetch.FirstMatchSpec` | fantasy-baseball-cli/src/test_team_lookup.py:15-21 | the first match is the id of a matching team with no matching team before it, and there is none exactly when no team matches |
| `Fetch.LookupTeamId` | fantasy-baseball-cli/src/test_team_lookup.py:3-23 | None on a bad status; otherwise the first match in list order (the id of a matching team with no earlier match), or None exactly when no team matches |
| `Fetch.QueryCaseIgnored` | fantasy-baseball-cli/src/test_team_lookup.py:14-20 | two queries that agree once lower-cased match the same teams, and a query matches as its lower-cased form does |
| `Fetch.SearchIgnoresCase` | src/utils.py:93-100 | two queries that agree once lower-cased find the same team |
| `Fetch.EmptyQueryMatches` | fantasy-baseball-cli/src/test_team_lookup.py:19 | the empty query matches every team, so it selects the first |
| `Fetch.LocationSubstringExample` | src/utils.py:95-99 | a substring of the location name alone does not match, while the whole location name does |
| `Fetch.NotContainedWithoutFirst` | src/utils.py:98 | a query whose first character is absent from a name is not a substring of it |
| `Fetch.SeasonOrDefault` | src/utils.py:131-132 | a missing or empty season becomes `"2025"`, any other is kept |
| `Fetch.FetchTeamStats` | src/utils.py:126-146 | the not-found message exactly when the search fails (bad teams status, no match, or id 0); the API error with its status exactly when a team is found and the stats status is not 200; otherwise it prints the team rendering, after a request for the found team's id, the given group and stats type, and the defaulted season |
| `Fetch.TeamCommand` | src/cli.py:86-87 | the `--team` command prints exactly when a team is found and the stats status is 200, and it then asks for season stats of hitting, pitching and fielding for the defaulted season |
| `Fetch.FetchTeamStatsList` | fantasy-baseball-cli/src/test_team_lookup.py:25-49 | a result exactly when a team is found and the stats status is 200; then it is the request for the found team's id, the given group and stats type and the defaulted season, together with the raw stats list (empty when missing) |
| `Fetch.GiantsStats` | fantasy-baseball-cli/src/test_team_lookup.py:51 | the module-level call relies on the defaults: it asks for season stats of hitting and pitching for 2025, and has a result exactly when the Giants are found and the stats status is 200 |
| `Fetch.SplitStats` | src/commands.py:47-48 | one stat dict per split, a missing one taken as empty |
| `Fetch.CollectStatDicts` | src/commands.py:45-48 | the nested loop collects every split's stat dict in group order, then split order |
| `Fetch.AllSplitStatsCount` | src/commands.py:46-48 | it collects one dict per split of every group |
| `Fetch.ScoredDictsAreRendered` | src/commands.py:45-49 | the scored dicts hold exactly the scalar items the formatter renders, in the same order |
| `Fetch.AllSplitStatsAppend` | src/commands.py:46 | the dicts of concatenated groups are those of each part in order |
| `Fetch.GroupScoresAdd` | src/commands.py:49 | the scores over concatenated groups add, and a failure in the first part decides the result |
| `Fetch.GetPlayerFantasyPoints` | src/commands.py:34-55 | with season used `season or '2025'`: an API error exactly on a non-200 status, no data exactly without people, otherwise the score of the collected dicts or its failure |
| `Compare.SortKeys` | src/commands.py:22 | the sorted key list is the unique strictly sorted list of the key set, one entry per key |
| `Compare.SortedUnique` | fantasy-baseball-cli/src/commands.py:21 | two strictly sorted lists with the same members are equal |
| `Compare.SortedSize` | src/commands.py:22 | a strictly sorted list of a set's members has one entry per member |
| `Compare.AppendRows` | fantasy-baseball-cli/src/commands.py:27-30 | the row loop appends exactly the rows of the keys |
| `Compare.BuildTable` | fantasy-baseball-cli/src/commands.py:24-31 | the header, the separator and the rows appended in key order, joined with `"\n"`; header and separator alone when there are no keys; the missing-name error otherwise |
| `Compare.ComparePlayers` | src/commands.py:4-32 | the sentinel when a text is falsy; otherwise the table over the sorted union of both parsed key sets, as the specification function `CompareResult` gives it |
| `Compare.MissingStatsMessage` | src/commands.py:16-17 | a falsy stats text gives exactly `"Could not retrieve stats for one or both players."` |
| `Compare.TableShape` | src/commands.py:27-32 | the table has 2 + \|keys of both\| lines; its keys are exactly those of either player, strictly sorted |
| `Compare.HeaderLayout` | src/commands.py:25-26 | the header starts with `"Stat"` padded to 20 and has length 26 plus both names; the separator is as long |
| `Compare.RowLayout` | src/commands.py:29-31 | a row is the key padded to 20, then each value padded to its name's width; a missing value shows `"-"` |
| `Compare.MissingNameFails` | fantasy-baseball-cli/src/commands.py:22-30 | a missing player name fails exactly when there is at least one row |
| `Compare.TableLinesSplit` | fantasy-baseball-cli/src/commands.py:31 | with no line breaks in names, keys or values, splitting the joined table gives exactly its lines |
| `Compare.LeastExists` | src/commands.py:22 | a non-empty key set has a least key |
| `Compare.ComparedStatsAreFetchedStats` | fantasy-baseball-cli/src/commands.py:18-19 | the stats parsed from a fetched text are that person's flattened scalar stats |
| `FantasyDb.Inserted` | src/fantasy_db.py:37-43 | insert-or-ignore adds the key, keeps every existing row as it was and stores the name only for a new key |
| `FantasyDb.Deleted` | src/fantasy_db.py:54-59 | deletion removes exactly that key and keeps every other row |
| `FantasyDb.TeamOfSpec` | src/fantasy_db.py:71-77 | a pair is in a user's team exactly when the row `(user, id)` holds that name |
| `FantasyDb.TeamIdsUnique` | src/fantasy_db.py:22 | the primary key allows one name per player id within a team |
| `FantasyDb.ListingSize` | fantasy-baseball-cli/src/fantasy_db.py:13 | a listing without duplicate ids has one entry per team member |
| `FantasyDb.InsertIdempotent` | fantasy-baseball-cli/src/fantasy_db.py:22-25 | adding an existing pair again, with any name, changes nothing |
| `FantasyDb.DeleteUndoesInsert` | src/fantasy_db.py:48-61 | removing a freshly added pair restores the table, and removing an absent pair changes nothing |
| `FantasyDb.TeamAfterInsert` | src/fantasy_db.py:30-45 | adding a new pair adds exactly that member to that user's team; an existing pair or another user's team is unchanged |
| `FantasyDb.TeamAfterDelete` | fantasy-baseball-cli/src/fantasy_db.py:29-36 | removing drops only that id from that user's team; other users' teams are unchanged |
| `FantasyDb.Database.constructor` | src/fantasy_db.py:6 | a new database file has no table and no rows |
| `FantasyDb.Database.Init` | src/fantasy_db.py:9-27 | after init the table exists and the rows are unchanged, so re-running it creates nothing |
| `FantasyDb.Database.AddPlayer` | fantasy-baseball-cli/src/fantasy_db.py:19-27 | succeeds exactly when the table exists, and then the rows are the insert-or-ignore of the old rows |
| `FantasyDb.Database.RemovePlayer` | src/fantasy_db.py:48-61 | succeeds exactly when the table exists, and then the rows are the old rows without that key |
| `FantasyDb.Database.ListTeam` | src/fantasy_db.py:64-79 | succeeds exactly when the table exists, and then lists each of the user's `(player_id, player_name)` pairs once, in some order |
| `FantasyDb.DbErrors` | src/fantasy_db.py:96-100 | the skipped players are exactly the team members whose scoring raised a database error |
| `FantasyDb.TallySpec` | src/fantasy_db.py:91-101 | the loop completes exactly when no member's scoring fails otherwise; the total is then the sum of the scored members and the skipped ones are those with a database error; an abort cites the first failure |
| `FantasyDb.NoDbErrorsWhenAllScored` | src/fantasy_db.py:101 | when every member scores, nothing is skipped |
| `FantasyDb.AbortedStays` | src/fantasy_db.py:93-101 | once the loop aborts, the later members do not matter |
| `FantasyDb.PrintTeamFantasyScores` | src/fantasy_db.py:82-103 | without a table, a database error; otherwise it lists the user's team and reports the no-players message for an empty team, or the tally of its members |
| `FantasyDb.ExampleTeams` | fantasy-baseball-cli/src/fantasy_db.py:53-60 | the scenario's relation holds both players after the two additions and only Barry Bonds after the removal |
| `FantasyDb.ExampleRun` | fantasy-baseball-cli/src/fantasy_db.py:49-63 | on a fresh database the scenario lists Mike Trout and Barry Bonds, then only `(111188, "Barry Bonds")` |

## Left out

- Network access: every `requests.get` call, URL, hydrate string and response decoding is left out. Each response is a status code and an optional decoded payload given as a parameter.
- SQLite file access: connections, commits, closes and the database path are left out. Only the relation the SQL text states is modelled, and the database file is a `Database` object.
- Command-line parsing and dispatch (cli.py, main.py) and packaging (setup.py) are not part of this model. The one exception is the arguments that the `--team` command passes to `fetch_team_stats`, modelled as `Fetch.TeamCommand`.
- Printed output is mostly left out. It is modelled only where printing is the result: the `TeamPrinted` outcome and the `TeamReport` of the team scorer. The debug print in `fantasy-baseball-cli/src/test_team_lookup.py` and the printing of the module-level call's result are left out. The call itself is `Fetch.GiantsStats`.
- `fetch_team_roster` is not part of this model. It is a single request with no logic beyond the response.
- `Scoring.ParseFloat`: `float()` is exact decimal arithmetic. IEEE rounding, exponents, `inf`/`nan`, underscores and Unicode digits or whitespace are not modelled; texts using them read as errors here.
- `Text.Lower`, `Text.Capitalize`: only ASCII letters change case. Unicode case mapping is not modelled.
- `Render.FormatPlayerStats`: a missing `fullName`, `primaryPosition` or `stat` key of the wrong type would raise. The model takes these fields as present, and only a missing display name as the error.
- `Fetch.FetchPlayerStats`: the career request's `type` argument is ignored, as in the source. Exceptions inside the request are one of the `None` outcomes. The career branch's implicit `None` on no people is that same `None`.
- `Fetch.GetPlayerFantasyPoints`: the implicit `None` returns are the `NoPlayerData` and `PointsApiError` outcomes. The request timeout is not modelled.
- `FantasyDb.Database.ListTeam`: SQLite returns rows without `ORDER BY`, so the order is unspecified. The contract states the listed set and that it has no duplicates, not an order.
- `FantasyDb.PrintTeamFantasyScores`: the per-player score is an oracle `scoreOf`. One of its outcomes models `get_player_fantasy_points` returning `None` or raising anything other than `sqlite3.Error`; it aborts the loop, because `total_score += None` raises.
- `FantasyDb.ExampleRun` starts from a fresh database file. A file left over from an earlier run could already hold rows.
- `Compare.ComparePlayers`: the two stat fetches and name lookups are its inputs. The career/season choice only changes how those inputs were fetched.
