/**
 * The fantasy-team store of `fantasy_db.py` (src/ and fantasy-baseball-cli/src/):
 * one table `fantasy_team(user, player_id, player_name)` with primary key
 * `(user, player_id)`, held as a map from that key to the name, so at most
 * one row per pair exists by construction.
 */
module FantasyDb {
  import opened Wrappers

  /** The relation: `(user, player_id)` to `player_name`. */
  type Rows = map<(string, int), string>

  /** What a statement on a database without the table raises (`sqlite3.OperationalError: no such table`). */
  datatype DbError = NoSuchTable

  /** `INSERT OR IGNORE`: a new key adds its row, an existing key keeps its old row. */
  function Inserted(rows: Rows, user: string, playerId: int, name: string): (r: Rows)
    ensures r.Keys == rows.Keys + {(user, playerId)}
    ensures forall k :: k in rows ==> r[k] == rows[k]
    ensures (user, playerId) !in rows ==> r[(user, playerId)] == name
  {
    if (user, playerId) in rows then rows else rows[(user, playerId) := name]
  }

  /** `DELETE ... WHERE user=? AND player_id=?` */
  function Deleted(rows: Rows, user: string, playerId: int): (r: Rows)
    ensures r.Keys == rows.Keys - {(user, playerId)}
    ensures forall k :: k in r ==> r[k] == rows[k]
  {
    rows - {(user, playerId)}
  }

  /** `SELECT player_id, player_name ... WHERE user=?`, as a set of rows. */
  function TeamOf(rows: Rows, user: string): set<(int, string)> {
    set k | k in rows && k.0 == user :: (k.1, rows[k])
  }

  /** A team holds `(id, name)` exactly when that user's row for `id` names `name`. */
  lemma TeamOfSpec(rows: Rows, user: string, p: (int, string))
    ensures p in TeamOf(rows, user) <==> (user, p.0) in rows && rows[(user, p.0)] == p.1
  {
    if p in TeamOf(rows, user) {
      var k :| k in rows && k.0 == user && (k.1, rows[k]) == p;
    }
    if (user, p.0) in rows && rows[(user, p.0)] == p.1 {
      var k := (user, p.0);
      assert (k.1, rows[k]) in TeamOf(rows, user);
    }
  }

  /** The primary key at work: a team never lists one player id twice. */
  lemma TeamIdsUnique(rows: Rows, user: string, p: (int, string), q: (int, string))
    requires p in TeamOf(rows, user) && q in TeamOf(rows, user)
    requires p.0 == q.0
    ensures p == q
  {
    TeamOfSpec(rows, user, p);
    TeamOfSpec(rows, user, q);
  }

  /** A listing of a team: every row once, in some order. */
  ghost predicate Listing(s: seq<(int, string)>, team: set<(int, string)>) {
    (forall p :: p in s <==> p in team)
    && forall i, j :: 0 <= i < j < |s| ==> s[i].0 != s[j].0
  }

  /** A listing has as many entries as the team has members. */
  lemma {:induction false} ListingSize(s: seq<(int, string)>, team: set<(int, string)>)
    requires Listing(s, team)
    ensures |s| == |team|
  {
    if s == [] {
      assert forall p :: p !in team;
      assert team == {};
    } else {
      var last, prev := s[|s| - 1], s[..|s| - 1];
      forall p
        ensures p in prev <==> p in team - {last}
      {
        if p in prev {
          var i :| 0 <= i < |prev| && prev[i] == p;
          assert s[i] == p;
        }
        if p in team - {last} {
          var i :| 0 <= i < |s| && s[i] == p;
          assert prev[i] == p;
        }
      }
      ListingSize(prev, team - {last});
    }
  }

  /** Adding twice is adding once, whatever the second name. */
  lemma InsertIdempotent(rows: Rows, user: string, playerId: int, name: string, other: string)
    ensures Inserted(Inserted(rows, user, playerId, name), user, playerId, other) == Inserted(rows, user, playerId, name)
  {
  }

  /** Removing a player just added restores the table, and removing an absent pair changes nothing. */
  lemma {:induction false} DeleteUndoesInsert(rows: Rows, user: string, playerId: int, name: string)
    requires (user, playerId) !in rows
    ensures Deleted(Inserted(rows, user, playerId, name), user, playerId) == rows
    ensures Deleted(rows, user, playerId) == rows
  {
    var r := Deleted(Inserted(rows, user, playerId, name), user, playerId);
    assert r.Keys == rows.Keys;
    assert rows - {(user, playerId)} == rows;
  }

  /** Adding a new player to a team adds exactly that member; other users' teams are untouched. */
  lemma TeamAfterInsert(rows: Rows, user: string, playerId: int, name: string, someone: string)
    ensures (user, playerId) !in rows ==> TeamOf(Inserted(rows, user, playerId, name), user) == TeamOf(rows, user) + {(playerId, name)}
    ensures (user, playerId) in rows ==> TeamOf(Inserted(rows, user, playerId, name), user) == TeamOf(rows, user)
    ensures someone != user ==> TeamOf(Inserted(rows, user, playerId, name), someone) == TeamOf(rows, someone)
  {
    var r := Inserted(rows, user, playerId, name);
    forall p
      ensures p in TeamOf(r, someone) <==>
        p in TeamOf(rows, someone) || (someone == user && (user, playerId) !in rows && p == (playerId, name))
    {
      TeamOfSpec(r, someone, p);
      TeamOfSpec(rows, someone, p);
    }
  }

  /** Removing drops exactly that user's member with that id; other users' teams are untouched. */
  lemma TeamAfterDelete(rows: Rows, user: string, playerId: int, someone: string)
    ensures TeamOf(Deleted(rows, user, playerId), user) == set p | p in TeamOf(rows, user) && p.0 != playerId
    ensures someone != user ==> TeamOf(Deleted(rows, user, playerId), someone) == TeamOf(rows, someone)
  {
    var r := Deleted(rows, user, playerId);
    forall p
      ensures p in TeamOf(r, someone) <==> p in TeamOf(rows, someone) && (someone != user || p.0 != playerId)
    {
      TeamOfSpec(r, someone, p);
      TeamOfSpec(rows, someone, p);
    }
  }

  /** The database file: whether the table has been created, and its rows. */
  class Database {
    var tableExists: bool
    var rows: Rows

    /** A database file nobody has initialised yet. */
    constructor ()
      ensures !tableExists && rows == map[]
    {
      tableExists := false;
      rows := map[];
    }

    /** `init_fantasy_db`: `CREATE TABLE IF NOT EXISTS`, so existing rows survive. */
    method Init()
      modifies this
      ensures tableExists
      ensures rows == old(rows)
    {
      tableExists := true;
    }

    /** `add_player_to_team` */
    method AddPlayer(user: string, playerId: int, name: string) returns (r: Result<(), DbError>)
      modifies this
      ensures tableExists == old(tableExists)
      ensures r.Ok? <==> tableExists
      ensures rows == if tableExists then Inserted(old(rows), user, playerId, name) else old(rows)
    {
      if !tableExists {
        return Err(NoSuchTable);
      }
      if (user, playerId) !in rows {
        rows := rows[(user, playerId) := name];
      }
      r := Ok(());
    }

    /** `remove_player_from_team` */
    method RemovePlayer(user: string, playerId: int) returns (r: Result<(), DbError>)
      modifies this
      ensures tableExists == old(tableExists)
      ensures r.Ok? <==> tableExists
      ensures rows == if tableExists then Deleted(old(rows), user, playerId) else old(rows)
    {
      if !tableExists {
        return Err(NoSuchTable);
      }
      rows := rows - {(user, playerId)};
      r := Ok(());
    }

    /** `list_fantasy_team`: the user's rows in an order the store picks. */
    method ListTeam(user: string) returns (r: Result<seq<(int, string)>, DbError>)
      ensures r.Ok? <==> tableExists
      ensures r.Ok? ==> Listing(r.value, TeamOf(rows, user))
    {
      if !tableExists {
        return Err(NoSuchTable);
      }
      var out: seq<(int, string)> := [];
      var rest := rows.Keys;
      while rest != {}
        invariant rest <= rows.Keys
        invariant forall p :: p in out <==> (user, p.0) in rows.Keys - rest && rows[(user, p.0)] == p.1
        invariant forall i :: 0 <= i < |out| ==> (user, out[i].0) !in rest
        invariant forall i, j :: 0 <= i < j < |out| ==> out[i].0 != out[j].0
        decreases |rest|
      {
        var k :| k in rest;
        if k.0 == user {
          out := out + [(k.1, rows[k])];
        }
        rest := rest - {k};
      }
      forall p
        ensures p in out <==> p in TeamOf(rows, user)
      {
        TeamOfSpec(rows, user, p);
      }
      r := Ok(out);
    }
  }

  // ---------------------------------------------------------------------------
  // Team scoring (`print_team_fantasy_scores`, src/ only)
  // ---------------------------------------------------------------------------

  /**
   * What `get_player_fantasy_points(player_id)` does for one member: a score,
   * a `sqlite3.Error` (caught and skipped), or anything else (a `None` score,
   * which `total_score += None` rejects, or another exception), which ends the
   * whole report.
   */
  datatype ScoreOutcome = Points(score: real) | SqliteError | Failure

  /** The running total over a listing, with the members whose database error was reported and skipped. */
  datatype Tally = Tally(total: real, skipped: seq<(int, string)>) | Aborted(playerId: int)

  function TallyOf(team: seq<(int, string)>, scoreOf: int -> ScoreOutcome): Tally {
    if team == [] then Tally(0.0, [])
    else
      var last := team[|team| - 1];
      match TallyOf(team[..|team| - 1], scoreOf)
      case Aborted(id) => Aborted(id)
      case Tally(t, sk) =>
        match scoreOf(last.0)
        case Points(x) => Tally(t + x, sk)
        case SqliteError => Tally(t, sk + [last])
        case Failure => Aborted(last.0)
  }

  /** The sum of the scores a listing's members earn. */
  function Earned(team: seq<(int, string)>, scoreOf: int -> ScoreOutcome): real {
    if team == [] then 0.0
    else
      var last := team[|team| - 1];
      Earned(team[..|team| - 1], scoreOf) + (if scoreOf(last.0).Points? then scoreOf(last.0).score else 0.0)
  }

  /** The members of a listing whose scoring raised a database error, in listing order. */
  function DbErrors(team: seq<(int, string)>, scoreOf: int -> ScoreOutcome): (r: seq<(int, string)>)
    ensures forall p :: p in r ==> p in team && scoreOf(p.0).SqliteError?
    ensures forall i :: 0 <= i < |team| && scoreOf(team[i].0).SqliteError? ==> team[i] in r
  {
    if team == [] then []
    else
      var last, prev := team[|team| - 1], team[..|team| - 1];
      assert forall i :: 0 <= i < |prev| ==> prev[i] == team[i];
      DbErrors(prev, scoreOf) + (if scoreOf(last.0).SqliteError? then [last] else [])
  }

  /**
   * Without failures the total is the sum of the members' scores, a member
   * raising a database error contributing nothing, and the skipped members
   * are exactly those; with a failure the report stops at the first one.
   */
  lemma {:induction false} TallySpec(team: seq<(int, string)>, scoreOf: int -> ScoreOutcome)
    ensures TallyOf(team, scoreOf).Tally? <==> forall i :: 0 <= i < |team| ==> !scoreOf(team[i].0).Failure?
    ensures TallyOf(team, scoreOf).Tally? ==>
      TallyOf(team, scoreOf).total == Earned(team, scoreOf) && TallyOf(team, scoreOf).skipped == DbErrors(team, scoreOf)
    ensures TallyOf(team, scoreOf).Aborted? ==>
      exists i ::
        0 <= i < |team| && team[i].0 == TallyOf(team, scoreOf).playerId && scoreOf(team[i].0).Failure?
        && forall j :: 0 <= j < i ==> !scoreOf(team[j].0).Failure?
  {
    if team != [] {
      var prev := team[..|team| - 1];
      TallySpec(prev, scoreOf);
      assert forall i :: 0 <= i < |prev| ==> prev[i] == team[i];
      var t := TallyOf(team, scoreOf);
      if TallyOf(prev, scoreOf).Aborted? {
        var i :| 0 <= i < |prev| && prev[i].0 == t.playerId && scoreOf(prev[i].0).Failure?
          && forall j :: 0 <= j < i ==> !scoreOf(prev[j].0).Failure?;
        assert team[i] == prev[i];
      } else if t.Aborted? {
        assert team[|team| - 1].0 == t.playerId;
      }
    }
  }

  /** When every member earns points, nothing is skipped. */
  lemma {:induction false} NoDbErrorsWhenAllScored(team: seq<(int, string)>, scoreOf: int -> ScoreOutcome)
    requires forall i :: 0 <= i < |team| ==> scoreOf(team[i].0).Points?
    ensures DbErrors(team, scoreOf) == []
  {
    if team != [] {
      var prev := team[..|team| - 1];
      assert forall i :: 0 <= i < |prev| ==> prev[i] == team[i];
      NoDbErrorsWhenAllScored(prev, scoreOf);
    }
  }

  /** What `print_team_fantasy_scores` reports. */
  datatype TeamReport =
    | ReportDbError(error: DbError)
    | NoPlayers(message: string)
    | ReportAborted(playerId: int)
    | TeamScore(user: string, total: real, skipped: seq<(int, string)>)

  function ReportOf(user: string, team: seq<(int, string)>, scoreOf: int -> ScoreOutcome): TeamReport {
    if team == [] then NoPlayers("No players found for user '" + user + "'.")
    else
      match TallyOf(team, scoreOf)
      case Aborted(id) => ReportAborted(id)
      case Tally(t, sk) => TeamScore(user, t, sk)
  }

  /**
   * `print_team_fantasy_scores(user)`: lists the team, then adds up the
   * members' scores, skipping members whose scoring raised a database error.
   * `scoreOf` stands for `get_player_fantasy_points`; `team` is the listing
   * the report went through.
   */
  method PrintTeamFantasyScores(db: Database, user: string, scoreOf: int -> ScoreOutcome)
    returns (team: seq<(int, string)>, r: TeamReport)
    ensures !db.tableExists ==> team == [] && r == ReportDbError(NoSuchTable)
    ensures db.tableExists ==> Listing(team, TeamOf(db.rows, user)) && r == ReportOf(user, team, scoreOf)
  {
    var listed := db.ListTeam(user);
    if listed.Err? {
      return [], ReportDbError(listed.error);
    }
    team := listed.value;
    if |team| == 0 {
      return team, NoPlayers("No players found for user '" + user + "'.");
    }
    var total := 0.0;
    var skipped: seq<(int, string)> := [];
    var i := 0;
    while i < |team|
      invariant 0 <= i <= |team|
      invariant TallyOf(team[..i], scoreOf) == Tally(total, skipped)
    {
      var member := team[i];
      assert team[..i + 1][..i] == team[..i] && team[..i + 1][i] == member;
      var outcome := scoreOf(member.0);
      if outcome.Failure? {
        assert TallyOf(team[..i + 1], scoreOf) == Aborted(member.0);
        AbortedStays(team, i + 1, scoreOf);
        return team, ReportAborted(member.0);
      } else if outcome.SqliteError? {
        skipped := skipped + [member];
      } else {
        total := total + outcome.score;
      }
      i := i + 1;
    }
    assert team[..i] == team;
    r := TeamScore(user, total, skipped);
  }

  /** Once a prefix aborts, the whole listing aborts at the same member. */
  lemma {:induction false} AbortedStays(team: seq<(int, string)>, n: nat, scoreOf: int -> ScoreOutcome)
    requires n <= |team|
    requires TallyOf(team[..n], scoreOf).Aborted?
    ensures TallyOf(team, scoreOf) == TallyOf(team[..n], scoreOf)
    decreases |team| - n
  {
    if n < |team| {
      assert team[..n + 1][..n] == team[..n];
      AbortedStays(team, n + 1, scoreOf);
    } else {
      assert team[..n] == team;
    }
  }

  // ---------------------------------------------------------------------------
  // The example run of fantasy-baseball-cli/src/fantasy_db.py
  // ---------------------------------------------------------------------------

  /**
   * On a fresh database file: create the table, add Mike Trout (545361) and
   * Barry Bonds (111188) for `"sumukh"`, list, remove 545361, list again.
   */
  method ExampleRun() returns (before: seq<(int, string)>, after: seq<(int, string)>)
    ensures |before| == 2
    ensures forall p :: p in before <==> p == (545361, "Mike Trout") || p == (111188, "Barry Bonds")
    ensures after == [(111188, "Barry Bonds")]
  {
    var db := new Database();
    db.Init();
    var user := "sumukh";
    var _ := db.AddPlayer(user, 545361, "Mike Trout");
    var _ := db.AddPlayer(user, 111188, "Barry Bonds");
    var first := db.ListTeam(user);
    before := first.value;
    ExampleTeams();
    ListingSize(before, TeamOf(db.rows, user));
    var _ := db.RemovePlayer(user, 545361);
    var second := db.ListTeam(user);
    after := second.value;
    ListingSize(after, TeamOf(db.rows, user));
    assert after[0] in after;
  }

  lemma ExampleTeams()
    ensures var added := Inserted(Inserted(map[], "sumukh", 545361, "Mike Trout"), "sumukh", 111188, "Barry Bonds");
      TeamOf(added, "sumukh") == {(545361, "Mike Trout"), (111188, "Barry Bonds")}
      && TeamOf(Deleted(added, "sumukh", 545361), "sumukh") == {(111188, "Barry Bonds")}
  {
    var one := Inserted(map[], "sumukh", 545361, "Mike Trout");
    var added := Inserted(one, "sumukh", 111188, "Barry Bonds");
    TeamAfterInsert(map[], "sumukh", 545361, "Mike Trout", "sumukh");
    TeamAfterInsert(one, "sumukh", 111188, "Barry Bonds", "sumukh");
    TeamAfterDelete(added, "sumukh", 545361, "sumukh");
  }
}
