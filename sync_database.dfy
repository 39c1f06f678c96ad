// The sync job of sportquery/nba/sync_database.py: a store of four tables
// the job appends to, except that the schedule's latest season is deleted
// and pulled again. Reading a page and parsing it (get_teams, get_schedule,
// get_boxscore, get_plus_minus, get_play_by_play) are function parameters;
// the sqlite tables are the store's fields.
module SyncDatabase {
  import opened Wrappers
  import Frames
  import Schedule
  import PlusMinus
  import PlayByPlay

  // ---------------------------------------------------------------------
  // The schedule table

  /** A stored schedule row: the parsed game with its season inserted. */
  datatype Scheduled = Scheduled(season: int, game: Schedule.Game)

  /**
   * Two rows the table's (game_id, team) constraint refuses to hold
   * together; sqlite never matches a null game_id.
   */
  predicate Clash(a: Scheduled, b: Scheduled)
  {
    a.game.gameId.Some? && a.game.gameId == b.game.gameId && a.game.team == b.game.team
  }

  /** The unique constraint: no two rows of the table clash. */
  predicate Unique(table: seq<Scheduled>)
  {
    forall i, j :: 0 <= i < j < |table| ==> !Clash(table[i], table[j])
  }

  /** Some stored row clashes with `row`. */
  predicate ClashesWith(stored: seq<Scheduled>, row: Scheduled)
  {
    exists i :: 0 <= i < |stored| && Clash(stored[i], row)
  }

  /** sqlite inserts a batch row by row, checking each against the rows already there. */
  predicate Insertable(table: seq<Scheduled>, batch: seq<Scheduled>)
    decreases |batch|
  {
    batch == [] || (!ClashesWith(table, batch[0]) && Insertable(table + [batch[0]], batch[1..]))
  }

  /** Inserting row by row succeeds exactly when the grown table keeps the constraint. */
  lemma {:induction false} InsertableUnique(table: seq<Scheduled>, batch: seq<Scheduled>)
    ensures Unique(table) ==> (Insertable(table, batch) <==> Unique(table + batch))
    decreases |batch|
  {
    if batch != [] && Unique(table) {
      var x := batch[0];
      assert table + batch == (table + [x]) + batch[1..];
      if ClashesWith(table, x) {
        var i :| 0 <= i < |table| && Clash(table[i], x);
        assert (table + batch)[i] == table[i] && (table + batch)[|table|] == x;
      } else {
        assert Unique(table + [x]) by {
          forall i, j | 0 <= i < j < |table + [x]|
            ensures !Clash((table + [x])[i], (table + [x])[j])
          {
            if j == |table| {
              assert (table + [x])[i] == table[i];
            }
          }
        }
        InsertableUnique(table + [x], batch[1..]);
      }
    }
  }

  /**
   * Line 146, `to_sql(..., if_exists='append')` of one team's season: the
   * rows go in together, or an IntegrityError is raised when one of them
   * would break the (game_id, team) constraint, and none goes in.
   */
  function Append(table: seq<Scheduled>, batch: seq<Scheduled>): (r: Result<seq<Scheduled>, string>)
    ensures r.Success? ==> r.value == table + batch
    ensures Unique(table) ==> (r.Success? <==> Unique(table + batch))
  {
    InsertableUnique(table, batch);
    if Insertable(table, batch) then Success(table + batch)
    else Failure("IntegrityError: UNIQUE constraint failed: schedule.game_id, schedule.team")
  }

  /** Line 145: every game of a fetched schedule carries the season it was fetched for. */
  function Stamp(season: int, games: seq<Schedule.Game>): (r: seq<Scheduled>)
    ensures |r| == |games|
    ensures forall k :: 0 <= k < |r| ==> r[k].season == season && r[k].game == games[k]
  {
    seq(|games|, k requires 0 <= k < |games| => Scheduled(season, games[k]))
  }

  /** The largest season stored. */
  function MaxSeason(table: seq<Scheduled>): (r: int)
    requires table != []
    ensures exists k :: 0 <= k < |table| && table[k].season == r
    ensures forall k :: 0 <= k < |table| ==> table[k].season <= r
  {
    if |table| == 1 then table[0].season
    else
      var rest := MaxSeason(table[1..]);
      assert forall k :: 1 <= k < |table| ==> table[k] == table[1..][k - 1];
      if table[0].season >= rest then table[0].season else rest
  }

  /**
   * Lines 134-136: `max(season)` is null on an empty table, and Python's
   * `or` also passes over a largest season of 0, so both restart at `start`.
   */
  function Restart(table: seq<Scheduled>, start: int): (r: int)
    ensures table == [] ==> r == start
    ensures r != start ==> table != [] && forall k :: 0 <= k < |table| ==> table[k].season <= r
    ensures r != start ==> exists k :: 0 <= k < |table| && table[k].season == r
    ensures table != [] && MaxSeason(table) != 0 ==> r == MaxSeason(table)
  {
    if table == [] then start
    else
      var m := MaxSeason(table);
      if m == 0 then start else m
  }

  /** Line 139, `delete from schedule where season == s`: the other rows stay, in order. */
  function Without(table: seq<Scheduled>, season: int): (r: seq<Scheduled>)
    ensures forall x :: x in r <==> x in table && x.season != season
    ensures |r| <= |table|
    decreases |table|
  {
    if table == [] then []
    else
      var init := table[..|table| - 1];
      var last := table[|table| - 1];
      assert table == init + [last];
      if last.season == season then Without(init, season) else Without(init, season) + [last]
  }

  /** Deleting rows keeps the constraint. */
  lemma {:induction false} WithoutUnique(table: seq<Scheduled>, season: int)
    requires Unique(table)
    ensures Unique(Without(table, season))
    decreases |table|
  {
    if table != [] {
      var init := table[..|table| - 1];
      var last := table[|table| - 1];
      assert Unique(init) by {
        forall i, j | 0 <= i < j < |init| ensures !Clash(init[i], init[j]) {
          assert init[i] == table[i] && init[j] == table[j];
        }
      }
      WithoutUnique(init, season);
      var kept := Without(init, season);
      if last.season != season {
        forall i, j | 0 <= i < j < |kept + [last]|
          ensures !Clash((kept + [last])[i], (kept + [last])[j])
        {
          if j == |kept| {
            assert kept[i] in init;
            var m :| 0 <= m < |init| && init[m] == kept[i];
            assert table[m] == kept[i] && table[|table| - 1] == last;
          } else {
            assert (kept + [last])[i] == kept[i] && (kept + [last])[j] == kept[j];
          }
        }
      }
    }
  }

  /** Rows of other seasons survive the deletion and a pass that extends the table. */
  lemma KeptRows(table: seq<Scheduled>, kept: seq<Scheduled>, grown: seq<Scheduled>, season: int)
    requires kept == Without(table, season) && Extends(kept, grown)
    ensures forall x :: x in table && x.season != season ==> x in grown
  {
    forall x | x in table && x.season != season ensures x in grown {
      var i :| 0 <= i < |kept| && kept[i] == x;
      assert grown[..|kept|][i] == grown[i];
    }
  }

  /** The table a pass leaves behind and the error it stopped on, if any. */
  datatype Pass = Pass(table: seq<Scheduled>, error: Option<string>)

  /**
   * The inner loop of lines 142-146 over one season's teams: each team's
   * schedule is fetched, stamped and appended; the first fetch or insert
   * that raises ends the pass.
   */
  function AddTeams(table: seq<Scheduled>, season: int, teams: seq<string>,
                    scheduleOf: (string, int) -> Result<seq<Schedule.Game>, string>): Pass
    decreases |teams|
  {
    if teams == [] then Pass(table, None)
    else match scheduleOf(teams[0], season)
      case Failure(e) => Pass(table, Some(e))
      case Success(games) =>
        match Append(table, Stamp(season, games))
        case Failure(e) => Pass(table, Some(e))
        case Success(t) => AddTeams(t, season, teams[1..], scheduleOf)
  }

  /**
   * Lines 141-146: every season from `season` through `current` in turn,
   * listing its teams first; a listing or fetch that raises ends the pass.
   */
  function Sweep(table: seq<Scheduled>, season: int, current: int, teamsOf: int -> Result<seq<string>, string>,
                 scheduleOf: (string, int) -> Result<seq<Schedule.Game>, string>): Pass
    decreases current + 1 - season
  {
    if season > current then Pass(table, None)
    else match teamsOf(season)
      case Failure(e) => Pass(table, Some(e))
      case Success(teams) =>
        var p := AddTeams(table, season, teams, scheduleOf);
        if p.error.Some? then p else Sweep(p.table, season + 1, current, teamsOf, scheduleOf)
  }

  /** `row` is a game of the schedule fetched for one of `teams` in the row's season `season`. */
  predicate FromTeams(row: Scheduled, season: int, teams: seq<string>,
                      scheduleOf: (string, int) -> Result<seq<Schedule.Game>, string>)
  {
    row.season == season &&
    exists i :: 0 <= i < |teams| && scheduleOf(teams[i], season).Success? && row.game in scheduleOf(teams[i], season).value
  }

  /** `row` is a game of a schedule fetched for a team listed in the row's season. */
  predicate FromPage(row: Scheduled, teamsOf: int -> Result<seq<string>, string>,
                     scheduleOf: (string, int) -> Result<seq<Schedule.Game>, string>)
  {
    teamsOf(row.season).Success? && FromTeams(row, row.season, teamsOf(row.season).value, scheduleOf)
  }

  /** `grown` keeps `table` as its first rows. */
  predicate Extends(table: seq<Scheduled>, grown: seq<Scheduled>)
  {
    |table| <= |grown| && grown[..|table|] == table
  }

  /** One season's pass only appends, and only that season's games of the teams it was given. */
  lemma {:induction false} AddTeamsGrows(table: seq<Scheduled>, season: int, teams: seq<string>,
                                         scheduleOf: (string, int) -> Result<seq<Schedule.Game>, string>)
    ensures var p := AddTeams(table, season, teams, scheduleOf);
      Extends(table, p.table) && forall k :: |table| <= k < |p.table| ==> FromTeams(p.table[k], season, teams, scheduleOf)
    decreases |teams|
  {
    var p := AddTeams(table, season, teams, scheduleOf);
    if teams != [] && scheduleOf(teams[0], season).Success? {
      var games := scheduleOf(teams[0], season).value;
      var batch := Stamp(season, games);
      if Append(table, batch).Success? {
        var t := table + batch;
        assert p == AddTeams(t, season, teams[1..], scheduleOf);
        AddTeamsGrows(t, season, teams[1..], scheduleOf);
        ExtendsAppend(table, batch, p.table);
        forall k | |table| <= k < |p.table| ensures FromTeams(p.table[k], season, teams, scheduleOf) {
          if k < |t| {
            assert p.table[k] == batch[k - |table|];
            assert p.table[k].game in games;
          } else {
            FromTeamsTail(p.table[k], season, teams, scheduleOf);
          }
        }
      }
    }
  }

  /** A table grown from `table + batch` was grown from `table`, with the batch right after it. */
  lemma ExtendsAppend(table: seq<Scheduled>, batch: seq<Scheduled>, grown: seq<Scheduled>)
    requires Extends(table + batch, grown)
    ensures Extends(table, grown)
    ensures forall k :: |table| <= k < |table| + |batch| ==> grown[k] == batch[k - |table|]
  {
    assert grown[..|table|] == (table + batch)[..|table|];
    forall k | |table| <= k < |table| + |batch| ensures grown[k] == batch[k - |table|] {
      assert grown[k] == grown[..|table + batch|][k];
    }
  }

  /** A row from one of the later teams is a row from the teams. */
  lemma FromTeamsTail(row: Scheduled, season: int, teams: seq<string>,
                      scheduleOf: (string, int) -> Result<seq<Schedule.Game>, string>)
    requires teams != [] && FromTeams(row, season, teams[1..], scheduleOf)
    ensures FromTeams(row, season, teams, scheduleOf)
  {
    var i :| 0 <= i < |teams[1..]| && scheduleOf(teams[1..][i], season).Success?
      && row.game in scheduleOf(teams[1..][i], season).value;
    assert teams[1..][i] == teams[i + 1];
  }

  /** The whole pass only appends, and only games of the seasons and teams it walked. */
  lemma {:induction false} SweepGrows(table: seq<Scheduled>, season: int, current: int, teamsOf: int -> Result<seq<string>, string>,
                                      scheduleOf: (string, int) -> Result<seq<Schedule.Game>, string>)
    ensures var p := Sweep(table, season, current, teamsOf, scheduleOf);
      Extends(table, p.table) &&
      forall k :: |table| <= k < |p.table| ==> season <= p.table[k].season <= current && FromPage(p.table[k], teamsOf, scheduleOf)
    decreases current + 1 - season
  {
    var p := Sweep(table, season, current, teamsOf, scheduleOf);
    if season <= current && teamsOf(season).Success? {
      var teams := teamsOf(season).value;
      var q := AddTeams(table, season, teams, scheduleOf);
      AddTeamsGrows(table, season, teams, scheduleOf);
      if q.error.None? {
        SweepGrows(q.table, season + 1, current, teamsOf, scheduleOf);
        assert p.table[..|q.table|] == q.table;
        assert p.table[..|table|] == q.table[..|table|];
        forall k | |table| <= k < |p.table|
          ensures season <= p.table[k].season <= current && FromPage(p.table[k], teamsOf, scheduleOf)
        {
          if k < |q.table| {
            assert p.table[k] == q.table[k];
            assert FromTeams(q.table[k], season, teams, scheduleOf);
          }
        }
      }
    }
  }

  lemma SweepExtends(table: seq<Scheduled>, season: int, current: int, teamsOf: int -> Result<seq<string>, string>,
                      scheduleOf: (string, int) -> Result<seq<Schedule.Game>, string>)
    ensures Extends(table, Sweep(table, season, current, teamsOf, scheduleOf).table)
  {
    SweepGrows(table, season, current, teamsOf, scheduleOf);
  }

  lemma AddTeamsExtends(table: seq<Scheduled>, season: int, teams: seq<string>,
                         scheduleOf: (string, int) -> Result<seq<Schedule.Game>, string>)
    ensures Extends(table, AddTeams(table, season, teams, scheduleOf).table)
  {
    AddTeamsGrows(table, season, teams, scheduleOf);
  }

  /** Neither pass breaks the (game_id, team) constraint. */
  lemma {:induction false} AddTeamsUnique(table: seq<Scheduled>, season: int, teams: seq<string>,
                                          scheduleOf: (string, int) -> Result<seq<Schedule.Game>, string>)
    requires Unique(table)
    ensures Unique(AddTeams(table, season, teams, scheduleOf).table)
    decreases |teams|
  {
    if teams != [] && scheduleOf(teams[0], season).Success? {
      var batch := Stamp(season, scheduleOf(teams[0], season).value);
      if Append(table, batch).Success? {
        AddTeamsUnique(table + batch, season, teams[1..], scheduleOf);
      }
    }
  }

  lemma {:induction false} SweepUnique(table: seq<Scheduled>, season: int, current: int, teamsOf: int -> Result<seq<string>, string>,
                                       scheduleOf: (string, int) -> Result<seq<Schedule.Game>, string>)
    requires Unique(table)
    ensures Unique(Sweep(table, season, current, teamsOf, scheduleOf).table)
    decreases current + 1 - season
  {
    if season <= current && teamsOf(season).Success? {
      var q := AddTeams(table, season, teamsOf(season).value, scheduleOf);
      AddTeamsUnique(table, season, teamsOf(season).value, scheduleOf);
      if q.error.None? {
        SweepUnique(q.table, season + 1, current, teamsOf, scheduleOf);
      }
    }
  }

  /** Every game of the schedule fetched for `team` in `season` is stored, stamped with the season. */
  predicate TeamPulled(table: seq<Scheduled>, season: int, team: string,
                       scheduleOf: (string, int) -> Result<seq<Schedule.Game>, string>)
  {
    scheduleOf(team, season).Success? &&
    forall game :: game in scheduleOf(team, season).value ==> Scheduled(season, game) in table
  }

  /** Every team listed for `season` has its whole schedule stored. */
  predicate Pulled(table: seq<Scheduled>, season: int, teamsOf: int -> Result<seq<string>, string>,
                   scheduleOf: (string, int) -> Result<seq<Schedule.Game>, string>)
  {
    teamsOf(season).Success? &&
    forall i :: 0 <= i < |teamsOf(season).value| ==> TeamPulled(table, season, teamsOf(season).value[i], scheduleOf)
  }

  lemma PulledGrows(table: seq<Scheduled>, grown: seq<Scheduled>, season: int, team: string,
                    scheduleOf: (string, int) -> Result<seq<Schedule.Game>, string>)
    requires Extends(table, grown) && TeamPulled(table, season, team, scheduleOf)
    ensures TeamPulled(grown, season, team, scheduleOf)
  {
    forall game | game in scheduleOf(team, season).value ensures Scheduled(season, game) in grown {
      var i :| 0 <= i < |table| && table[i] == Scheduled(season, game);
      assert grown[..|table|][i] == grown[i];
    }
  }

  /** A season's pass that ends without error has stored every listed team's schedule. */
  lemma {:induction false} AddTeamsComplete(table: seq<Scheduled>, season: int, teams: seq<string>,
                                            scheduleOf: (string, int) -> Result<seq<Schedule.Game>, string>)
    ensures var p := AddTeams(table, season, teams, scheduleOf);
      p.error.None? ==> forall i :: 0 <= i < |teams| ==> TeamPulled(p.table, season, teams[i], scheduleOf)
    decreases |teams|
  {
    var p := AddTeams(table, season, teams, scheduleOf);
    if teams != [] && p.error.None? {
      var games := scheduleOf(teams[0], season).value;
      var t := table + Stamp(season, games);
      AddTeamsComplete(t, season, teams[1..], scheduleOf);
      AddTeamsExtends(t, season, teams[1..], scheduleOf);
      assert TeamPulled(t, season, teams[0], scheduleOf) by {
        forall game | game in games ensures Scheduled(season, game) in t {
          var m :| 0 <= m < |games| && games[m] == game;
          assert t[|table| + m] == Scheduled(season, game);
        }
      }
      PulledGrows(t, p.table, season, teams[0], scheduleOf);
      forall i | 1 <= i < |teams| ensures TeamPulled(p.table, season, teams[i], scheduleOf) {
        assert teams[i] == teams[1..][i - 1];
      }
    }
  }

  /**
   * A pass over seasons `season` through `current` that ends without error
   * has stored, for every one of those seasons, the whole schedule of
   * every team listed for it.
   */
  lemma {:induction false} SweepComplete(table: seq<Scheduled>, season: int, current: int, teamsOf: int -> Result<seq<string>, string>,
                                         scheduleOf: (string, int) -> Result<seq<Schedule.Game>, string>)
    ensures var p := Sweep(table, season, current, teamsOf, scheduleOf);
      p.error.None? ==> forall s :: season <= s <= current ==> Pulled(p.table, s, teamsOf, scheduleOf)
    decreases current + 1 - season
  {
    var p := Sweep(table, season, current, teamsOf, scheduleOf);
    if season <= current && p.error.None? {
      var teams := teamsOf(season).value;
      var q := AddTeams(table, season, teams, scheduleOf);
      AddTeamsComplete(table, season, teams, scheduleOf);
      assert p == Sweep(q.table, season + 1, current, teamsOf, scheduleOf);
      SweepExtends(q.table, season + 1, current, teamsOf, scheduleOf);
      SweepComplete(q.table, season + 1, current, teamsOf, scheduleOf);
      forall i | 0 <= i < |teams| ensures TeamPulled(p.table, season, teams[i], scheduleOf) {
        PulledGrows(q.table, p.table, season, teams[i], scheduleOf);
      }
      assert Pulled(p.table, season, teamsOf, scheduleOf);
    }
  }

  /**
   * Lines 148-151, `select distinct game_id from schedule where outcome is
   * not null`: each id once, a null id included, in order of first
   * appearance.
   */
  function Completed(table: seq<Scheduled>): (r: seq<Option<string>>)
    ensures forall id :: id in r <==> exists k :: 0 <= k < |table| && table[k].game.outcome.Some? && table[k].game.gameId == id
    ensures forall i, j :: 0 <= i < j < |r| ==> r[i] != r[j]
    decreases |table|
  {
    if table == [] then []
    else
      var init := table[..|table| - 1];
      var last := table[|table| - 1].game;
      var before := Completed(init);
      assert forall k :: 0 <= k < |init| ==> init[k] == table[k];
      if last.outcome.None? || last.gameId in before then before else before + [last.gameId]
  }

  // ---------------------------------------------------------------------
  // The per-game tables

  /** Lines 168-170, the ids a table already holds; `isin` never matches a null id. */
  function Recorded<R>(rows: seq<R>, key: R -> Option<string>): (r: set<string>)
    ensures forall g :: g in r <==> exists k :: 0 <= k < |rows| && key(rows[k]) == Some(g)
  {
    set k | 0 <= k < |rows| && key(rows[k]).Some? :: key(rows[k]).value
  }

  /** Line 172: the ids asked for that are not recorded, in the order asked, repeats kept. */
  function Pending(ids: seq<string>, recorded: set<string>): (r: seq<string>)
    ensures forall g :: g in r <==> g in ids && g !in recorded
    ensures |r| <= |ids|
  {
    if ids == [] then []
    else (if ids[0] in recorded then [] else [ids[0]]) + Pending(ids[1..], recorded)
  }

  /** The filter works piecewise, so the pending ids keep the order they were asked in. */
  lemma {:induction false} PendingAppend(a: seq<string>, b: seq<string>, recorded: set<string>)
    ensures Pending(a + b, recorded) == Pending(a, recorded) + Pending(b, recorded)
    decreases |a|
  {
    if a != [] {
      var head := if a[0] in recorded then [] else [a[0]];
      assert (a + b)[0] == a[0] && (a + b)[1..] == a[1..] + b;
      assert Pending(a + b, recorded) == head + Pending(a[1..] + b, recorded);
      PendingAppend(a[1..], b, recorded);
      assert head + (Pending(a[1..], recorded) + Pending(b, recorded)) == (head + Pending(a[1..], recorded)) + Pending(b, recorded);
    } else {
      assert a + b == b;
    }
  }

  /** Nothing is pending once every id asked for is recorded. */
  lemma {:induction false} PendingNone(ids: seq<string>, recorded: set<string>)
    requires forall g :: g in ids ==> g in recorded
    ensures Pending(ids, recorded) == []
  {
    if ids != [] {
      assert ids[0] in ids;
      assert forall g :: g in ids[1..] ==> g in ids;
      PendingNone(ids[1..], recorded);
    }
  }

  /**
   * Lines 176-179: the rows fetched for each pending id in turn, up to the
   * first fetch that raises.
   */
  function Gathered<R>(pending: seq<string>, fetch: string -> Result<seq<R>, string>): seq<R>
  {
    if pending == [] then []
    else match fetch(pending[0])
      case Failure(_) => []
      case Success(rows) => rows + Gathered(pending[1..], fetch)
  }

  /** Every gathered row is a row of a successful fetch of a pending id. */
  lemma {:induction false} GatheredFrom<R>(pending: seq<string>, fetch: string -> Result<seq<R>, string>)
    ensures forall k :: 0 <= k < |Gathered(pending, fetch)| ==>
      exists i :: 0 <= i < |pending| && fetch(pending[i]).Success? && Gathered(pending, fetch)[k] in fetch(pending[i]).value
  {
    if pending != [] && fetch(pending[0]).Success? {
      var rows := fetch(pending[0]).value;
      var rest := Gathered(pending[1..], fetch);
      assert Gathered(pending, fetch) == rows + rest;
      GatheredFrom(pending[1..], fetch);
      forall k | 0 <= k < |rows + rest|
        ensures exists i :: 0 <= i < |pending| && fetch(pending[i]).Success? && (rows + rest)[k] in fetch(pending[i]).value
      {
        if k < |rows| {
          assert (rows + rest)[k] == rows[k];
        } else {
          assert (rows + rest)[k] == rest[k - |rows|];
          assert rest[k - |rows|] == Gathered(pending[1..], fetch)[k - |rows|];
          var i :| 0 <= i < |pending[1..]| && fetch(pending[1..][i]).Success? && rest[k - |rows|] in fetch(pending[1..][i]).value;
          assert pending[1..][i] == pending[i + 1];
        }
      }
    } else {
      assert Gathered(pending, fetch) == [];
    }
  }

  /** Gathering from position i fetches that id first. */
  lemma GatheredStep<R>(pending: seq<string>, i: int, fetch: string -> Result<seq<R>, string>)
    requires 0 <= i < |pending|
    ensures Gathered(pending[i..], fetch) == match fetch(pending[i])
      case Failure(_) => []
      case Success(rows) => rows + Gathered(pending[i + 1..], fetch)
  {
    assert pending[i..][0] == pending[i] && pending[i..][1..] == pending[i + 1..];
  }

  lemma ConcatAssoc<R>(a: seq<R>, b: seq<R>, c: seq<R>)
    ensures a + (b + c) == a + b + c
  {
  }

  /** Some pending fetch raises. */
  predicate Fails<R>(pending: seq<string>, fetch: string -> Result<seq<R>, string>)
  {
    exists i :: 0 <= i < |pending| && fetch(pending[i]).Failure?
  }

  /** When no fetch raises, every fetched row is gathered. */
  lemma {:induction false} GatheredAll<R>(pending: seq<string>, fetch: string -> Result<seq<R>, string>, i: int, row: R)
    requires !Fails(pending, fetch) && 0 <= i < |pending| && row in fetch(pending[i]).value
    ensures row in Gathered(pending, fetch)
    decreases |pending|
  {
    if i > 0 {
      assert pending[1..][i - 1] == pending[i];
      GatheredAll(pending[1..], fetch, i - 1, row);
    }
  }

  /**
   * The table after one sync: the stored rows first, unchanged, then what
   * was fetched for the ids not yet recorded; only such rows are added.
   */
  function Synced<R>(rows: seq<R>, key: R -> Option<string>, ids: seq<string>, fetch: string -> Result<seq<R>, string>): (r: seq<R>)
    ensures |rows| <= |r| && r[..|rows|] == rows
    ensures forall k :: |rows| <= k < |r| ==>
      exists g :: g in ids && g !in Recorded(rows, key) && fetch(g).Success? && r[k] in fetch(g).value
  {
    var pending := Pending(ids, Recorded(rows, key));
    var added := Gathered(pending, fetch);
    GatheredFrom(pending, fetch);
    assert forall k :: |rows| <= k < |rows + added| ==>
      exists g :: g in ids && g !in Recorded(rows, key) && fetch(g).Success? && (rows + added)[k] in fetch(g).value
    by {
      forall k | |rows| <= k < |rows + added|
        ensures exists g :: g in ids && g !in Recorded(rows, key) && fetch(g).Success? && (rows + added)[k] in fetch(g).value
      {
        assert (rows + added)[k] == added[k - |rows|];
        var i :| 0 <= i < |pending| && fetch(pending[i]).Success? && added[k - |rows|] in fetch(pending[i]).value;
        assert pending[i] in pending;
      }
    }
    rows + added
  }

  /** A fetch that yields at least one row carrying the id it was asked for. */
  predicate Stamps<R>(fetch: string -> Result<seq<R>, string>, key: R -> Option<string>, g: string)
  {
    fetch(g).Success? && exists k :: 0 <= k < |fetch(g).value| && key(fetch(g).value[k]) == Some(g)
  }

  /**
   * Lines 172, 200 and 228: once every id asked for yields rows carrying
   * it, a second sync with the same ids fetches nothing and adds nothing.
   */
  lemma SyncIdempotent<R>(rows: seq<R>, key: R -> Option<string>, ids: seq<string>, fetch: string -> Result<seq<R>, string>)
    requires forall g :: g in ids ==> Stamps(fetch, key, g)
    ensures var once := Synced(rows, key, ids, fetch);
      Pending(ids, Recorded(once, key)) == [] && Synced(once, key, ids, fetch) == once
  {
    var pending := Pending(ids, Recorded(rows, key));
    var once := Synced(rows, key, ids, fetch);
    assert once == rows + Gathered(pending, fetch);
    assert !Fails(pending, fetch) by {
      forall i | 0 <= i < |pending| ensures fetch(pending[i]).Success? {
        assert pending[i] in pending;
      }
    }
    forall g | g in ids ensures g in Recorded(once, key) {
      if g in Recorded(rows, key) {
        var k :| 0 <= k < |rows| && key(rows[k]) == Some(g);
        assert once[k] == rows[k];
      } else {
        var i :| 0 <= i < |pending| && pending[i] == g;
        var m :| 0 <= m < |fetch(g).value| && key(fetch(g).value[m]) == Some(g);
        GatheredAll(pending, fetch, i, fetch(g).value[m]);
        var j :| 0 <= j < |Gathered(pending, fetch)| && Gathered(pending, fetch)[j] == fetch(g).value[m];
        assert once[|rows| + j] == fetch(g).value[m];
      }
    }
    var again := Pending(ids, Recorded(once, key));
    PendingNone(ids, Recorded(once, key));
    assert Synced(once, key, ids, fetch) == once + Gathered(again, fetch);
  }

  /** An id whose fetch yields no row carrying it stays pending, and is fetched again next time. */
  lemma UnstampedRefetched<R>(rows: seq<R>, key: R -> Option<string>, ids: seq<string>,
                              fetch: string -> Result<seq<R>, string>, g: string)
    requires g in ids && g !in Recorded(rows, key)
    requires forall h, k :: h in ids && fetch(h).Success? && 0 <= k < |fetch(h).value| ==> key(fetch(h).value[k]) != Some(g)
    ensures g in Pending(ids, Recorded(Synced(rows, key, ids, fetch), key))
  {
  }

  /**
   * Lines 168-172 as written: `.squeeze()` turns the one-column frame of
   * distinct ids into a bare value when it has exactly one row, and
   * `Series.isin` raises on a value that is not list-like.
   */
  function SqueezedRecorded<R>(rows: seq<R>, key: R -> Option<string>): (r: Result<set<string>, string>)
    ensures r.Failure? <==> |set k | 0 <= k < |rows| :: key(rows[k])| == 1
    ensures r.Success? ==> r.value == Recorded(rows, key)
  {
    var distinct := set k | 0 <= k < |rows| :: key(rows[k]);
    if |distinct| == 1 then Failure("TypeError: only list-like objects are allowed to be passed to isin()")
    else Success(Recorded(rows, key))
  }

  /**
   * A first sync into an empty table of a single game whose fetch yields
   * rows carrying its id leaves a table on which the read as written
   * raises, so every later sync fails; the set of recorded ids is that game.
   */
  lemma SingleGameBlocks<R>(key: R -> Option<string>, g: string, fetch: string -> Result<seq<R>, string>)
    requires fetch(g).Success? && fetch(g).value != []
    requires forall k :: 0 <= k < |fetch(g).value| ==> key(fetch(g).value[k]) == Some(g)
    ensures SqueezedRecorded(Synced([], key, [g], fetch), key).Failure?
    ensures Recorded(Synced([], key, [g], fetch), key) == {g}
  {
    var once := Synced([], key, [g], fetch);
    assert Pending([g], Recorded([], key)) == [g];
    assert Gathered([g], fetch) == fetch(g).value + Gathered([], fetch);
    assert once == fetch(g).value;
    var distinct := set k | 0 <= k < |once| :: key(once[k]);
    assert distinct == {Some(g)} by {
      assert key(once[0]) in distinct;
    }
    assert Recorded(once, key) == {g} by {
      assert key(once[0]) == Some(g);
    }
  }

  /** One of the three per-game tables. */
  class GameTable<R> {
    var rows: seq<R>
    /** Reads a row's `game_id` cell; None is a null id. */
    const key: R -> Option<string>

    constructor (key: R -> Option<string>)
      ensures rows == [] && this.key == key
    {
      rows := [];
      this.key := key;
    }

    /**
     * Lines 168-179 (and 196-207, 224-236), the recorded ids read as a set:
     * the ids not yet recorded are fetched in the order asked and their rows
     * appended; a fetch that raises stops the sync with what was appended
     * before it kept.
     */
    method Sync(ids: seq<string>, fetch: string -> Result<seq<R>, string>) returns (r: Result<(), string>)
      modifies this
      ensures rows == Synced(old(rows), key, ids, fetch)
      ensures r.Failure? <==> Fails(Pending(ids, Recorded(old(rows), key)), fetch)
    {
      var unrecorded := Pending(ids, Recorded(rows, key));
      ghost var goal := Synced(rows, key, ids, fetch);
      assert goal == rows + Gathered(unrecorded, fetch);
      var i := 0;
      while i < |unrecorded|
        invariant 0 <= i <= |unrecorded|
        invariant goal == rows + Gathered(unrecorded[i..], fetch)
        invariant forall m :: 0 <= m < i ==> fetch(unrecorded[m]).Success?
      {
        var fetched := fetch(unrecorded[i]);
        GatheredStep(unrecorded, i, fetch);
        if fetched.Failure? {
          return Failure(fetched.error);
        }
        ConcatAssoc(rows, fetched.value, Gathered(unrecorded[i + 1..], fetch));
        rows := rows + fetched.value;
        i := i + 1;
      }
      return Success(());
    }
  }

  /** The `game_id` cell of a boxscore row, when it holds text. */
  function BoxscoreId(row: Frames.Row): Option<string>
  {
    match Frames.Get(row, "game_id")
    case Text(s) => Some(s)
    case _ => None
  }

  /** The database the job keeps up to date. */
  class Database {
    var schedule: seq<Scheduled>
    const boxscore: GameTable<Frames.Row>
    const plusMinus: GameTable<PlusMinus.Row>
    const playByPlay: GameTable<PlayByPlay.Row>

    /** Line 43: the schedule's unique (game_id, team) constraint. */
    ghost predicate Valid()
      reads this
    {
      Unique(schedule)
    }

    /** Lines 19-112 on a fresh database: four empty tables. */
    constructor ()
      ensures Valid()
      ensures schedule == [] && fresh(boxscore) && fresh(plusMinus) && fresh(playByPlay)
      ensures boxscore.rows == [] && plusMinus.rows == [] && playByPlay.rows == []
    {
      schedule := [];
      boxscore := new GameTable(BoxscoreId);
      plusMinus := new GameTable((row: PlusMinus.Row) => Some(row.gameId));
      playByPlay := new GameTable((row: PlayByPlay.Row) => Some(row.gameId));
    }

    /**
     * Lines 115-151. The season to restart from is the latest stored (or
     * `start`, the caller's `start_season`, 2003 unless given); its rows
     * are deleted, every season from it through
     * `current` is pulled team by team, and the distinct ids of games with
     * an outcome are returned.
     */
    method UpdateSchedules(current: int, start: int, teamsOf: int -> Result<seq<string>, string>,
                           scheduleOf: (string, int) -> Result<seq<Schedule.Game>, string>)
      returns (r: Result<seq<Option<string>>, string>)
      requires Valid()
      modifies this
      ensures Valid()
      ensures var restart := Restart(old(schedule), start);
        Sweep(Without(old(schedule), restart), restart, current, teamsOf, scheduleOf)
          == Pass(schedule, if r.Failure? then Some(r.error) else None)
      ensures r.Success? ==> r.value == Completed(schedule)
      ensures forall x :: x in old(schedule) && x.season != Restart(old(schedule), start) ==> x in schedule
      ensures var kept := Without(old(schedule), Restart(old(schedule), start));
        Extends(kept, schedule) &&
        forall k :: |kept| <= k < |schedule| ==>
          Restart(old(schedule), start) <= schedule[k].season <= current && FromPage(schedule[k], teamsOf, scheduleOf)
      ensures r.Success? ==> forall s :: Restart(old(schedule), start) <= s <= current ==> Pulled(schedule, s, teamsOf, scheduleOf)
    {
      var restart := Restart(schedule, start);
      WithoutUnique(schedule, restart);
      schedule := Without(schedule, restart);
      ghost var kept := schedule;
      SweepUnique(kept, restart, current, teamsOf, scheduleOf);
      SweepGrows(kept, restart, current, teamsOf, scheduleOf);
      SweepComplete(kept, restart, current, teamsOf, scheduleOf);
      var error := PullSeasons(restart, current, teamsOf, scheduleOf);
      KeptRows(old(schedule), kept, schedule, restart);
      if error.Some? {
        return Failure(error.value);
      }
      r := Success(Completed(schedule));
    }

    /**
     * Lines 141-146: for each season from `season` through `current`, each
     * listed team's schedule is fetched, stamped and appended; the first
     * listing, fetch or insert that raises stops the loop.
     */
    method PullSeasons(season: int, current: int, teamsOf: int -> Result<seq<string>, string>,
                       scheduleOf: (string, int) -> Result<seq<Schedule.Game>, string>)
      returns (error: Option<string>)
      modifies this
      ensures Sweep(old(schedule), season, current, teamsOf, scheduleOf) == Pass(schedule, error)
    {
      ghost var sweep := Sweep(schedule, season, current, teamsOf, scheduleOf);
      var s := season;
      while s <= current
        invariant sweep == Sweep(schedule, s, current, teamsOf, scheduleOf)
        decreases current + 1 - s
      {
        var teams := teamsOf(s);
        if teams.Failure? {
          return Some(teams.error);
        }
        var j := 0;
        while j < |teams.value|
          invariant 0 <= j <= |teams.value|
          invariant sweep == (var p := AddTeams(schedule, s, teams.value[j..], scheduleOf);
                              if p.error.Some? then p else Sweep(p.table, s + 1, current, teamsOf, scheduleOf))
        {
          assert teams.value[j..][0] == teams.value[j];
          assert teams.value[j..][1..] == teams.value[j + 1..];
          var games := scheduleOf(teams.value[j], s);
          if games.Failure? {
            return Some(games.error);
          }
          var appended := Append(schedule, Stamp(s, games.value));
          if appended.Failure? {
            return Some(appended.error);
          }
          schedule := appended.value;
          j := j + 1;
        }
        assert teams.value[j..] == [];
        s := s + 1;
      }
      return None;
    }

    /** Lines 154-179. */
    method UpdateBoxscores(ids: seq<string>, fetch: string -> Result<seq<Frames.Row>, string>) returns (r: Result<(), string>)
      requires Valid()
      modifies boxscore
      ensures Valid()
      ensures boxscore.rows == Synced(old(boxscore.rows), boxscore.key, ids, fetch)
      ensures r.Failure? <==> Fails(Pending(ids, Recorded(old(boxscore.rows), boxscore.key)), fetch)
    {
      r := boxscore.Sync(ids, fetch);
    }

    /** Lines 182-207. */
    method UpdatePlusMinus(ids: seq<string>, fetch: string -> Result<seq<PlusMinus.Row>, string>) returns (r: Result<(), string>)
      requires Valid()
      modifies plusMinus
      ensures Valid()
      ensures plusMinus.rows == Synced(old(plusMinus.rows), plusMinus.key, ids, fetch)
      ensures r.Failure? <==> Fails(Pending(ids, Recorded(old(plusMinus.rows), plusMinus.key)), fetch)
    {
      r := plusMinus.Sync(ids, fetch);
    }

    /** Lines 210-236. */
    method UpdatePlayByPlay(ids: seq<string>, fetch: string -> Result<seq<PlayByPlay.Row>, string>) returns (r: Result<(), string>)
      requires Valid()
      modifies playByPlay
      ensures Valid()
      ensures playByPlay.rows == Synced(old(playByPlay.rows), playByPlay.key, ids, fetch)
      ensures r.Failure? <==> Fails(Pending(ids, Recorded(old(playByPlay.rows), playByPlay.key)), fetch)
    {
      r := playByPlay.Sync(ids, fetch);
    }
  }
}
