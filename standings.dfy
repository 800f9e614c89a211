/**
 * The standings engine of src/hooks/useChampionshipData.ts: the id lookups, the two
 * aggregation passes that fill a map of counters, and the rank-and-number chain.
 *
 * The counters are kept, as in the source, in a map keyed by driver id (or team id), so
 * drivers sharing an id share counters exactly as the source's Map makes them.
 * Only the race table `pointsSystem.race` is ever read here: the sprint table and the
 * fastest-lap bonus play no part in the standings.
 */
module Standings {
  import opened Championship
  import opened Ranking

  /** `Array.prototype.find`: the first element satisfying `pred`, if any. */
  function Find<T>(s: seq<T>, pred: T -> bool): (r: Option<T>)
    ensures r.None? <==> forall i :: 0 <= i < |s| ==> !pred(s[i])
    ensures r.Some? ==> exists i :: 0 <= i < |s| && s[i] == r.value && pred(s[i]) && forall j :: 0 <= j < i ==> !pred(s[j])
  {
    if s == [] then None
    else if pred(s[0]) then Some(s[0])
    else
      var r := Find(s[1..], pred);
      assert r.Some? ==> exists i :: 0 <= i < |s[1..]| && s[1..][i] == r.value && pred(s[1..][i]) && forall j :: 0 <= j < i ==> !pred(s[1..][j]);
      assert r.Some? ==> exists i :: 1 <= i < |s| && s[i] == r.value && pred(s[i]) && forall j :: 1 <= j < i ==> !pred(s[j]);
      r
  }

  /** `getTeamById`: the first team of the dataset with that id; nothing when no data is loaded. */
  function GetTeamById(data: Option<ChampionshipData>, teamId: string): (r: Option<Team>)
    ensures r.None? <==> data.None? || forall t :: t in data.value.teams ==> t.id != teamId
    ensures r.Some? ==> data.Some? && r.value.id == teamId
    ensures r.Some? ==> exists i :: 0 <= i < |data.value.teams| && data.value.teams[i] == r.value &&
                                    forall j :: 0 <= j < i ==> data.value.teams[j].id != teamId
  {
    if data.None? then None else Find(data.value.teams, (t: Team) => t.id == teamId)
  }

  /** `getDriverById`: the first driver of the dataset with that id; nothing when no data is loaded. */
  function GetDriverById(data: Option<ChampionshipData>, driverId: int): (r: Option<Driver>)
    ensures r.None? <==> data.None? || forall x :: x in data.value.drivers ==> x.id != driverId
    ensures r.Some? ==> data.Some? && r.value.id == driverId
    ensures r.Some? ==> exists i :: 0 <= i < |data.value.drivers| && data.value.drivers[i] == r.value &&
                                    forall j :: 0 <= j < i ==> data.value.drivers[j].id != driverId
  {
    if data.None? then None else Find(data.value.drivers, (x: Driver) => x.id == driverId)
  }

  // ---------------------------------------------------------------------------------
  // Counters and what they must add up to

  /** The counter record of one driver in calculateDriverStandings. */
  datatype DriverTally = DriverTally(points: int, wins: nat, podiums: nat)

  /** The counter record of one team in calculateConstructorStandings. */
  datatype TeamTally = TeamTally(points: int, wins: nat)

  const NoDriverTally := DriverTally(0, 0, 0)
  const NoTeamTally := TeamTally(0, 0)

  function AddDriverTally(a: DriverTally, b: DriverTally): DriverTally
  {
    DriverTally(a.points + b.points, a.wins + b.wins, a.podiums + b.podiums)
  }

  function AddTeamTally(a: TeamTally, b: TeamTally): TeamTally
  {
    TeamTally(a.points + b.points, a.wins + b.wins)
  }

  /** `pointsSystem.race[position]` is truthy: the position is in the table and awards non-zero points. */
  predicate Scores(table: seq<int>, p: nat)
  {
    p < |table| && table[p] != 0
  }

  /** What finishing position `p` adds to its driver: the points, a win at 0, a podium below 3. */
  function DriverCredit(table: seq<int>, p: nat): DriverTally
    requires Scores(table, p)
  {
    DriverTally(table[p], if p == 0 then 1 else 0, if p < 3 then 1 else 0)
  }

  /** What finishing position `p` adds to its driver's team: the points and a win at 0. */
  function TeamCredit(table: seq<int>, p: nat): TeamTally
    requires Scores(table, p)
  {
    TeamTally(table[p], if p == 0 then 1 else 0)
  }

  /** Sum of the credits of the positions in `race` held by `driverId` that score. */
  function RaceDriverTally(race: seq<int>, table: seq<int>, driverId: int): DriverTally
  {
    if race == [] then NoDriverTally
    else
      var p := |race| - 1;
      var before := RaceDriverTally(race[..p], table, driverId);
      if race[p] == driverId && Scores(table, p) then AddDriverTally(before, DriverCredit(table, p)) else before
  }

  /** Sum of RaceDriverTally over the finishing orders of all results. */
  function SeasonDriverTally(results: seq<RaceResult>, table: seq<int>, driverId: int): DriverTally
  {
    if results == [] then NoDriverTally
    else
      var n := |results| - 1;
      AddDriverTally(SeasonDriverTally(results[..n], table, driverId), RaceDriverTally(results[n].race, table, driverId))
  }

  /** The finisher `driverId` is credited to team `teamId`: the first driver with that id is in that team. */
  predicate DrivesFor(d: ChampionshipData, driverId: int, teamId: string)
  {
    var driver := GetDriverById(Some(d), driverId);
    driver.Some? && driver.value.team == teamId
  }

  /** Sum of the credits of the positions in `race` that score and whose finisher drives for `teamId`. */
  function RaceTeamTally(d: ChampionshipData, race: seq<int>, teamId: string): TeamTally
  {
    if race == [] then NoTeamTally
    else
      var p := |race| - 1;
      var before := RaceTeamTally(d, race[..p], teamId);
      if DrivesFor(d, race[p], teamId) && Scores(d.pointsSystem.race, p) then
        AddTeamTally(before, TeamCredit(d.pointsSystem.race, p))
      else before
  }

  /** Sum of RaceTeamTally over the finishing orders of `results`. */
  function SeasonTeamTally(d: ChampionshipData, results: seq<RaceResult>, teamId: string): TeamTally
  {
    if results == [] then NoTeamTally
    else
      var n := |results| - 1;
      AddTeamTally(SeasonTeamTally(d, results[..n], teamId), RaceTeamTally(d, results[n].race, teamId))
  }

  // ---------------------------------------------------------------------------------
  // Eligibility

  predicate IsActive(x: Driver)
  {
    x.estado != Expiloto
  }

  /** `drivers.filter(driver => driver.estado != "Expiloto")`. */
  function ActiveDrivers(drivers: seq<Driver>): (r: seq<Driver>)
    ensures |r| <= |drivers|
    ensures forall x :: x in r <==> x in drivers && IsActive(x)
    ensures forall x :: multiset(r)[x] == if IsActive(x) then multiset(drivers)[x] else 0
  {
    if drivers == [] then []
    else
      assert drivers == [drivers[0]] + drivers[1..];
      (if IsActive(drivers[0]) then [drivers[0]] else []) + ActiveDrivers(drivers[1..])
  }

  /** The ids the driver counters are seeded with. */
  function ActiveIds(drivers: seq<Driver>): set<int>
  {
    set x | x in drivers && IsActive(x) :: x.id
  }

  function TeamIds(teams: seq<Team>): set<string>
  {
    set t | t in teams :: t.id
  }

  // ---------------------------------------------------------------------------------
  // Aggregation

  lemma ActiveIdsSnoc(drivers: seq<Driver>, i: nat)
    requires i < |drivers|
    ensures ActiveIds(drivers[..i + 1]) ==
      ActiveIds(drivers[..i]) + (if IsActive(drivers[i]) then {drivers[i].id} else {})
  {
    assert drivers[..i + 1] == drivers[..i] + [drivers[i]];
  }

  lemma TeamIdsSnoc(teams: seq<Team>, i: nat)
    requires i < |teams|
    ensures TeamIds(teams[..i + 1]) == TeamIds(teams[..i]) + {teams[i].id}
  {
    assert teams[..i + 1] == teams[..i] + [teams[i]];
  }

  /** `drivers.filter(active).forEach(driver => standings.set(driver.id, zero))` */
  method SeedDrivers(drivers: seq<Driver>) returns (standings: map<int, DriverTally>)
    ensures standings.Keys == ActiveIds(drivers)
    ensures forall id :: id in standings ==> standings[id] == NoDriverTally
  {
    standings := map[];
    var i := 0;
    while i < |drivers|
      invariant 0 <= i <= |drivers|
      invariant standings.Keys == ActiveIds(drivers[..i])
      invariant forall id :: id in standings ==> standings[id] == NoDriverTally
    {
      ActiveIdsSnoc(drivers, i);
      var driver := drivers[i];
      if IsActive(driver) {
        standings := standings[driver.id := NoDriverTally];
      }
      i := i + 1;
    }
    assert drivers[..i] == drivers;
  }

  /** `result.race.forEach(...)` of calculateDriverStandings: credits each scoring finish of one race. */
  method CreditRaceToDrivers(standings: map<int, DriverTally>, race: seq<int>, table: seq<int>)
    returns (updated: map<int, DriverTally>)
    ensures updated.Keys == standings.Keys
    ensures forall id :: id in updated ==> updated[id] == AddDriverTally(standings[id], RaceDriverTally(race, table, id))
  {
    updated := standings;
    var position := 0;
    while position < |race|
      invariant 0 <= position <= |race|
      invariant updated.Keys == standings.Keys
      invariant forall id :: id in updated ==>
        updated[id] == AddDriverTally(standings[id], RaceDriverTally(race[..position], table, id))
    {
      var driverId := race[position];
      assert race[..position + 1][..position] == race[..position];
      if driverId in updated && position < |table| && table[position] != 0 {
        var current := updated[driverId];
        var points, wins, podiums := current.points + table[position], current.wins, current.podiums;
        if position == 0 { wins := wins + 1; }
        if position < 3 { podiums := podiums + 1; }
        updated := updated[driverId := DriverTally(points, wins, podiums)];
      }
      position := position + 1;
    }
    assert race[..position] == race;
  }

  /** The counting part of calculateDriverStandings: seed, then add up every scoring finish of every result. */
  method TallyDrivers(d: ChampionshipData) returns (standings: map<int, DriverTally>)
    ensures standings.Keys == ActiveIds(d.drivers)
    ensures forall id :: id in standings ==> standings[id] == SeasonDriverTally(d.results, d.pointsSystem.race, id)
  {
    standings := SeedDrivers(d.drivers);
    var r := 0;
    while r < |d.results|
      invariant 0 <= r <= |d.results|
      invariant standings.Keys == ActiveIds(d.drivers)
      invariant forall id :: id in standings ==> standings[id] == SeasonDriverTally(d.results[..r], d.pointsSystem.race, id)
    {
      assert d.results[..r + 1][..r] == d.results[..r];
      standings := CreditRaceToDrivers(standings, d.results[r].race, d.pointsSystem.race);
      r := r + 1;
    }
    assert d.results[..r] == d.results;
  }

  /** `data.teams.forEach(team => standings.set(team.id, zero))` */
  method SeedTeams(teams: seq<Team>) returns (standings: map<string, TeamTally>)
    ensures standings.Keys == TeamIds(teams)
    ensures forall id :: id in standings ==> standings[id] == NoTeamTally
  {
    standings := map[];
    var i := 0;
    while i < |teams|
      invariant 0 <= i <= |teams|
      invariant standings.Keys == TeamIds(teams[..i])
      invariant forall id :: id in standings ==> standings[id] == NoTeamTally
    {
      TeamIdsSnoc(teams, i);
      standings := standings[teams[i].id := NoTeamTally];
      i := i + 1;
    }
    assert teams[..i] == teams;
  }

  /** The `forEach` callback of calculateConstructorStandings for the finisher at `position`. */
  method CreditFinishToTeam(d: ChampionshipData, standings: map<string, TeamTally>, race: seq<int>, position: nat)
    returns (updated: map<string, TeamTally>)
    requires position < |race|
    ensures updated.Keys == standings.Keys
    ensures forall id :: id in updated ==>
      updated[id] == if DrivesFor(d, race[position], id) && Scores(d.pointsSystem.race, position)
                     then AddTeamTally(standings[id], TeamCredit(d.pointsSystem.race, position))
                     else standings[id]
  {
    var table := d.pointsSystem.race;
    updated := standings;
    var driver := GetDriverById(Some(d), race[position]);
    if driver.Some? {
      var teamId := driver.value.team;
      if teamId in updated && position < |table| && table[position] != 0 {
        var current := updated[teamId];
        var points, wins := current.points + table[position], current.wins;
        if position == 0 { wins := wins + 1; }
        updated := updated[teamId := TeamTally(points, wins)];
      }
      assert forall id :: DrivesFor(d, race[position], id) <==> id == teamId;
    } else {
      assert forall id :: !DrivesFor(d, race[position], id);
    }
  }

  /** `result.race.forEach(...)` of calculateConstructorStandings: credits each scoring finish to the finisher's team. */
  method CreditRaceToTeams(d: ChampionshipData, standings: map<string, TeamTally>, race: seq<int>)
    returns (updated: map<string, TeamTally>)
    ensures updated.Keys == standings.Keys
    ensures forall id :: id in updated ==> updated[id] == AddTeamTally(standings[id], RaceTeamTally(d, race, id))
  {
    updated := standings;
    var position := 0;
    while position < |race|
      invariant 0 <= position <= |race|
      invariant updated.Keys == standings.Keys
      invariant forall id :: id in updated ==>
        updated[id] == AddTeamTally(standings[id], RaceTeamTally(d, race[..position], id))
    {
      assert race[..position + 1][..position] == race[..position];
      updated := CreditFinishToTeam(d, updated, race, position);
      position := position + 1;
    }
    assert race[..position] == race;
  }

  /** The counting part of calculateConstructorStandings. */
  method TallyTeams(d: ChampionshipData) returns (standings: map<string, TeamTally>)
    ensures standings.Keys == TeamIds(d.teams)
    ensures forall id :: id in standings ==> standings[id] == SeasonTeamTally(d, d.results, id)
  {
    standings := SeedTeams(d.teams);
    var r := 0;
    while r < |d.results|
      invariant 0 <= r <= |d.results|
      invariant standings.Keys == TeamIds(d.teams)
      invariant forall id :: id in standings ==> standings[id] == SeasonTeamTally(d, d.results[..r], id)
    {
      assert d.results[..r + 1][..r] == d.results[..r];
      standings := CreditRaceToTeams(d, standings, d.results[r].race);
      r := r + 1;
    }
    assert d.results[..r] == d.results;
  }

  // ---------------------------------------------------------------------------------
  // Ranking

  function DriverScore(row: DriverStanding): Score
  {
    Score(row.points, row.wins)
  }

  function TeamScore(row: ConstructorStanding): Score
  {
    Score(row.points, row.wins)
  }

  function DriverOf(row: DriverStanding): Driver
  {
    row.driver
  }

  function TeamOf(row: ConstructorStanding): Team
  {
    row.team
  }

  /** The unranked row of an active driver, read from the counters (zero when missing). */
  function DriverRow(d: ChampionshipData, standings: map<int, DriverTally>, driver: Driver): DriverStanding
  {
    var stats := if driver.id in standings then standings[driver.id] else NoDriverTally;
    DriverStanding(driver, GetTeamById(Some(d), driver.team), stats.points, stats.wins, stats.podiums, 0)
  }

  /** `drivers.filter(active).map(...)`: one unranked row per active driver, in dataset order. */
  function DriverRows(d: ChampionshipData, standings: map<int, DriverTally>): seq<DriverStanding>
  {
    var active := ActiveDrivers(d.drivers);
    seq(|active|, i requires 0 <= i < |active| => DriverRow(d, standings, active[i]))
  }

  function TeamRow(standings: map<string, TeamTally>, team: Team): ConstructorStanding
  {
    var stats := if team.id in standings then standings[team.id] else NoTeamTally;
    ConstructorStanding(team, stats.points, stats.wins, 0)
  }

  /** `teams.map(...)`: one unranked row per team, in dataset order. */
  function TeamRows(d: ChampionshipData, standings: map<string, TeamTally>): seq<ConstructorStanding>
  {
    seq(|d.teams|, i requires 0 <= i < |d.teams| => TeamRow(standings, d.teams[i]))
  }

  /** `.map((standing, index) => ({ ...standing, position: index + 1 }))` */
  function NumberDriverRows(rows: seq<DriverStanding>): seq<DriverStanding>
  {
    seq(|rows|, i requires 0 <= i < |rows| => rows[i].(position := i + 1))
  }

  function NumberTeamRows(rows: seq<ConstructorStanding>): seq<ConstructorStanding>
  {
    seq(|rows|, i requires 0 <= i < |rows| => rows[i].(position := i + 1))
  }

  /** The counters calculateDriverStandings ends up with: one per active driver id. */
  function DriverTallies(d: ChampionshipData): map<int, DriverTally>
  {
    map id | id in ActiveIds(d.drivers) :: SeasonDriverTally(d.results, d.pointsSystem.race, id)
  }

  /** The counters calculateConstructorStandings ends up with: one per team id. */
  function TeamTallies(d: ChampionshipData): map<string, TeamTally>
  {
    map id | id in TeamIds(d.teams) :: SeasonTeamTally(d, d.results, id)
  }

  /** The rank-and-number chain of calculateDriverStandings over the counters `standings`. */
  function DriverTable(d: ChampionshipData, standings: map<int, DriverTally>): seq<DriverStanding>
  {
    NumberDriverRows(SortByScore(DriverRows(d, standings), DriverScore))
  }

  /** The rank-and-number chain of calculateConstructorStandings over the counters `standings`. */
  function TeamTable(d: ChampionshipData, standings: map<string, TeamTally>): seq<ConstructorStanding>
  {
    NumberTeamRows(SortByScore(TeamRows(d, standings), TeamScore))
  }

  /** The driver standings of a loaded dataset. */
  function DriverStandingsOf(d: ChampionshipData): seq<DriverStanding>
  {
    DriverTable(d, DriverTallies(d))
  }

  /** The constructor standings of a loaded dataset. */
  function ConstructorStandingsOf(d: ChampionshipData): seq<ConstructorStanding>
  {
    TeamTable(d, TeamTallies(d))
  }

  /** `calculateDriverStandings`: empty without data, otherwise the ranked rows of the active drivers. */
  method CalculateDriverStandings(data: Option<ChampionshipData>) returns (rows: seq<DriverStanding>)
    ensures data.None? ==> rows == []
    ensures data.Some? ==> rows == DriverStandingsOf(data.value)
  {
    if data.None? {
      return [];
    }
    var d := data.value;
    var standings := TallyDrivers(d);
    assert standings == DriverTallies(d);
    rows := DriverTable(d, standings);
  }

  /** `calculateConstructorStandings`: empty without data, otherwise the ranked rows of all teams. */
  method CalculateConstructorStandings(data: Option<ChampionshipData>) returns (rows: seq<ConstructorStanding>)
    ensures data.None? ==> rows == []
    ensures data.Some? ==> rows == ConstructorStandingsOf(data.value)
  {
    if data.None? {
      return [];
    }
    var d := data.value;
    var standings := TallyTeams(d);
    assert standings == TeamTallies(d);
    rows := TeamTable(d, standings);
  }
}
