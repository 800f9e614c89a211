/** What the driver and constructor standings promise, proved about DriverStandingsOf and ConstructorStandingsOf. */
module StandingsProperties {
  import opened Championship
  import opened Ranking
  import opened Standings

  // ---------------------------------------------------------------------------------
  // Who has a row

  /** The driver rows are a rearrangement of the active drivers: every active driver once, nobody else. */
  lemma DriverStandingsListActiveDrivers(d: ChampionshipData)
    ensures |DriverStandingsOf(d)| == |ActiveDrivers(d.drivers)|
    ensures multiset(Project(DriverStandingsOf(d), DriverOf)) == multiset(ActiveDrivers(d.drivers))
    ensures forall x :: x in Project(DriverStandingsOf(d), DriverOf) <==> x in d.drivers && x.estado != Expiloto
  {
    var unranked := DriverRows(d, DriverTallies(d));
    var sorted := SortByScore(unranked, DriverScore);
    SortProject(unranked, DriverScore, DriverOf);
    NumberingKeepsDrivers(sorted);
    DriverRowsFollowActiveDrivers(d, DriverTallies(d));
    forall x ensures x in Project(DriverStandingsOf(d), DriverOf) <==> x in d.drivers && x.estado != Expiloto {
      assert x in Project(DriverStandingsOf(d), DriverOf) <==> x in multiset(ActiveDrivers(d.drivers));
    }
  }

  lemma NumberingKeepsDrivers(rows: seq<DriverStanding>)
    ensures Project(NumberDriverRows(rows), DriverOf) == Project(rows, DriverOf)
  {
  }

  lemma DriverRowsFollowActiveDrivers(d: ChampionshipData, standings: map<int, DriverTally>)
    ensures Project(DriverRows(d, standings), DriverOf) == ActiveDrivers(d.drivers)
  {
  }

  lemma DriverRowHoldsActiveDriver(d: ChampionshipData, standings: map<int, DriverTally>, a: nat)
    requires a < |ActiveDrivers(d.drivers)|
    ensures DriverRows(d, standings)[a].driver == ActiveDrivers(d.drivers)[a]
  {
  }

  /** The driver standings depend on the dataset only through its drivers, its teams and the counters. */
  lemma DriverStandingsFromTallies(d: ChampionshipData, d': ChampionshipData)
    requires d'.drivers == d.drivers && d'.teams == d.teams && DriverTallies(d') == DriverTallies(d)
    ensures DriverStandingsOf(d') == DriverStandingsOf(d)
  {
    forall id ensures GetTeamById(Some(d'), id) == GetTeamById(Some(d), id) {
    }
    assert DriverRows(d', DriverTallies(d')) == DriverRows(d, DriverTallies(d));
  }

  /** The constructor standings depend on the dataset only through its teams and the counters. */
  lemma ConstructorStandingsFromTallies(d: ChampionshipData, d': ChampionshipData)
    requires d'.teams == d.teams && TeamTallies(d') == TeamTallies(d)
    ensures ConstructorStandingsOf(d') == ConstructorStandingsOf(d)
  {
    assert TeamRows(d', TeamTallies(d')) == TeamRows(d, TeamTallies(d));
  }

  /** The constructor rows are a rearrangement of the teams of the dataset. */
  lemma ConstructorStandingsListTeams(d: ChampionshipData)
    ensures |ConstructorStandingsOf(d)| == |d.teams|
    ensures multiset(Project(ConstructorStandingsOf(d), TeamOf)) == multiset(d.teams)
  {
    var unranked := TeamRows(d, TeamTallies(d));
    var sorted := SortByScore(unranked, TeamScore);
    SortProject(unranked, TeamScore, TeamOf);
    NumberingKeepsTeams(sorted);
    TeamRowsFollowTeams(d, TeamTallies(d));
  }

  lemma NumberingKeepsTeams(rows: seq<ConstructorStanding>)
    ensures Project(NumberTeamRows(rows), TeamOf) == Project(rows, TeamOf)
  {
  }

  lemma TeamRowsFollowTeams(d: ChampionshipData, standings: map<string, TeamTally>)
    ensures Project(TeamRows(d, standings), TeamOf) == d.teams
  {
  }

  // ---------------------------------------------------------------------------------
  // Positions and order

  lemma DriverStandingsPositions(d: ChampionshipData)
    ensures forall i :: 0 <= i < |DriverStandingsOf(d)| ==> DriverStandingsOf(d)[i].position == i + 1
  {
  }

  lemma ConstructorStandingsPositions(d: ChampionshipData)
    ensures forall i :: 0 <= i < |ConstructorStandingsOf(d)| ==> ConstructorStandingsOf(d)[i].position == i + 1
  {
  }

  /** Points never increase down the table; among equal points, wins never increase. */
  lemma DriverStandingsOrdered(d: ChampionshipData)
    ensures forall i, j :: 0 <= i < j < |DriverStandingsOf(d)| ==>
      var a, b := DriverStandingsOf(d)[i], DriverStandingsOf(d)[j];
      a.points > b.points || (a.points == b.points && a.wins >= b.wins)
  {
    var sorted := SortByScore(DriverRows(d, DriverTallies(d)), DriverScore);
    forall i, j | 0 <= i < j < |DriverStandingsOf(d)|
      ensures var a, b := DriverStandingsOf(d)[i], DriverStandingsOf(d)[j];
        a.points > b.points || (a.points == b.points && a.wins >= b.wins)
    {
      DriverStandingAt(d, i);
      DriverStandingAt(d, j);
      assert !Outranks(DriverScore(sorted[j]), DriverScore(sorted[i]));
    }
  }

  lemma ConstructorStandingsOrdered(d: ChampionshipData)
    ensures forall i, j :: 0 <= i < j < |ConstructorStandingsOf(d)| ==>
      var a, b := ConstructorStandingsOf(d)[i], ConstructorStandingsOf(d)[j];
      a.points > b.points || (a.points == b.points && a.wins >= b.wins)
  {
    var sorted := SortByScore(TeamRows(d, TeamTallies(d)), TeamScore);
    assert forall i :: 0 <= i < |sorted| ==> TeamScore(ConstructorStandingsOf(d)[i]) == TeamScore(sorted[i]);
  }

  /** The row at index `i` is the `i`-th sorted row, numbered. */
  lemma DriverStandingAt(d: ChampionshipData, i: nat)
    requires i < |DriverStandingsOf(d)|
    ensures DriverStandingsOf(d)[i] == SortByScore(DriverRows(d, DriverTallies(d)), DriverScore)[i].(position := i + 1)
  {
  }

  /** Two drivers level on points and wins keep the order they have among the active drivers. */
  lemma DriverTiesKeepDatasetOrder(d: ChampionshipData, i: nat, j: nat)
    requires i < j < |DriverStandingsOf(d)|
    requires DriverStandingsOf(d)[i].points == DriverStandingsOf(d)[j].points
    requires DriverStandingsOf(d)[i].wins == DriverStandingsOf(d)[j].wins
    ensures exists a, b ::
              && 0 <= a < b < |ActiveDrivers(d.drivers)|
              && ActiveDrivers(d.drivers)[a] == DriverStandingsOf(d)[i].driver
              && ActiveDrivers(d.drivers)[b] == DriverStandingsOf(d)[j].driver
  {
    var unranked := DriverRows(d, DriverTallies(d));
    var sorted := SortByScore(unranked, DriverScore);
    DriverStandingAt(d, i);
    DriverStandingAt(d, j);
    SortKeepsTieOrder(unranked, DriverScore, i, j);
    var a, b :| 0 <= a < b < |unranked| && unranked[a] == sorted[i] && unranked[b] == sorted[j];
    DriverRowHoldsActiveDriver(d, DriverTallies(d), a);
    DriverRowHoldsActiveDriver(d, DriverTallies(d), b);
  }

  /** Two teams level on points and wins keep the order they have in the dataset. */
  lemma TeamTiesKeepDatasetOrder(d: ChampionshipData, i: nat, j: nat)
    requires i < j < |ConstructorStandingsOf(d)|
    requires ConstructorStandingsOf(d)[i].points == ConstructorStandingsOf(d)[j].points
    requires ConstructorStandingsOf(d)[i].wins == ConstructorStandingsOf(d)[j].wins
    ensures exists a, b ::
              && 0 <= a < b < |d.teams|
              && d.teams[a] == ConstructorStandingsOf(d)[i].team
              && d.teams[b] == ConstructorStandingsOf(d)[j].team
  {
    var unranked := TeamRows(d, TeamTallies(d));
    var sorted := SortByScore(unranked, TeamScore);
    assert ConstructorStandingsOf(d)[i].team == sorted[i].team && ConstructorStandingsOf(d)[j].team == sorted[j].team;
    SortKeepsTieOrder(unranked, TeamScore, i, j);
    var a, b :| 0 <= a < b < |unranked| && unranked[a] == sorted[i] && unranked[b] == sorted[j];
  }

  // ---------------------------------------------------------------------------------
  // What a row holds

  /** Each driver row holds its driver's season tally from the race table and the first team with the driver's team id. */
  lemma DriverRowTotals(d: ChampionshipData)
    ensures forall i :: 0 <= i < |DriverStandingsOf(d)| ==>
      var row := DriverStandingsOf(d)[i];
      var tally := SeasonDriverTally(d.results, d.pointsSystem.race, row.driver.id);
      row.points == tally.points && row.wins == tally.wins && row.podiums == tally.podiums &&
      row.team == GetTeamById(Some(d), row.driver.team)
  {
    forall i | 0 <= i < |DriverStandingsOf(d)|
      ensures var row := DriverStandingsOf(d)[i];
        var tally := SeasonDriverTally(d.results, d.pointsSystem.race, row.driver.id);
        row.points == tally.points && row.wins == tally.wins && row.podiums == tally.podiums &&
        row.team == GetTeamById(Some(d), row.driver.team)
    {
      DriverRowTotalsAt(d, i);
    }
  }

  lemma DriverRowTotalsAt(d: ChampionshipData, i: nat)
    requires i < |DriverStandingsOf(d)|
    ensures var row := DriverStandingsOf(d)[i];
      var tally := SeasonDriverTally(d.results, d.pointsSystem.race, row.driver.id);
      row.points == tally.points && row.wins == tally.wins && row.podiums == tally.podiums &&
      row.team == GetTeamById(Some(d), row.driver.team)
  {
    var unranked := DriverRows(d, DriverTallies(d));
    var sorted := SortByScore(unranked, DriverScore);
    DriverStandingAt(d, i);
    assert sorted[i] in multiset(unranked);
    SortedDriverRowTotals(d, sorted[i]);
  }

  lemma SortedDriverRowTotals(d: ChampionshipData, row: DriverStanding)
    requires row in multiset(DriverRows(d, DriverTallies(d)))
    ensures var tally := SeasonDriverTally(d.results, d.pointsSystem.race, row.driver.id);
      row.points == tally.points && row.wins == tally.wins && row.podiums == tally.podiums &&
      row.team == GetTeamById(Some(d), row.driver.team)
  {
    var unranked := DriverRows(d, DriverTallies(d));
    var a :| 0 <= a < |unranked| && unranked[a] == row;
    UnrankedDriverRowTotals(d, a);
  }

  lemma UnrankedDriverRowTotals(d: ChampionshipData, a: nat)
    requires a < |ActiveDrivers(d.drivers)|
    ensures var row := DriverRows(d, DriverTallies(d))[a];
      var tally := SeasonDriverTally(d.results, d.pointsSystem.race, row.driver.id);
      row.points == tally.points && row.wins == tally.wins && row.podiums == tally.podiums &&
      row.team == GetTeamById(Some(d), row.driver.team)
  {
    var active := ActiveDrivers(d.drivers);
    assert active[a] in active;
    assert active[a].id in ActiveIds(d.drivers);
  }

  /** Each constructor row holds its team's season tally from the race table. */
  lemma ConstructorRowTotals(d: ChampionshipData)
    ensures forall i :: 0 <= i < |ConstructorStandingsOf(d)| ==>
      var row := ConstructorStandingsOf(d)[i];
      var tally := SeasonTeamTally(d, d.results, row.team.id);
      row.points == tally.points && row.wins == tally.wins
  {
    var unranked := TeamRows(d, TeamTallies(d));
    var sorted := SortByScore(unranked, TeamScore);
    forall i | 0 <= i < |sorted|
      ensures var row := ConstructorStandingsOf(d)[i];
        var tally := SeasonTeamTally(d, d.results, row.team.id);
        row.points == tally.points && row.wins == tally.wins
    {
      assert sorted[i] in multiset(unranked);
      var a :| 0 <= a < |unranked| && unranked[a] == sorted[i];
      assert d.teams[a] in d.teams;
      assert d.teams[a].id in TeamIds(d.teams);
    }
  }

  // ---------------------------------------------------------------------------------
  // Wins and podiums

  /** In one race a driver wins at most once (only position 0 wins) and has at most three podiums. */
  lemma {:induction false} RaceDriverTallyBounds(race: seq<int>, table: seq<int>, driverId: int)
    ensures var t := RaceDriverTally(race, table, driverId);
      t.wins == (if |race| > 0 && race[0] == driverId && Scores(table, 0) then 1 else 0) &&
      t.podiums <= 3 && t.podiums <= |race| && t.wins <= t.podiums
  {
    if race != [] {
      var p := |race| - 1;
      RaceDriverTallyBounds(race[..p], table, driverId);
      if p > 0 {
        assert race[..p][0] == race[0];
      }
    }
  }

  /** Over a season a driver has no more wins than podiums, at most one win and three podiums per result. */
  lemma {:induction false} SeasonDriverTallyBounds(results: seq<RaceResult>, table: seq<int>, driverId: int)
    ensures var t := SeasonDriverTally(results, table, driverId);
      t.wins <= t.podiums && t.wins <= |results| && t.podiums <= 3 * |results|
  {
    if results != [] {
      var n := |results| - 1;
      SeasonDriverTallyBounds(results[..n], table, driverId);
      RaceDriverTallyBounds(results[n].race, table, driverId);
    }
  }

  /** Every driver row has no more wins than podiums, and no more wins than there are results. */
  lemma DriverRowWinsAtMostPodiums(d: ChampionshipData)
    ensures forall i :: 0 <= i < |DriverStandingsOf(d)| ==>
      DriverStandingsOf(d)[i].wins <= DriverStandingsOf(d)[i].podiums &&
      DriverStandingsOf(d)[i].wins <= |d.results| && DriverStandingsOf(d)[i].podiums <= 3 * |d.results|
  {
    DriverRowTotals(d);
    forall i | 0 <= i < |DriverStandingsOf(d)| {
      SeasonDriverTallyBounds(d.results, d.pointsSystem.race, DriverStandingsOf(d)[i].driver.id);
    }
  }

  /** In one race a team is credited with at most one win: the scoring winner's team. */
  lemma {:induction false} RaceTeamTallyWins(d: ChampionshipData, race: seq<int>, teamId: string)
    ensures RaceTeamTally(d, race, teamId).wins ==
      if |race| > 0 && DrivesFor(d, race[0], teamId) && Scores(d.pointsSystem.race, 0) then 1 else 0
  {
    if race != [] {
      var p := |race| - 1;
      RaceTeamTallyWins(d, race[..p], teamId);
      if p > 0 {
        assert race[..p][0] == race[0];
      }
    }
  }

  /** A team wins at most once per result, so every constructor row has at most as many wins as results. */
  lemma {:induction false} SeasonTeamTallyWins(d: ChampionshipData, results: seq<RaceResult>, teamId: string)
    ensures SeasonTeamTally(d, results, teamId).wins <= |results|
  {
    if results != [] {
      var n := |results| - 1;
      SeasonTeamTallyWins(d, results[..n], teamId);
      RaceTeamTallyWins(d, results[n].race, teamId);
    }
  }

  // ---------------------------------------------------------------------------------
  // What the standings do not depend on

  /**
   * The sprint table, the fastest-lap bonus and the grand prix list (with its sprint flags)
   * never reach either table: only `pointsSystem.race` is read.
   */
  lemma StandingsIgnoreSprintTableAndBonus(d: ChampionshipData, ps: PointsSystem, calendar: seq<GrandPrix>)
    requires ps.race == d.pointsSystem.race
    ensures DriverStandingsOf(d.(pointsSystem := ps, grandPrix := calendar)) == DriverStandingsOf(d)
    ensures ConstructorStandingsOf(d.(pointsSystem := ps, grandPrix := calendar)) == ConstructorStandingsOf(d)
  {
    var d' := d.(pointsSystem := ps, grandPrix := calendar);
    SameRosterSameCredit(d, d');
    forall id | id in TeamIds(d.teams) ensures SeasonTeamTally(d', d.results, id) == SeasonTeamTally(d, d.results, id) {
      SeasonTeamTallyAgree(d, d', d.results, id);
    }
    assert TeamTallies(d') == TeamTallies(d);
    ConstructorStandingsFromTallies(d, d');
    assert DriverTallies(d') == DriverTallies(d);
    DriverStandingsFromTallies(d, d');
  }

  /** Same number of drivers, and position by position the same id and team. */
  predicate SameRoster(ds: seq<Driver>, ds': seq<Driver>)
  {
    |ds| == |ds'| && forall i :: 0 <= i < |ds| ==> ds[i].id == ds'[i].id && ds[i].team == ds'[i].team
  }

  /** Datasets with the same roster and race table credit every finisher to the same team. */
  lemma SameRosterSameCredit(d: ChampionshipData, d': ChampionshipData)
    requires SameRoster(d.drivers, d'.drivers)
    ensures forall x, t :: DrivesFor(d, x, t) <==> DrivesFor(d', x, t)
  {
    forall x, t ensures DrivesFor(d, x, t) <==> DrivesFor(d', x, t) {
      SameRosterSameDriver(d, d', x);
    }
  }

  /** On the same roster a lookup by id finds a driver at the same place, with the same team. */
  lemma SameRosterSameDriver(d: ChampionshipData, d': ChampionshipData, x: int)
    requires SameRoster(d.drivers, d'.drivers)
    ensures GetDriverById(Some(d), x).Some? <==> GetDriverById(Some(d'), x).Some?
    ensures GetDriverById(Some(d), x).Some? ==> GetDriverById(Some(d), x).value.team == GetDriverById(Some(d'), x).value.team
  {
    var a, b := GetDriverById(Some(d), x), GetDriverById(Some(d'), x);
    if a.Some? {
      var i :| 0 <= i < |d.drivers| && d.drivers[i] == a.value && forall j :: 0 <= j < i ==> d.drivers[j].id != x;
      assert d'.drivers[i] in d'.drivers;
      var i' :| 0 <= i' < |d'.drivers| && d'.drivers[i'] == b.value && forall j :: 0 <= j < i' ==> d'.drivers[j].id != x;
      assert d.drivers[i'].id == x;
      assert i == i';
    } else {
      assert b.None? by {
        forall y | y in d'.drivers ensures y.id != x {
          var i :| 0 <= i < |d'.drivers| && d'.drivers[i] == y;
          assert d.drivers[i] in d.drivers;
        }
      }
    }
  }

  lemma {:induction false} RaceTeamTallyAgree(d: ChampionshipData, d': ChampionshipData, race: seq<int>, teamId: string)
    requires d.pointsSystem.race == d'.pointsSystem.race
    requires forall x, t :: DrivesFor(d, x, t) <==> DrivesFor(d', x, t)
    ensures RaceTeamTally(d', race, teamId) == RaceTeamTally(d, race, teamId)
  {
    if race != [] {
      RaceTeamTallyAgree(d, d', race[..|race| - 1], teamId);
    }
  }

  lemma {:induction false} SeasonTeamTallyAgree(d: ChampionshipData, d': ChampionshipData, results: seq<RaceResult>, teamId: string)
    requires d.pointsSystem.race == d'.pointsSystem.race
    requires forall x, t :: DrivesFor(d, x, t) <==> DrivesFor(d', x, t)
    ensures SeasonTeamTally(d', results, teamId) == SeasonTeamTally(d, results, teamId)
  {
    if results != [] {
      var n := |results| - 1;
      SeasonTeamTallyAgree(d, d', results[..n], teamId);
      RaceTeamTallyAgree(d, d', results[n].race, teamId);
    }
  }

  /**
   * Constructor points do not look at a driver's status: former drivers (or any change of
   * status, name or number) credit their team exactly as before.
   */
  lemma ConstructorStandingsIgnoreDriverStatus(d: ChampionshipData, drivers: seq<Driver>)
    requires SameRoster(d.drivers, drivers)
    ensures ConstructorStandingsOf(d.(drivers := drivers)) == ConstructorStandingsOf(d)
  {
    var d' := d.(drivers := drivers);
    SameRosterSameCredit(d, d');
    forall id | id in TeamIds(d.teams) ensures SeasonTeamTally(d', d.results, id) == SeasonTeamTally(d, d.results, id) {
      SeasonTeamTallyAgree(d, d', d.results, id);
    }
    assert TeamTallies(d') == TeamTallies(d);
    ConstructorStandingsFromTallies(d, d');
  }

  /** Two finishing orders of the same length that differ only at finishers outside `ids`. */
  predicate SameOutside(race: seq<int>, race': seq<int>, ids: set<int>)
  {
    |race| == |race'| && forall p :: 0 <= p < |race| ==> race[p] == race'[p] || (race[p] !in ids && race'[p] !in ids)
  }

  lemma {:induction false} RaceDriverTallyOutside(race: seq<int>, race': seq<int>, ids: set<int>, table: seq<int>, driverId: int)
    requires SameOutside(race, race', ids) && driverId in ids
    ensures RaceDriverTally(race', table, driverId) == RaceDriverTally(race, table, driverId)
  {
    if race != [] {
      var p := |race| - 1;
      RaceDriverTallyOutside(race[..p], race'[..p], ids, table, driverId);
    }
  }

  lemma {:induction false} SeasonDriverTallyOutside(results: seq<RaceResult>, results': seq<RaceResult>, ids: set<int>, table: seq<int>, driverId: int)
    requires |results| == |results'| && driverId in ids
    requires forall i :: 0 <= i < |results| ==> SameOutside(results[i].race, results'[i].race, ids)
    ensures SeasonDriverTally(results', table, driverId) == SeasonDriverTally(results, table, driverId)
  {
    if results != [] {
      var n := |results| - 1;
      SeasonDriverTallyOutside(results[..n], results'[..n], ids, table, driverId);
      RaceDriverTallyOutside(results[n].race, results'[n].race, ids, table, driverId);
    }
  }

  /**
   * Finishers who are not active drivers (former drivers and unknown ids) earn nothing for anyone:
   * replacing them by other such ids, or changing qualifying and fastest laps, leaves the driver standings as they are.
   */
  lemma DriverStandingsIgnoreInactiveFinishers(d: ChampionshipData, results: seq<RaceResult>)
    requires |results| == |d.results|
    requires forall i :: 0 <= i < |results| ==> SameOutside(d.results[i].race, results[i].race, ActiveIds(d.drivers))
    ensures DriverStandingsOf(d.(results := results)) == DriverStandingsOf(d)
  {
    var d' := d.(results := results);
    forall id | id in ActiveIds(d.drivers)
      ensures SeasonDriverTally(results, d.pointsSystem.race, id) == SeasonDriverTally(d.results, d.pointsSystem.race, id)
    {
      SeasonDriverTallyOutside(d.results, results, ActiveIds(d.drivers), d.pointsSystem.race, id);
    }
    assert DriverTallies(d') == DriverTallies(d);
    DriverStandingsFromTallies(d, d');
  }

  /** The finisher earns points for one of the dataset's teams: a driver with that id exists and its team is listed. */
  predicate CreditsListedTeam(d: ChampionshipData, driverId: int)
  {
    exists t :: t in TeamIds(d.teams) && DrivesFor(d, driverId, t)
  }

  /** Two finishing orders of the same length that differ only at finishers who credit no listed team. */
  predicate SameCreditedFinishers(d: ChampionshipData, race: seq<int>, race': seq<int>)
  {
    |race| == |race'| &&
    forall p :: 0 <= p < |race| ==> race[p] == race'[p] || (!CreditsListedTeam(d, race[p]) && !CreditsListedTeam(d, race'[p]))
  }

  lemma {:induction false} RaceTeamTallyUncredited(d: ChampionshipData, race: seq<int>, race': seq<int>, teamId: string)
    requires SameCreditedFinishers(d, race, race') && teamId in TeamIds(d.teams)
    ensures RaceTeamTally(d, race', teamId) == RaceTeamTally(d, race, teamId)
  {
    if race != [] {
      var p := |race| - 1;
      RaceTeamTallyUncredited(d, race[..p], race'[..p], teamId);
      if race[p] != race'[p] {
        assert !DrivesFor(d, race[p], teamId) && !DrivesFor(d, race'[p], teamId);
      }
    }
  }

  lemma {:induction false} SeasonTeamTallyUncredited(d: ChampionshipData, results: seq<RaceResult>, results': seq<RaceResult>, teamId: string)
    requires |results| == |results'| && teamId in TeamIds(d.teams)
    requires forall i :: 0 <= i < |results| ==> SameCreditedFinishers(d, results[i].race, results'[i].race)
    ensures SeasonTeamTally(d, results', teamId) == SeasonTeamTally(d, results, teamId)
  {
    if results != [] {
      var n := |results| - 1;
      SeasonTeamTallyUncredited(d, results[..n], results'[..n], teamId);
      RaceTeamTallyUncredited(d, results[n].race, results'[n].race, teamId);
    }
  }

  /**
   * Finishers with an unknown driver id, or whose driver's team is not listed, earn nothing for any team:
   * replacing them by other such ids leaves the constructor standings as they are.
   */
  lemma ConstructorStandingsIgnoreUncreditedFinishers(d: ChampionshipData, results: seq<RaceResult>)
    requires |results| == |d.results|
    requires forall i :: 0 <= i < |results| ==> SameCreditedFinishers(d, d.results[i].race, results[i].race)
    ensures ConstructorStandingsOf(d.(results := results)) == ConstructorStandingsOf(d)
  {
    var d' := d.(results := results);
    SameRosterSameCredit(d, d');
    forall id | id in TeamIds(d.teams) ensures SeasonTeamTally(d', results, id) == SeasonTeamTally(d, d.results, id) {
      SeasonTeamTallyAgree(d, d', results, id);
      SeasonTeamTallyUncredited(d, d.results, results, id);
    }
    assert TeamTallies(d') == TeamTallies(d);
    ConstructorStandingsFromTallies(d, d');
  }

  // ---------------------------------------------------------------------------------
  // Order of the results

  /** Where the last element of `s` sits in a rearrangement `s'`, and what is left around it. */
  lemma SplitAtMatch<T>(s: seq<T>, s': seq<T>) returns (front: seq<T>, back: seq<T>)
    requires s != [] && multiset(s) == multiset(s')
    ensures s' == front + [s[|s| - 1]] + back
    ensures multiset(front + back) == multiset(s[..|s| - 1])
  {
    var n := |s| - 1;
    assert s == s[..n] + [s[n]];
    assert s[n] in multiset(s');
    var k :| 0 <= k < |s'| && s'[k] == s[n];
    front, back := s'[..k], s'[k + 1..];
    assert s' == front + [s[n]] + back;
    assert multiset(s') == multiset(front) + multiset{s[n]} + multiset(back);
    assert multiset(front + back) == multiset(front) + multiset(back);
    assert multiset(s) == multiset(s[..n]) + multiset{s[n]};
    assert multiset(front + back) == multiset(s') - multiset{s[n]};
    assert multiset(s[..n]) == multiset(s) - multiset{s[n]};
  }

  lemma AddNoDriverTally(t: DriverTally)
    ensures AddDriverTally(t, NoDriverTally) == t
  {
  }

  lemma AddDriverTallyAssociates(x: DriverTally, y: DriverTally, z: DriverTally)
    ensures AddDriverTally(AddDriverTally(x, y), z) == AddDriverTally(x, AddDriverTally(y, z))
  {
  }

  lemma AddDriverTallySwap(x: DriverTally, y: DriverTally, z: DriverTally)
    ensures AddDriverTally(AddDriverTally(x, z), y) == AddDriverTally(AddDriverTally(x, y), z)
  {
  }

  lemma SeasonDriverTallySnoc(results: seq<RaceResult>, r: RaceResult, table: seq<int>, driverId: int)
    ensures SeasonDriverTally(results + [r], table, driverId) ==
            AddDriverTally(SeasonDriverTally(results, table, driverId), RaceDriverTally(r.race, table, driverId))
  {
    assert (results + [r])[..|results|] == results;
  }

  lemma {:induction false} SeasonDriverTallyAppend(a: seq<RaceResult>, b: seq<RaceResult>, table: seq<int>, driverId: int)
    ensures SeasonDriverTally(a + b, table, driverId) ==
            AddDriverTally(SeasonDriverTally(a, table, driverId), SeasonDriverTally(b, table, driverId))
    decreases |b|
  {
    if b == [] {
      assert a + b == a;
      AddNoDriverTally(SeasonDriverTally(a, table, driverId));
    } else {
      var n := |b| - 1;
      var front, last := b[..n], b[n];
      assert b == front + [last];
      assert a + b == (a + front) + [last];
      SeasonDriverTallyAppend(a, front, table, driverId);
      SeasonDriverTallySnoc(a + front, last, table, driverId);
      SeasonDriverTallySnoc(front, last, table, driverId);
      var sa, sf, r := SeasonDriverTally(a, table, driverId), SeasonDriverTally(front, table, driverId), RaceDriverTally(last.race, table, driverId);
      AddDriverTallyAssociates(sa, sf, r);
    }
  }

  /** A driver's season tally does not depend on the order in which the results are visited. */
  lemma {:induction false} SeasonDriverTallyPermutation(results: seq<RaceResult>, results': seq<RaceResult>, table: seq<int>, driverId: int)
    requires multiset(results) == multiset(results')
    ensures SeasonDriverTally(results', table, driverId) == SeasonDriverTally(results, table, driverId)
    decreases |results|
  {
    if results != [] {
      var n := |results| - 1;
      var x := results[n];
      var front, back := SplitAtMatch(results, results');
      SeasonDriverTallyPermutation(results[..n], front + back, table, driverId);
      assert results == results[..n] + [x];
      SeasonDriverTallySnoc(results[..n], x, table, driverId);
      SeasonDriverTallyAppend(front + [x], back, table, driverId);
      SeasonDriverTallySnoc(front, x, table, driverId);
      SeasonDriverTallyAppend(front, back, table, driverId);
      AddDriverTallySwap(SeasonDriverTally(front, table, driverId), SeasonDriverTally(back, table, driverId), RaceDriverTally(x.race, table, driverId));
    }
  }

  lemma AddNoTeamTally(t: TeamTally)
    ensures AddTeamTally(t, NoTeamTally) == t
  {
  }

  lemma AddTeamTallyAssociates(x: TeamTally, y: TeamTally, z: TeamTally)
    ensures AddTeamTally(AddTeamTally(x, y), z) == AddTeamTally(x, AddTeamTally(y, z))
  {
  }

  lemma AddTeamTallySwap(x: TeamTally, y: TeamTally, z: TeamTally)
    ensures AddTeamTally(AddTeamTally(x, z), y) == AddTeamTally(AddTeamTally(x, y), z)
  {
  }

  lemma SeasonTeamTallySnoc(d: ChampionshipData, results: seq<RaceResult>, r: RaceResult, teamId: string)
    ensures SeasonTeamTally(d, results + [r], teamId) == AddTeamTally(SeasonTeamTally(d, results, teamId), RaceTeamTally(d, r.race, teamId))
  {
    assert (results + [r])[..|results|] == results;
  }

  lemma {:induction false} SeasonTeamTallyAppend(d: ChampionshipData, a: seq<RaceResult>, b: seq<RaceResult>, teamId: string)
    ensures SeasonTeamTally(d, a + b, teamId) == AddTeamTally(SeasonTeamTally(d, a, teamId), SeasonTeamTally(d, b, teamId))
    decreases |b|
  {
    if b == [] {
      assert a + b == a;
      AddNoTeamTally(SeasonTeamTally(d, a, teamId));
    } else {
      var n := |b| - 1;
      var front, last := b[..n], b[n];
      assert b == front + [last];
      assert a + b == (a + front) + [last];
      SeasonTeamTallyAppend(d, a, front, teamId);
      SeasonTeamTallySnoc(d, a + front, last, teamId);
      SeasonTeamTallySnoc(d, front, last, teamId);
      var sa, sf, r := SeasonTeamTally(d, a, teamId), SeasonTeamTally(d, front, teamId), RaceTeamTally(d, last.race, teamId);
      AddTeamTallyAssociates(sa, sf, r);
    }
  }

  /** A team's season tally does not depend on the order in which the results are visited. */
  lemma {:induction false} SeasonTeamTallyPermutation(d: ChampionshipData, results: seq<RaceResult>, results': seq<RaceResult>, teamId: string)
    requires multiset(results) == multiset(results')
    ensures SeasonTeamTally(d, results', teamId) == SeasonTeamTally(d, results, teamId)
    decreases |results|
  {
    if results != [] {
      var n := |results| - 1;
      var x := results[n];
      var front, back := SplitAtMatch(results, results');
      SeasonTeamTallyPermutation(d, results[..n], front + back, teamId);
      assert results == results[..n] + [x];
      SeasonTeamTallySnoc(d, results[..n], x, teamId);
      SeasonTeamTallyAppend(d, front + [x], back, teamId);
      SeasonTeamTallySnoc(d, front, x, teamId);
      SeasonTeamTallyAppend(d, front, back, teamId);
      AddTeamTallySwap(SeasonTeamTally(d, front, teamId), SeasonTeamTally(d, back, teamId), RaceTeamTally(d, x.race, teamId));
    }
  }

  /** Visiting the results in any other order gives the same driver standings. */
  lemma DriverStandingsIgnoreResultOrder(d: ChampionshipData, results: seq<RaceResult>)
    requires multiset(results) == multiset(d.results)
    ensures DriverStandingsOf(d.(results := results)) == DriverStandingsOf(d)
  {
    var d' := d.(results := results);
    forall id | id in ActiveIds(d.drivers)
      ensures SeasonDriverTally(results, d.pointsSystem.race, id) == SeasonDriverTally(d.results, d.pointsSystem.race, id)
    {
      SeasonDriverTallyPermutation(d.results, results, d.pointsSystem.race, id);
    }
    assert DriverTallies(d') == DriverTallies(d);
    DriverStandingsFromTallies(d, d');
  }

  /** Visiting the results in any other order gives the same constructor standings. */
  lemma ConstructorStandingsIgnoreResultOrder(d: ChampionshipData, results: seq<RaceResult>)
    requires multiset(results) == multiset(d.results)
    ensures ConstructorStandingsOf(d.(results := results)) == ConstructorStandingsOf(d)
  {
    var d' := d.(results := results);
    SameRosterSameCredit(d, d');
    forall id | id in TeamIds(d.teams) ensures SeasonTeamTally(d', results, id) == SeasonTeamTally(d, d.results, id) {
      SeasonTeamTallyAgree(d, d', results, id);
      SeasonTeamTallyPermutation(d, d.results, results, id);
    }
    assert TeamTallies(d') == TeamTallies(d);
    ConstructorStandingsFromTallies(d, d');
  }
}
