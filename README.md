# Championship standings engine

This project models the standings engine of a motorsport championship web app and proves
properties about the model. It covers:

- the dataset lookups `getTeamById` and `getDriverById`;
- the two standings computations, `calculateDriverStandings` and
  `calculateConstructorStandings`. Each seeds a map of counters, adds the points of every
  scoring finish of every result, ranks the rows by points and then wins, and numbers them;
- the per-row points rule and the `hasResults` / `complete` predicates of the race card;
- `countDrivers`, the number of distinct names on the current grid.

Files:

- `championship.dfy`: the dataset and the standings rows as datatypes.
- `standings.dfy`: the lookups as functions. The counting passes are methods with loops over
  a `map` of counters, proved against the recursive tallies `SeasonDriverTally` and
  `SeasonTeamTally`. The ranking chain is a function.
- `ranking.dfy`: the comparator, and a stable insertion sort standing for
  `Array.prototype.sort`. Stability is stated as "the elements with any given score keep
  their order". `StableRankingIsUnique` shows that every stable sort by the comparator
  produces the same sequence.
- `standings_properties.dfy`: what the two tables promise.
- `race_card.dfy`: the race card rules.
- `driver_count.dfy`: the grid count.
- `card_vs_standings.dfy`: the race card and the standings side by side.

The lookups keep JavaScript `find` semantics: the first match wins, and nothing is found
when no data is loaded. Counters live in a map keyed by id, as in the source. Drivers or
teams that share an id therefore share counters, and no distinctness of ids is assumed.

The standings read only `pointsSystem.race`, for sprints too. They never read
`pointsSystem.sprint` or `pointsSystem.fastestLap`. The race card shows sprint-table
points and the fastest-lap bonus on each row (src/components/RaceCard.tsx:143-149); the
standings add neither. See `StandingsProperties.StandingsIgnoreSprintTableAndBonus` and
`CardVersusStandings.SprintWinnerShownAndCreditedDifferently`.

Two asymmetries of the code are kept:

- Former drivers (`estado == "Expiloto"`) get no driver row and score nothing for
  themselves. They still score for their team in the constructor table.
- A finishing position scores only when its entry in the race table is truthy, meaning it
  exists and is non-zero. Only such positions add wins and podiums.

## Model

| member | source | states |
|---|---|---|
| Standings.Find | src/hooks/useChampionshipData.ts:23 | `find` returns nothing iff no element matches; otherwise it returns the element at the first matching index |
| Standings.GetTeamById | src/hooks/useChampionshipData.ts:22-24 | nothing iff no data is loaded or no team has the id; otherwise the first team of the dataset with that id |
| Standings.GetDriverById | src/hooks/useChampionshipData.ts:26-28 | nothing iff no data is loaded or no driver has the id; otherwise the first driver of the dataset with that id |
| Standings.ActiveDrivers | src/hooks/useChampionshipData.ts:50-51 | the filter keeps exactly the drivers that are not former drivers, each as many times as it occurs in the dataset |
| Standings.SeedDrivers | src/hooks/useChampionshipData.ts:33-37 | the counter map has exactly the ids of the active drivers as keys, each at zero |
| Standings.CreditRaceToDrivers | src/hooks/useChampionshipData.ts:40-47 | walking one finishing order adds to every counter exactly the points, wins (position 0) and podiums (positions 0-2) of that driver's scoring finishes; keys are unchanged |
| Standings.TallyDrivers | src/hooks/useChampionshipData.ts:33-48 | after all results, each active id's counter equals its season tally over the race table |
| Standings.SeedTeams | src/hooks/useChampionshipData.ts:71-75 | the counter map has exactly the team ids as keys, each at zero |
| Standings.CreditFinishToTeam | src/hooks/useChampionshipData.ts:79-86 | one finish adds its points (and a win at position 0) to the team of the first driver with that id, only if that team has a counter and the position scores; nothing else changes |
| Standings.CreditRaceToTeams | src/hooks/useChampionshipData.ts:78-87 | walking one finishing order adds to every team counter the credits of the scoring finishes of drivers in that team |
| Standings.TallyTeams | src/hooks/useChampionshipData.ts:71-88 | after all results, each team's counter equals its season tally |
| Standings.CalculateDriverStandings | src/hooks/useChampionshipData.ts:30-66 | no data gives the empty table; otherwise the counters of the loop equal the season tallies and the result is the ranked, numbered table of the active drivers |
| Standings.CalculateConstructorStandings | src/hooks/useChampionshipData.ts:68-102 | no data gives the empty table; otherwise the ranked, numbered table of all teams built from the season tallies |
| Ranking.CompareMeansOutranks | src/hooks/useChampionshipData.ts:64 | the comparator is negative iff the first row has more points, or equal points and more wins; it is zero iff both points and wins are equal |
| Ranking.Insert | src/hooks/useChampionshipData.ts:64 | inserting into a ranked sequence keeps it ranked and adds exactly the one element |
| Ranking.InsertWithScore | src/hooks/useChampionshipData.ts:64 | the inserted element goes ahead of every element with its own score |
| Ranking.SortByScore | src/hooks/useChampionshipData.ts:64 | the sort result is ranked and a permutation of the input, and the elements of each score keep their input order (stability) |
| Ranking.SortProject | src/hooks/useChampionshipData.ts:64 | sorting permutes any projection of the rows (their drivers, their teams) in the same way |
| Ranking.SortRankedIsIdentity | src/hooks/useChampionshipData.ts:64 | sorting an already ranked sequence leaves it unchanged |
| Ranking.SortKeepsTieOrder | src/hooks/useChampionshipData.ts:64 | two output elements with the same score appear in the input in the same order |
| Ranking.StableRankingIsUnique | src/hooks/useChampionshipData.ts:64 | two ranked sequences that agree on the order within every score are equal |
| Ranking.StableSortIsSortByScore | src/hooks/useChampionshipData.ts:100 | any stable sort by the comparator gives the same result as the model's sort |
| StandingsProperties.DriverStandingsListActiveDrivers | src/hooks/useChampionshipData.ts:50-65 | the driver table has one row per active driver: its drivers are a permutation of the active drivers, and a driver appears iff it is in the dataset and is not a former driver |
| StandingsProperties.ConstructorStandingsListTeams | src/hooks/useChampionshipData.ts:90-101 | the constructor table has one row per team: its teams are a permutation of the dataset's teams |
| StandingsProperties.DriverStandingsPositions | src/hooks/useChampionshipData.ts:65 | the row at index i has position i + 1 |
| StandingsProperties.ConstructorStandingsPositions | src/hooks/useChampionshipData.ts:101 | the row at index i has position i + 1 |
| StandingsProperties.DriverStandingsOrdered | src/hooks/useChampionshipData.ts:64 | points never increase down the table, and among equal points wins never increase |
| StandingsProperties.ConstructorStandingsOrdered | src/hooks/useChampionshipData.ts:100 | points never increase down the table, and among equal points wins never increase |
| StandingsProperties.DriverTiesKeepDatasetOrder | src/hooks/useChampionshipData.ts:50-64 | two drivers level on points and wins are listed in their order among the dataset's active drivers |
| StandingsProperties.TeamTiesKeepDatasetOrder | src/hooks/useChampionshipData.ts:90-100 | two teams level on points and wins are listed in their dataset order |
| StandingsProperties.DriverRowTotals | src/hooks/useChampionshipData.ts:50-62 | each driver row holds its driver's season points, wins and podiums, and as team the first team whose id matches the driver's team, or none |
| StandingsProperties.ConstructorRowTotals | src/hooks/useChampionshipData.ts:90-98 | each constructor row holds its team's season points and wins |
| StandingsProperties.RaceDriverTallyBounds | src/hooks/useChampionshipData.ts:42-45 | in one race a driver gets a win only for a scoring first place, at most 3 podiums, and no more wins than podiums |
| StandingsProperties.SeasonDriverTallyBounds | src/hooks/useChampionshipData.ts:39-48 | over a season: wins ≤ podiums, at most one win and three podiums per result |
| StandingsProperties.DriverRowWinsAtMostPodiums | src/hooks/useChampionshipData.ts:42-45 | every driver row has wins ≤ podiums, wins ≤ number of results and podiums ≤ 3 × number of results |
| StandingsProperties.RaceTeamTallyWins | src/hooks/useChampionshipData.ts:82-84 | in one race a team is credited a win iff the winner drives for it and first place scores |
| StandingsProperties.SeasonTeamTallyWins | src/hooks/useChampionshipData.ts:77-88 | a team's wins never exceed the number of results |
| StandingsProperties.StandingsIgnoreSprintTableAndBonus | src/hooks/useChampionshipData.ts:42-43 | changing the sprint table, the fastest-lap bonus or the grand prix list (with its sprint flags) changes neither table |
| StandingsProperties.SameRosterSameCredit | src/hooks/useChampionshipData.ts:79-81 | two rosters with the same ids and teams at every place credit every finisher to the same team |
| StandingsProperties.ConstructorStandingsIgnoreDriverStatus | src/hooks/useChampionshipData.ts:77-88 | the constructor table ignores driver status: former drivers score for their team like anyone else |
| StandingsProperties.DriverStandingsIgnoreInactiveFinishers | src/hooks/useChampionshipData.ts:41-42 | finishers who are not active drivers (former drivers, unknown ids) add nothing: swapping them for other such ids leaves the driver table unchanged |
| StandingsProperties.ConstructorStandingsIgnoreUncreditedFinishers | src/hooks/useChampionshipData.ts:79-82 | finishers with an unknown driver id, or whose team is not listed, add nothing to the constructor table |
| StandingsProperties.SeasonDriverTallyPermutation | src/hooks/useChampionshipData.ts:39 | a driver's season tally does not depend on the order in which results are visited |
| StandingsProperties.SeasonTeamTallyPermutation | src/hooks/useChampionshipData.ts:77 | a team's season tally does not depend on the order in which results are visited |
| StandingsProperties.DriverStandingsIgnoreResultOrder | src/hooks/useChampionshipData.ts:39-48 | any reordering of the results gives the same driver table |
| StandingsProperties.ConstructorStandingsIgnoreResultOrder | src/hooks/useChampionshipData.ts:77-88 | any reordering of the results gives the same constructor table |
| RaceCard.CompleteMeansResultsWithFinishers | src/components/RaceCard.tsx:16-17 | `complete` holds iff `hasResults` holds and the race has a finisher; so `complete` implies `hasResults` |
| RaceCard.SprintRowUsesSprintTable | src/components/RaceCard.tsx:143 | a sprint row uses the sprint table, and scores as a race row would under that table |
| RaceCard.RaceRowIgnoresSprintTable | src/components/RaceCard.tsx:143 | a race row uses the race table and does not depend on the sprint table |
| RaceCard.FastestLapBonus | src/components/RaceCard.tsx:144-149 | row points are the table entry (0 past the table's end) plus the bonus exactly when the row's driver set the fastest lap and the index is below 10 |
| RaceCard.FastestLapOutsideTopTen | src/components/RaceCard.tsx:145-149 | a fastest-lap holder at index 10 or beyond is flagged but not eligible, and earns only the table entry |
| RaceCard.RowPointsBeyondTable | src/components/RaceCard.tsx:144 | past the end of the table a row earns the bonus if eligible and 0 otherwise |
| RaceCard.PointsLabelShownWhenScoring | src/components/RaceCard.tsx:188 | with non-negative tables and bonus, the "+points" label shows iff the position's entry is positive or the row earns a positive bonus |
| RaceCard.ShownPointsTotal | src/components/RaceCard.tsx:140-149 | when every finisher is listed once, the rows' points add up to the table's entries for the occupied positions, plus the bonus once if the fastest-lap holder is in the first ten |
| CardVersusStandings.SprintWinnerShownAndCreditedDifferently | src/components/RaceCard.tsx:143-149 | a sprint's sole finisher with the fastest lap is shown the sprint entry plus the bonus, while the standings credit the race table's first entry, one win and one podium |
| DriverCount.CountDriversAppend | src/utils/countdrivers.tsx:3-6 | appending a driver adds 1 exactly when it is counted (not the placeholder, not a former driver) and its name is new |
| DriverCount.CountDriversEmpty | src/utils/countdrivers.tsx:4-5 | the empty list counts 0 |
| DriverCount.CountDriversAtMostLength | src/utils/countdrivers.tsx:4-5 | the count never exceeds the number of drivers |
| DriverCount.CountDriversIgnoresUncounted | src/utils/countdrivers.tsx:4 | inserting a former driver or a "Cambio de equipo" placeholder anywhere leaves the count unchanged |
| DriverCount.CountDriversNameOnce | src/utils/countdrivers.tsx:4 | a counted driver whose name is already counted does not change the count |
| DriverCount.CountDriversPermutation | src/utils/countdrivers.tsx:4-5 | the count does not depend on the order of the drivers |

## Left out

- Loading the dataset (`fetch`, `useEffect`, the loading and error state) is asynchronous I/O. A dataset is a parameter: `Some(data)` once loaded, `None` before.
- Rendering and styling are presentation only and are not modelled: JSX, class strings, `getPositionStyle`, the status badges, and the five-row `compact` view.
- UI toggle state is transient view state and is not modelled: the expanded race card, the expanded team, the mobile menu.
- The pages, the header and the stat cards are layout glue, including the count of completed races.
- The calendar page passes the bare race table where the race card expects a full points system. That call site is not part of this model: the row rule is stated against a full points system.
- The results object keyed by grand prix id is a sequence of its values. The visiting order cannot change either table (`DriverStandingsIgnoreResultOrder`, `ConstructorStandingsIgnoreResultOrder`).
- JavaScript number semantics are not modelled. Points are unbounded integers, and truthiness of a table entry means "present and non-zero"; NaN and fractional points do not occur.
- `team!` is only a compile-time assertion. At run time a driver row whose team id matches no team holds `undefined`, modelled as `None`.
- The championship name, season, grand prix metadata, qualifying times and team principals are only displayed. They are carried in the datatypes but read by no modelled rule.
