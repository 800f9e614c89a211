/** The season dataset and the computed standings rows (src/types/championship.ts). */
module Championship {

  datatype Option<+T> = None | Some(value: T)

  datatype Team = Team(id: string, name: string, color: string)

  /** A driver's status: regular driver, reserve, or former driver (who has left the grid). */
  datatype DriverStatus = Titular | Reserva | Expiloto

  datatype Driver = Driver(id: int, name: string, team: string, number: int, estado: DriverStatus)

  datatype TeamPrincipal = TeamPrincipal(teamId: string, name: string)

  /** The optional `isSprint` / `isRain` flags are `false` when absent. */
  datatype GrandPrix = GrandPrix(
    id: int, name: string, country: string, flag: string, circuit: string,
    isSprint: bool, isRain: bool)

  datatype QualifyingEntry = QualifyingEntry(driverId: int, time: string)

  /** `race` is the finishing order as driver ids, index 0 being the winner. */
  datatype RaceResult = RaceResult(qualifying: seq<QualifyingEntry>, race: seq<int>, fastestLap: Option<int>)

  /** Points per 0-based finishing position, for races and for sprints, and the fastest-lap bonus. */
  datatype PointsSystem = PointsSystem(race: seq<int>, sprint: seq<int>, fastestLap: int)

  /** The results object keyed by grand prix id is kept as the sequence of its values. */
  datatype ChampionshipData = ChampionshipData(
    championshipName: string, season: string,
    teams: seq<Team>, drivers: seq<Driver>, grandPrix: seq<GrandPrix>,
    results: seq<RaceResult>, pointsSystem: PointsSystem, teamPrincipals: seq<TeamPrincipal>)

  /** The team is `None` where the source's non-null assertion `team!` would let `undefined` through. */
  datatype DriverStanding = DriverStanding(
    driver: Driver, team: Option<Team>, points: int, wins: nat, podiums: nat, position: nat)

  datatype ConstructorStanding = ConstructorStanding(team: Team, points: int, wins: nat, position: nat)
}
