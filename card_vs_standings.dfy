/** The points a race card shows next to what the standings credit for the same result. */
module CardVersusStandings {
  import opened Championship
  import opened Standings
  import opened RaceCard

  /**
   * A sole finisher of a sprint who sets the fastest lap is shown the sprint table's first
   * entry plus the bonus, while the standings credit that result with the race table's first
   * entry, a win and a podium: the two agree only if the race entry happens to equal that sum.
   */
  lemma SprintWinnerShownAndCreditedDifferently(gp: GrandPrix, result: RaceResult, driverId: int, ps: PointsSystem)
    requires gp.isSprint && result.race == [driverId] && result.fastestLap == Some(driverId)
    requires |ps.sprint| > 0 && Scores(ps.race, 0)
    ensures RowPoints(gp, result, 0, driverId, ps) == ps.sprint[0] + ps.fastestLap
    ensures RaceDriverTally(result.race, ps.race, driverId) == DriverTally(ps.race[0], 1, 1)
  {
    assert result.race[..0] == [];
  }
}
