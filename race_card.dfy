/**
 * The result predicates and the per-row points rule of src/components/RaceCard.tsx.
 *
 * The rule is stated against a full PointsSystem. (The calendar page hands the card
 * `pointsSystem.race`, a bare table, where a PointsSystem is expected; that call site is
 * not part of this model.)
 */
module RaceCard {
  import opened Championship

  /** `hasResults`: a result exists and it has qualifying entries. */
  predicate HasResults(result: Option<RaceResult>)
  {
    result.Some? && |result.value.qualifying| > 0
  }

  /** `complete`: a result exists with qualifying entries and at least one finisher. */
  predicate Complete(result: Option<RaceResult>)
  {
    result.Some? && |result.value.qualifying| > 0 && |result.value.race| > 0
  }

  /** A complete grand prix is one with results whose race has finishers; in particular it has results. */
  lemma CompleteMeansResultsWithFinishers(result: Option<RaceResult>)
    ensures Complete(result) <==> HasResults(result) && |result.value.race| > 0
    ensures Complete(result) ==> HasResults(result)
  {
  }

  /** `racePoints`: the sprint table at a sprint, the race table otherwise. */
  function PointsTable(gp: GrandPrix, ps: PointsSystem): seq<int>
  {
    if gp.isSprint then ps.sprint else ps.race
  }

  /** `table[index] || 0`: the entry when the index is inside the table, else 0. */
  function PointsAt(table: seq<int>, index: nat): int
  {
    if index < |table| then table[index] else 0
  }

  /** `hasFastestLap`: the row's driver set the fastest lap (flagged whatever the position). */
  predicate HasFastestLap(result: RaceResult, driverId: int)
  {
    result.fastestLap == Some(driverId)
  }

  /** `fastestLapEligible`: the fastest-lap holder finished in the first ten places. */
  predicate FastestLapEligible(result: RaceResult, index: nat, driverId: int)
  {
    HasFastestLap(result, driverId) && index < 10
  }

  /** The points shown on the row of `driverId`, who finished at 0-based `index`. */
  function RowPoints(gp: GrandPrix, result: RaceResult, index: nat, driverId: int, ps: PointsSystem): int
  {
    var points := PointsAt(PointsTable(gp, ps), index);
    if FastestLapEligible(result, index, driverId) then points + ps.fastestLap else points
  }

  /** The "+points" label is rendered only for a positive amount. */
  predicate ShowsPointsLabel(gp: GrandPrix, result: RaceResult, index: nat, driverId: int, ps: PointsSystem)
  {
    RowPoints(gp, result, index, driverId, ps) > 0
  }

  /** A sprint row is scored exactly as a race row would be under the sprint table. */
  lemma SprintRowUsesSprintTable(gp: GrandPrix, result: RaceResult, index: nat, driverId: int, ps: PointsSystem)
    requires gp.isSprint
    ensures RowPoints(gp, result, index, driverId, ps) ==
            RowPoints(gp.(isSprint := false), result, index, driverId, ps.(race := ps.sprint))
    ensures PointsTable(gp, ps) == ps.sprint
  {
  }

  /** A race row never looks at the sprint table. */
  lemma RaceRowIgnoresSprintTable(gp: GrandPrix, result: RaceResult, index: nat, driverId: int, ps: PointsSystem, sprint: seq<int>)
    requires !gp.isSprint
    ensures RowPoints(gp, result, index, driverId, ps) == RowPoints(gp, result, index, driverId, ps.(sprint := sprint))
    ensures PointsTable(gp, ps) == ps.race
  {
  }

  /** The fastest lap adds the bonus exactly when it belongs to this row's driver and the index is below 10. */
  lemma FastestLapBonus(gp: GrandPrix, result: RaceResult, index: nat, driverId: int, ps: PointsSystem)
    ensures RowPoints(gp, result, index, driverId, ps) ==
            RowPoints(gp, result.(fastestLap := None), index, driverId, ps) +
            (if result.fastestLap == Some(driverId) && index < 10 then ps.fastestLap else 0)
    ensures RowPoints(gp, result.(fastestLap := None), index, driverId, ps) == PointsAt(PointsTable(gp, ps), index)
  {
  }

  /** A fastest-lap holder at index 10 or beyond is flagged but earns only the table's points. */
  lemma FastestLapOutsideTopTen(gp: GrandPrix, result: RaceResult, index: nat, driverId: int, ps: PointsSystem)
    requires result.fastestLap == Some(driverId) && index >= 10
    ensures HasFastestLap(result, driverId) && !FastestLapEligible(result, index, driverId)
    ensures RowPoints(gp, result, index, driverId, ps) == PointsAt(PointsTable(gp, ps), index)
  {
  }

  /** Past the end of the table a row earns at most the fastest-lap bonus. */
  lemma RowPointsBeyondTable(gp: GrandPrix, result: RaceResult, index: nat, driverId: int, ps: PointsSystem)
    requires index >= |PointsTable(gp, ps)|
    ensures RowPoints(gp, result, index, driverId, ps) ==
            if FastestLapEligible(result, index, driverId) then ps.fastestLap else 0
  {
  }

  predicate NonNegative(table: seq<int>)
  {
    forall i :: 0 <= i < |table| ==> table[i] >= 0
  }

  /**
   * With no negative points anywhere, the label appears exactly when the position scores
   * or the row earns a positive fastest-lap bonus.
   */
  lemma PointsLabelShownWhenScoring(gp: GrandPrix, result: RaceResult, index: nat, driverId: int, ps: PointsSystem)
    requires NonNegative(ps.race) && NonNegative(ps.sprint) && ps.fastestLap >= 0
    ensures ShowsPointsLabel(gp, result, index, driverId, ps) <==>
            PointsAt(PointsTable(gp, ps), index) > 0 || (FastestLapEligible(result, index, driverId) && ps.fastestLap > 0)
  {
  }

  /** Sum of the first `n` entries of `table`, counting 0 past its end. */
  function TableSum(table: seq<int>, n: nat): int
  {
    if n == 0 then 0 else TableSum(table, n - 1) + PointsAt(table, n - 1)
  }

  /** Sum of the points shown on the first `n` rows of the finishing order. */
  function ShownPoints(gp: GrandPrix, result: RaceResult, ps: PointsSystem, n: nat): int
    requires n <= |result.race|
  {
    if n == 0 then 0
    else ShownPoints(gp, result, ps, n - 1) + RowPoints(gp, result, n - 1, result.race[n - 1], ps)
  }

  /** The fastest-lap holder is among the first `n` finishers and within the first ten places. */
  predicate BonusShownWithin(result: RaceResult, n: nat)
    requires n <= |result.race|
  {
    exists i :: 0 <= i < n && i < 10 && HasFastestLap(result, result.race[i])
  }

  /**
   * With every finisher listed once, the points shown over the rows of a grand prix add
   * up to the table's points for the occupied positions, plus the bonus once if the
   * fastest-lap holder finished in the first ten.
   */
  lemma {:induction false} ShownPointsTotal(gp: GrandPrix, result: RaceResult, ps: PointsSystem, n: nat)
    requires n <= |result.race|
    requires forall i, j :: 0 <= i < j < |result.race| ==> result.race[i] != result.race[j]
    ensures ShownPoints(gp, result, ps, n) ==
            TableSum(PointsTable(gp, ps), n) + (if BonusShownWithin(result, n) then ps.fastestLap else 0)
  {
    if n > 0 {
      ShownPointsTotal(gp, result, ps, n - 1);
      var i := n - 1;
      if BonusShownWithin(result, n - 1) {
        var j :| 0 <= j < n - 1 && j < 10 && HasFastestLap(result, result.race[j]);
        assert !HasFastestLap(result, result.race[i]);
        assert BonusShownWithin(result, n);
      } else if FastestLapEligible(result, i, result.race[i]) {
        assert BonusShownWithin(result, n);
      } else {
        assert !BonusShownWithin(result, n);
      }
    }
  }
}
