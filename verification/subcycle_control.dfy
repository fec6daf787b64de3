// The field solver's subcycle step control: after each subcycle the step is
// checked against the CFL bound, then stretched or halved so that the last
// one or two subcycles land exactly on the target time.

module SubcycleControl {
  /** `numeric_limits<uint>::max()` and the modulus of 32-bit unsigned arithmetic. */
  const UintMax: nat := 0xFFFF_FFFF
  const UintModulus: nat := 0x1_0000_0000

  /** `fieldSolverMaxCFL` and `fieldSolverMinCFL`. */
  datatype Cfl = Cfl(maxCfl: real, minCfl: real)

  /** The CFL numbers are non-negative and the lower one is at most the upper one. */
  predicate CflOrdered(cfl: Cfl) {
    0.0 <= cfl.minCfl <= cfl.maxCfl
  }

  /**
   * The CFL check: a step above `maxCfl * dtMaxGlobal` drops to the mean of
   * the two CFL numbers times `dtMaxGlobal`; a step within the bound stays.
   * Either way the step ends within the bound and no longer than before.
   */
  function CflAdjusted(cfl: Cfl, dt: real, dtMaxGlobal: real): (r: real)
    ensures dt <= dtMaxGlobal * cfl.maxCfl ==> r == dt
    ensures dt > dtMaxGlobal * cfl.maxCfl ==> r == 0.5 * (cfl.maxCfl + cfl.minCfl) * dtMaxGlobal
    ensures CflOrdered(cfl) && dtMaxGlobal >= 0.0 ==> r <= dtMaxGlobal * cfl.maxCfl && r <= dt
    ensures CflOrdered(cfl) && dtMaxGlobal >= 0.0 && dt >= 0.0 ==> r >= 0.0
  {
    if dt > dtMaxGlobal * cfl.maxCfl then
      var mean := 0.5 * (cfl.maxCfl + cfl.minCfl);
      assert CflOrdered(cfl) && dtMaxGlobal >= 0.0 ==> mean * dtMaxGlobal <= cfl.maxCfl * dtMaxGlobal by {
        if CflOrdered(cfl) && dtMaxGlobal >= 0.0 {
          assert (cfl.maxCfl - mean) * dtMaxGlobal >= 0.0;
        }
      }
      mean * dtMaxGlobal
    else dt
  }

  /**
   * What happens to the step limit when the snap to the target does not
   * apply: the source keeps the limit a previous snap set, the corrected
   * rule lifts it again.
   */
  datatype Rule = AsWritten | Corrected

  /** The step and the subcycle-count limit after the reassessment. */
  datatype Reassessed = Reassessed(dt: real, maxCount: nat)

  /** Whether the reassessed step is snapped to the target: 1.5 more steps would overshoot it. */
  predicate Snaps(cfl: Cfl, target: real, t: real, dt: real, dtMaxGlobal: real) {
    t + 1.5 * CflAdjusted(cfl, dt, dtMaxGlobal) > target
  }

  /**
   * The end of a subcycle that did not finish the loop: the CFL check,
   * then the snap. A snap makes the rest of the way one step, or two equal
   * steps if one would break the CFL bound, and limits the count
   * accordingly (in 32-bit arithmetic).
   */
  function Reassess(rule: Rule, cfl: Cfl, target: real, t: real, dt: real, count: nat, maxCount: nat,
                    dtMaxGlobal: real): (r: Reassessed)
    ensures !Snaps(cfl, target, t, dt, dtMaxGlobal) ==>
              r.dt == CflAdjusted(cfl, dt, dtMaxGlobal) && r.maxCount == (if rule == AsWritten then maxCount else UintMax)
    // A snap leaves exactly the steps, of equal length, that close the gap to the target.
    ensures Snaps(cfl, target, t, dt, dtMaxGlobal) && count + 2 <= UintMax ==>
              && count < r.maxCount <= count + 2
              && (r.maxCount - count) as real * r.dt == target - t
    // Two half steps only when the whole gap in one step would break the CFL bound.
    ensures Snaps(cfl, target, t, dt, dtMaxGlobal) && count + 2 <= UintMax ==>
              (r.maxCount == count + 1 <==> target - t <= dtMaxGlobal * cfl.maxCfl)
    ensures maxCount <= UintMax ==> r.maxCount <= UintMax
  {
    if Snaps(cfl, target, t, dt, dtMaxGlobal) then
      assert count + 2 <= UintMax ==> (count + 1) % UintModulus == count + 1 && (count + 2) % UintModulus == count + 2;
      if target - t > dtMaxGlobal * cfl.maxCfl then Reassessed((target - t) / 2.0, (count + 2) % UintModulus)
      else Reassessed(target - t, (count + 1) % UintModulus)
    else
      Reassessed(CflAdjusted(cfl, dt, dtMaxGlobal), if rule == AsWritten then maxCount else UintMax)
  }
}
