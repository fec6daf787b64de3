// The zero-guarded division shared by the moment kernels and the wave-speed
// estimates, and the moment-count constants declared next to it.

module GuardedDivision {

  /** Number of first-order moments (density, three momentum components, charge density). */
  const nMoments1: nat := 5
  /** Number of second-order moments (the pressure diagonal). */
  const nMoments2: nat := 3
  /** Largest number of particle populations a moment kernel handles. */
  const MaxPopulations: nat := 10

  /**
   * `divideIfNonZeroHD`: a zero denominator yields zero instead of a
   * division fault; any other denominator yields the ordinary quotient.
   */
  function DivideIfNonZero(numerator: real, denominator: real): (q: real)
    ensures denominator == 0.0 ==> q == 0.0
    ensures denominator != 0.0 ==> q * denominator == numerator
    ensures numerator == 0.0 ==> q == 0.0
  {
    if denominator == 0.0 then 0.0 else numerator / denominator
  }

  /** The quotient has the sign of numerator times denominator (zero counts as both). */
  lemma DivideIfNonZeroSign(numerator: real, denominator: real)
    ensures numerator >= 0.0 && denominator >= 0.0 ==> DivideIfNonZero(numerator, denominator) >= 0.0
    ensures numerator >= 0.0 && denominator < 0.0 ==> DivideIfNonZero(numerator, denominator) <= 0.0
  {
    if denominator != 0.0 {
      var q := numerator / denominator;
      assert q * denominator == numerator;
      if numerator >= 0.0 && denominator > 0.0 && q < 0.0 {
        assert q * denominator < 0.0;
      }
      if numerator >= 0.0 && denominator < 0.0 && q > 0.0 {
        assert q * denominator < 0.0;
      }
    }
  }

  /** Scaling numerator and denominator by the same non-zero factor leaves the quotient unchanged. */
  lemma DivideIfNonZeroScale(numerator: real, denominator: real, k: real)
    requires k != 0.0
    ensures DivideIfNonZero(k * numerator, k * denominator) == DivideIfNonZero(numerator, denominator)
  {
    if denominator != 0.0 {
      var q := numerator / denominator;
      var q' := (k * numerator) / (k * denominator);
      assert q * denominator == numerator;
      assert q' * (k * denominator) == k * numerator;
      assert k * (q' * denominator) == k * (q * denominator);
      assert q' * denominator == q * denominator;
    }
  }
}
