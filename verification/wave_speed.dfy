// Characteristic speeds used to upwind the edge electric field: the
// Alfvén, sound and whistler speeds reconstructed on the face between a
// corner cell and its neighbour along the edge (`calculateWaveSpeedYZ`,
// `calculateWaveSpeedXZ`, `calculateWaveSpeedXY`, written once for all three
// orientations), and the CFL speed built from them.

module WaveSpeed {
  import opened FieldGrids
  import opened GuardedDivision

  /** +1 or -1: which half of the corner cell the reconstruction is taken on. */
  const Plus: real := 1.0
  const Minus: real := -1.0

  /**
   * The transverse field components and derivatives the edge solver hands
   * over: component t1 (with its derivatives along the edge axis and along
   * t2) and component t2 (with its derivatives along the edge axis and t1).
   */
  datatype Transverse = Transverse(b1: real, b2: real, d1dA: real, d1dT2: real, d2dA: real, d2dT1: real)

  datatype Speeds = Speeds(vA: real, vS: real, vW: real)

  /** Clamp into [lo, hi] with the source's if / else-if order. */
  function ClampDensity(rhom: real, lo: real, hi: real): (r: real)
    ensures lo <= hi ==> lo <= r <= hi
    ensures lo <= rhom <= hi ==> r == rhom
    ensures r == rhom || r == lo || r == hi
  {
    if rhom < lo then lo else if rhom > hi then hi else rhom
  }

  /** Negative reconstructed pressures are replaced by zero. */
  function NonNegativePressure(p: real): (r: real)
    ensures r >= 0.0
    ensures p >= 0.0 ==> r == p
    ensures p < 0.0 ==> r == 0.0
  {
    if p < 0.0 then 0.0 else p
  }

  /** Total (perturbed plus background) field at a cell. */
  function TotalB(g: Grids, c: Idx): Vec3 {
    g.perB(c).Plus(g.bgB(c).b)
  }

  /** Total field derivatives at a cell. */
  function TotalDB(g: Grids, c: Idx): Jac {
    g.dPerB(c).Plus(g.bgB(c).d)
  }

  /** Value at a reconstruction point offset by half a cell along t1 and t2. */
  function HalfOffset(base: real, dir1: real, d1: real, dir2: real, d2: real): real {
    base + dir1 * 0.5 * d1 + dir2 * 0.5 * d2
  }

  /** The mass density reconstructed at the corner point, then clamped to the four cells' range. */
  function ReconstructedDensity(g: Grids, a: Axis, c: Idx, dir1: real, dir2: real, minRhom: real, maxRhom: real): (r: real)
    ensures minRhom <= maxRhom ==> minRhom <= r <= maxRhom
  {
    var dm := g.dMoments(c);
    ClampDensity(
      HalfOffset(g.moments(c).rhom, dir1, dm.drhom.At(Transverse1(a)), dir2, dm.drhom.At(Transverse2(a))),
      minRhom, maxRhom)
  }

  /** Trace of the reconstructed pressure diagonal, negatives clipped. */
  function PressureTrace(g: Grids, a: Axis, c: Idx, dir1: real, dir2: real): (r: real)
    ensures r >= 0.0
  {
    var m := g.moments(c);
    var dp := g.dMoments(c).dp;
    var t1, t2 := Transverse1(a), Transverse2(a);
    NonNegativePressure(HalfOffset(m.p.x, dir1, dp.D(X, t1), dir2, dp.D(X, t2)))
    + NonNegativePressure(HalfOffset(m.p.y, dir1, dp.D(Y, t1), dir2, dp.D(Y, t2)))
    + NonNegativePressure(HalfOffset(m.p.z, dir1, dp.D(Z, t1), dir2, dp.D(Z, t2)))
  }

  function Square(x: real): (r: real)
    ensures r >= 0.0
  {
    x * x
  }

  /**
   * |B|^2 at the reconstruction point: the edge-axis component from the
   * average and difference of the cell and its neighbour along the axis, the
   * transverse components from the values handed over, each with its
   * one-twelfth variance term.
   */
  function MagneticEnergyDensity(g: Grids, a: Axis, c: Idx, t: Transverse, dir1: real, dir2: real): (r: real)
    ensures r >= 0.0
  {
    var nb := Shift(c, a, 1);
    var t1, t2 := Transverse1(a), Transverse2(a);
    var b0 := 0.5 * (TotalB(g, nb).At(a) + TotalB(g, c).At(a));
    var bA := TotalB(g, nb).At(a) - TotalB(g, c).At(a);
    var b1 := TotalDB(g, nb).D(a, t1) + TotalDB(g, c).D(a, t1);
    var bA1 := TotalDB(g, nb).D(a, t1) - TotalDB(g, c).D(a, t1);
    var b2 := TotalDB(g, nb).D(a, t2) + TotalDB(g, c).D(a, t2);
    var bA2 := TotalDB(g, nb).D(a, t2) - TotalDB(g, c).D(a, t2);
    var axial := Square(b0 + dir1 * 0.5 * b1 + dir2 * 0.5 * b2)
                 + (1.0 / 12.0) * Square(bA + dir1 * 0.5 * bA1 + dir2 * 0.5 * bA2);
    var trans1 := Square(t.b1 + dir2 * 0.5 * t.d1dT2) + (1.0 / 12.0) * Square(t.d1dA);
    var trans2 := Square(t.b2 + dir1 * 0.5 * t.d2dT1) + (1.0 / 12.0) * Square(t.d2dA);
    axial + trans1 + trans2
  }

  /** Squared Alfvén speed; zero where the guarded denominator vanishes. */
  function AlfvenSpeed2(phys: Physics, bMag2: real, rhom: real): (r: real)
    ensures phys.mu0 > 0.0 && rhom >= 0.0 && bMag2 >= 0.0 ==> r >= 0.0
    ensures rhom == 0.0 ==> r == 0.0
  {
    DivideIfNonZeroSign(bMag2, phys.mu0 * rhom);
    DivideIfNonZero(bMag2, phys.mu0 * rhom)
  }

  /** Squared sound speed (adiabatic index 3/2 on one third of the pressure trace). */
  function SoundSpeed2(pTrace: real, rhom: real): (r: real)
    ensures rhom >= 0.0 && pTrace >= 0.0 ==> r >= 0.0
    ensures rhom != 0.0 ==> r * (2.0 * rhom) == pTrace
  {
    DivideIfNonZeroSign(pTrace, 2.0 * rhom);
    DivideIfNonZero(pTrace, 2.0 * rhom)
  }

  /**
   * The three speeds at one corner. The square roots are taken of
   * non-negative arguments whenever the clamped density is non-negative, which
   * holds as soon as the lower end of the clamp range is.
   */
  function CornerSpeeds(phys: Physics, prm: Params, d: Spacing, g: Grids, a: Axis, c: Idx,
                        t: Transverse, dir1: real, dir2: real, minRhom: real, maxRhom: real): (s: Speeds)
    ensures prm.ohmHallTerm == 0 ==> s.vW == 0.0
    ensures
      var rhom := ReconstructedDensity(g, a, c, dir1, dir2, minRhom, maxRhom);
      var vA2 := AlfvenSpeed2(phys, MagneticEnergyDensity(g, a, c, t, dir1, dir2), rhom);
      var vS2 := SoundSpeed2(PressureTrace(g, a, c, dir1, dir2), rhom);
      && s.vA == phys.sqrt(vA2) && s.vS == phys.sqrt(vS2)
      && (prm.ohmHallTerm > 0 ==> s.vW == phys.whistler(vA2, rhom, d.dx))
      && (phys.mu0 > 0.0 && 0.0 <= minRhom <= maxRhom ==> vA2 >= 0.0 && vS2 >= 0.0)
  {
    var rhom := ReconstructedDensity(g, a, c, dir1, dir2, minRhom, maxRhom);
    var bMag2 := MagneticEnergyDensity(g, a, c, t, dir1, dir2);
    var vA2 := AlfvenSpeed2(phys, bMag2, rhom);
    var vS2 := SoundSpeed2(PressureTrace(g, a, c, dir1, dir2), rhom);
    var vW := if prm.ohmHallTerm > 0 then phys.whistler(vA2, rhom, d.dx) else 0.0;
    Speeds(phys.sqrt(vA2), phys.sqrt(vS2), vW)
  }

  function Max(a: real, b: real): real { if a >= b then a else b }
  function Min(a: real, b: real): real { if a <= b then a else b }

  /**
   * `calculateCflSpeed`: flow speed in the edge plane plus the larger of the
   * magnetosonic and whistler speeds.
   */
  function CflSpeed(phys: Physics, v0: real, v1: real, s: Speeds): (r: real)
    ensures var v := phys.sqrt(v0 * v0 + v1 * v1);
            var vMS := phys.sqrt(s.vA * s.vA + s.vS * s.vS);
            && r >= v + vMS && r >= v + s.vW
            && (r == v + vMS || r == v + s.vW)
  {
    var v := phys.sqrt(v0 * v0 + v1 * v1);
    var vMS := phys.sqrt(s.vA * s.vA + s.vS * s.vS);
    Max(v + vMS, v + s.vW)
  }

  /** Signal speed used for upwinding: magnetosonic plus whistler, capped at the configured maximum. */
  function SignalSpeed(phys: Physics, prm: Params, s: Speeds): (r: real)
    ensures r <= prm.maxWaveVelocity
    ensures r == prm.maxWaveVelocity || r == phys.sqrt(s.vA * s.vA + s.vS * s.vS) + s.vW
  {
    Min(prm.maxWaveVelocity, phys.sqrt(s.vA * s.vA + s.vS * s.vS) + s.vW)
  }
}
