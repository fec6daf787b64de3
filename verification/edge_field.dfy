// The upwinded edge electric field of the Londrillo–Del Zanna constrained
// transport scheme (`calculateEdgeElectricFieldX/Y/Z`). The three source
// functions differ only in which axis the edge runs along; here the edge
// axis is a parameter and the transverse axes t1, t2 are derived from it.
//
// An edge touches four cells. Each contributes an electric field (the ideal
// -V x B term plus the optional resistive, Hall and electron-pressure terms)
// and one-sided signal speeds; the edge value is the four fields weighted by
// products of the largest one-sided speeds.

module EdgeField {
  import opened FieldGrids
  import opened WaveSpeed

  /** The cell playing corner role `k` for the edge stored in cell `c`. */
  function CornerCell(a: Axis, c: Idx, k: Corner): Idx {
    match k
    case SW => c
    case SE => Shift(c, Transverse1(a), -1)
    case NW => Shift(c, Transverse2(a), -1)
    case NE => Shift(Shift(c, Transverse1(a), -1), Transverse2(a), -1)
  }

  /** Cell supplying the t1 field component (the S row for SW/SE, the N row for NW/NE). */
  function RowCell(a: Axis, c: Idx, k: Corner): Idx {
    if k == SW || k == SE then CornerCell(a, c, SW) else CornerCell(a, c, NW)
  }

  /** Cell supplying the t2 field component (the W column for SW/NW, the E column for SE/NE). */
  function ColumnCell(a: Axis, c: Idx, k: Corner): Idx {
    if k == SW || k == NW then CornerCell(a, c, SW) else CornerCell(a, c, SE)
  }

  /** Reconstruction side along t1 and t2: towards the edge from the corner cell. */
  function Dir1(k: Corner): real { if k == SE || k == NE then Plus else Minus }
  function Dir2(k: Corner): real { if k == NW || k == NE then Plus else Minus }

  lemma ExStencilCells(i: int, j: int, k: int)
    ensures CornerCell(X, (i, j, k), SE) == (i, j - 1, k)
    ensures CornerCell(X, (i, j, k), NW) == (i, j, k - 1)
    ensures CornerCell(X, (i, j, k), NE) == (i, j - 1, k - 1)
    ensures Shift(CornerCell(X, (i, j, k), NE), X, 1) == (i + 1, j - 1, k - 1)
  {
  }

  lemma EyStencilCells(i: int, j: int, k: int)
    ensures CornerCell(Y, (i, j, k), SE) == (i, j, k - 1)
    ensures CornerCell(Y, (i, j, k), NW) == (i - 1, j, k)
    ensures CornerCell(Y, (i, j, k), NE) == (i - 1, j, k - 1)
    ensures Shift(CornerCell(Y, (i, j, k), NE), Y, 1) == (i - 1, j + 1, k - 1)
  {
  }

  lemma EzStencilCells(i: int, j: int, k: int)
    ensures CornerCell(Z, (i, j, k), SE) == (i - 1, j, k)
    ensures CornerCell(Z, (i, j, k), NW) == (i, j - 1, k)
    ensures CornerCell(Z, (i, j, k), NE) == (i - 1, j - 1, k)
    ensures Shift(CornerCell(Z, (i, j, k), NE), Z, 1) == (i - 1, j - 1, k + 1)
  {
  }

  /** The clamp range for reconstructed densities: the four corner densities, seeded with the type's extremes. */
  datatype DensityRange = DensityRange(lo: real, hi: real)

  function CornerDensities(g: Grids, a: Axis, c: Idx): (rs: seq<real>)
    ensures |rs| == 4
  {
    [g.moments(CornerCell(a, c, SW)).rhom, g.moments(CornerCell(a, c, SE)).rhom,
     g.moments(CornerCell(a, c, NW)).rhom, g.moments(CornerCell(a, c, NE)).rhom]
  }

  function DensityRangeOf(g: Grids, a: Axis, c: Idx): (r: DensityRange)
    ensures var rs := CornerDensities(g, a, c);
            && (forall n :: 0 <= n < 4 ==> r.lo <= rs[n] <= r.hi)
            && (r.lo == RealMax || exists n :: 0 <= n < 4 && r.lo == rs[n])
            && (r.hi == RealMinPositive || exists n :: 0 <= n < 4 && r.hi == rs[n])
    ensures r.lo <= r.hi
    ensures r.hi >= RealMinPositive > 0.0
    // If every corner carries positive mass density, so does the lower clamp bound.
    ensures (forall n :: 0 <= n < 4 ==> CornerDensities(g, a, c)[n] > 0.0) ==> r.lo > 0.0
  {
    var rs := CornerDensities(g, a, c);
    var lo := Min(RealMax, Min(rs[0], Min(rs[1], Min(rs[2], rs[3]))));
    var hi := Max(RealMinPositive, Max(rs[0], Max(rs[1], Max(rs[2], rs[3]))));
    DensityRange(lo, hi)
  }

  function TransverseAt(g: Grids, a: Axis, c: Idx, k: Corner): Transverse {
    var t1, t2 := Transverse1(a), Transverse2(a);
    var row, col := RowCell(a, c, k), ColumnCell(a, c, k);
    Transverse(TotalB(g, row).At(t1), TotalB(g, col).At(t2),
               TotalDB(g, row).D(t1, a), TotalDB(g, row).D(t1, t2),
               TotalDB(g, col).D(t2, a), TotalDB(g, col).D(t2, t1))
  }

  /** Ideal Ohm's-law term -(V x B) along the edge, with this corner's own velocity. */
  function IdealTerm(g: Grids, a: Axis, c: Idx, k: Corner): real {
    var t1, t2 := Transverse1(a), Transverse2(a);
    var v := g.moments(CornerCell(a, c, k)).v;
    TotalB(g, RowCell(a, c, k)).At(t1) * v.At(t2) - TotalB(g, ColumnCell(a, c, k)).At(t2) * v.At(t1)
  }

  /** Resistivity needs a non-zero charge density at every corner. */
  predicate ResistiveDefined(prm: Params, g: Grids, a: Axis, c: Idx) {
    prm.resistivity > 0.0 ==>
      && g.moments(CornerCell(a, c, SW)).rhoq != 0.0
      && g.moments(CornerCell(a, c, SE)).rhoq != 0.0
      && g.moments(CornerCell(a, c, NW)).rhoq != 0.0
      && g.moments(CornerCell(a, c, NE)).rhoq != 0.0
  }

  /** eta |B| / (rho_q mu_0) times the edge-axis component of the curl of the perturbed field. */
  function ResistiveTerm(phys: Physics, prm: Params, d: Spacing, g: Grids, a: Axis, c: Idx, k: Corner): (r: real)
    requires ValidSetup(phys, prm, d) && ResistiveDefined(prm, g, a, c)
    ensures prm.resistivity <= 0.0 ==> r == 0.0
  {
    if prm.resistivity > 0.0 then
      var t1, t2 := Transverse1(a), Transverse2(a);
      var cc := CornerCell(a, c, k);
      var db := g.dPerB(cc);
      prm.resistivity * phys.sqrt(TotalB(g, cc).Norm2()) / g.moments(cc).rhoq / phys.mu0
        * (db.D(t2, t1) / d.At(t1) - db.D(t1, t2) / d.At(t2))
    else 0.0
  }

  /** The electric field of one corner cell along the edge. */
  function CornerField(phys: Physics, prm: Params, d: Spacing, g: Grids, a: Axis, c: Idx, k: Corner): (e: real)
    requires ValidSetup(phys, prm, d) && ResistiveDefined(prm, g, a, c)
    // Each optional term enters only when its coefficient is positive.
    ensures prm.resistivity <= 0.0 && prm.ohmHallTerm == 0 && prm.ohmGradPeTerm == 0 && prm.firstOrderSpace
            ==> e == IdealTerm(g, a, c, k)
  {
    var cc := CornerCell(a, c, k);
    IdealTerm(g, a, c, k)
    + ResistiveTerm(phys, prm, d, g, a, c, k)
    + (if prm.ohmHallTerm > 0 then g.eHall(cc).At(a).At(k) else 0.0)
    + (if prm.ohmGradPeTerm > 0 then g.eGradPe(cc).At(a) else 0.0)
    + (if prm.firstOrderSpace then 0.0 else g.secondOrder(a, cc, k))
  }

  /** Everything the upwinding takes from one corner. */
  datatype Sample = Sample(e: real, v1: real, v2: real, signal: real, cfl: real)

  function SampleAt(phys: Physics, prm: Params, d: Spacing, g: Grids, a: Axis, c: Idx, k: Corner): (s: Sample)
    requires ValidSetup(phys, prm, d) && ResistiveDefined(prm, g, a, c)
    ensures s.signal <= prm.maxWaveVelocity
  {
    var cc := CornerCell(a, c, k);
    var v := g.moments(cc).v;
    var range := DensityRangeOf(g, a, c);
    var sp := CornerSpeeds(phys, prm, d, g, a, cc, TransverseAt(g, a, c, k), Dir1(k), Dir2(k), range.lo, range.hi);
    Sample(CornerField(phys, prm, d, g, a, c, k), v.At(Transverse1(a)), v.At(Transverse2(a)),
           SignalSpeed(phys, prm, sp), CflSpeed(phys, v.At(Transverse1(a)), v.At(Transverse2(a)), sp))
  }

  function Samples(phys: Physics, prm: Params, d: Spacing, g: Grids, a: Axis, c: Idx): (ss: seq<Sample>)
    requires ValidSetup(phys, prm, d) && ResistiveDefined(prm, g, a, c)
    ensures |ss| == 4
  {
    [SampleAt(phys, prm, d, g, a, c, SW), SampleAt(phys, prm, d, g, a, c, SE),
     SampleAt(phys, prm, d, g, a, c, NW), SampleAt(phys, prm, d, g, a, c, NE)]
  }

  /** Largest one-sided characteristic speeds along t1 and t2. */
  datatype Upwind = Upwind(pos1: real, neg1: real, pos2: real, neg2: real)

  /**
   * The running maxima over the corners visited so far: the first corner
   * takes max(0, .), later ones max(previous, .).
   */
  function Accumulate(ss: seq<Sample>): (u: Upwind)
    ensures u.pos1 >= 0.0 && u.neg1 >= 0.0 && u.pos2 >= 0.0 && u.neg2 >= 0.0
    ensures forall n :: 0 <= n < |ss| ==>
              && u.pos1 >= ss[n].v1 + ss[n].signal && u.neg1 >= -ss[n].v1 + ss[n].signal
              && u.pos2 >= ss[n].v2 + ss[n].signal && u.neg2 >= -ss[n].v2 + ss[n].signal
  {
    if |ss| == 0 then Upwind(0.0, 0.0, 0.0, 0.0)
    else
      var u := Accumulate(ss[..|ss| - 1]);
      var s := ss[|ss| - 1];
      Upwind(Max(u.pos1, s.v1 + s.signal), Max(u.neg1, -s.v1 + s.signal),
             Max(u.pos2, s.v2 + s.signal), Max(u.neg2, -s.v2 + s.signal))
  }

  /** Each running maximum is either the zero seed or the speed of some corner. */
  lemma {:induction false} AccumulateAttained(ss: seq<Sample>)
    ensures var u := Accumulate(ss);
            && (u.pos1 == 0.0 || exists n :: 0 <= n < |ss| && u.pos1 == ss[n].v1 + ss[n].signal)
            && (u.neg1 == 0.0 || exists n :: 0 <= n < |ss| && u.neg1 == -ss[n].v1 + ss[n].signal)
            && (u.pos2 == 0.0 || exists n :: 0 <= n < |ss| && u.pos2 == ss[n].v2 + ss[n].signal)
            && (u.neg2 == 0.0 || exists n :: 0 <= n < |ss| && u.neg2 == -ss[n].v2 + ss[n].signal)
  {
    if |ss| > 0 {
      var p := ss[..|ss| - 1];
      AccumulateAttained(p);
      forall n | 0 <= n < |p| ensures p[n] == ss[n] {}
    }
  }

  /** Running maximum of the corners' CFL speeds, starting from zero. */
  function MaxCflSpeed(ss: seq<Sample>): (m: real)
    ensures m >= 0.0
    ensures forall n :: 0 <= n < |ss| ==> m >= ss[n].cfl
  {
    if |ss| == 0 then 0.0 else Max(MaxCflSpeed(ss[..|ss| - 1]), ss[|ss| - 1].cfl)
  }

  /** The maximum is the zero seed or the CFL speed of some corner. */
  lemma {:induction false} MaxCflSpeedAttained(ss: seq<Sample>)
    ensures MaxCflSpeed(ss) == 0.0 || exists n :: 0 <= n < |ss| && MaxCflSpeed(ss) == ss[n].cfl
  {
    if |ss| > 0 {
      var p := ss[..|ss| - 1];
      MaxCflSpeedAttained(p);
      forall n | 0 <= n < |p| ensures p[n] == ss[n] {}
    }
  }

  /** Product of the two speed sums: the total weight of the four corners. */
  function TotalWeight(u: Upwind): real {
    (u.pos1 + u.neg1) * (u.pos2 + u.neg2)
  }

  /**
   * Each corner's field times its weight, summed: NE is weighted by
   * pos1*pos2, SE by pos1*neg2, NW by neg1*pos2, SW by neg1*neg2.
   */
  function WeightedSum(u: Upwind, eSW: real, eSE: real, eNW: real, eNE: real): real {
    u.pos1 * u.pos2 * eNE + u.pos1 * u.neg2 * eSE + u.neg1 * u.pos2 * eNW + u.neg1 * u.neg2 * eSW
  }

  /**
   * Each corner is weighted by the speeds pointing from it towards the edge:
   * NE by pos1*pos2, SE by pos1*neg2, NW by neg1*pos2, SW by neg1*neg2.
   */
  function UpwindAverage(u: Upwind, eSW: real, eSE: real, eNW: real, eNE: real, eps: real): (r: real)
    requires u.pos1 >= 0.0 && u.neg1 >= 0.0 && u.pos2 >= 0.0 && u.neg2 >= 0.0 && eps > 0.0
    ensures r * (TotalWeight(u) + eps) == WeightedSum(u, eSW, eSE, eNW, eNE)
  {
    assert TotalWeight(u) >= 0.0;
    WeightedSum(u, eSW, eSE, eNW, eNE) / (TotalWeight(u) + eps)
  }

  /** Jump of the t1 component between the S and N rows, and of t2 between the W and E columns. */
  function JumpAcrossT2(prm: Params, g: Grids, a: Axis, c: Idx): real {
    var t1, t2 := Transverse1(a), Transverse2(a);
    var s, n := CornerCell(a, c, SW), CornerCell(a, c, NW);
    if prm.firstOrderSpace then g.perB(s).At(t1) - g.perB(n).At(t1)
    else (g.perB(s).At(t1) - 0.5 * g.dPerB(s).D(t1, t2)) - (g.perB(n).At(t1) + 0.5 * g.dPerB(n).D(t1, t2))
  }

  function JumpAcrossT1(prm: Params, g: Grids, a: Axis, c: Idx): real {
    var t1, t2 := Transverse1(a), Transverse2(a);
    var w, e := CornerCell(a, c, SW), CornerCell(a, c, SE);
    if prm.firstOrderSpace then g.perB(w).At(t2) - g.perB(e).At(t2)
    else (g.perB(w).At(t2) - 0.5 * g.dPerB(w).D(t2, t1)) - (g.perB(e).At(t2) + 0.5 * g.dPerB(e).D(t2, t1))
  }

  /** Optional diffusive correction added after the upwinded average. */
  function DiffusiveTerm(prm: Params, g: Grids, a: Axis, c: Idx, u: Upwind): (r: real)
    requires u.pos1 >= 0.0 && u.neg1 >= 0.0 && u.pos2 >= 0.0 && u.neg2 >= 0.0 && prm.eps > 0.0
    ensures !prm.diffusiveETerms ==> r == 0.0
    // A side where the flow is one-directional (one of its speeds is zero) adds no diffusion.
    ensures (u.pos1 == 0.0 || u.neg1 == 0.0) && (u.pos2 == 0.0 || u.neg2 == 0.0) ==> r == 0.0
  {
    if prm.diffusiveETerms then
      - u.pos2 * u.neg2 / (u.pos2 + u.neg2 + prm.eps) * JumpAcrossT2(prm, g, a, c)
      + u.pos1 * u.neg1 / (u.pos1 + u.neg1 + prm.eps) * JumpAcrossT1(prm, g, a, c)
    else 0.0
  }

  /** The smallest transverse cell size, seeded with the type's largest value. */
  function MinTransverseSpacing(d: Spacing, a: Axis): (m: real)
    ensures m <= d.At(Transverse1(a)) && m <= d.At(Transverse2(a))
    ensures m == RealMax || m == d.At(Transverse1(a)) || m == d.At(Transverse2(a))
  {
    Min(Min(RealMax, d.At(Transverse1(a))), d.At(Transverse2(a)))
  }

  /**
   * The cell's allowed field-solver step after this edge: on the final stage
   * of a step and with a non-zero speed, no more than the CFL = 1 step.
   */
  function UpdatedMaxFsDt(stage: Stage, d: Spacing, a: Axis, maxV: real, maxFsDt: real): (r: real)
    requires maxV >= 0.0
    ensures r <= maxFsDt
    ensures stage == Order2Step1 || maxV == 0.0 ==> r == maxFsDt
    ensures stage != Order2Step1 && maxV > 0.0 ==> r * maxV <= MinTransverseSpacing(d, a)
    ensures r == maxFsDt || r * maxV == MinTransverseSpacing(d, a)
  {
    if stage != Order2Step1 && maxV != 0.0 then
      var limit := MinTransverseSpacing(d, a) / maxV;
      CflLimit(MinTransverseSpacing(d, a), maxV, maxFsDt);
      Min(maxFsDt, limit)
    else maxFsDt
  }

  lemma CflLimit(m: real, maxV: real, maxFsDt: real)
    requires maxV > 0.0
    ensures (m / maxV) * maxV == m
    ensures Min(maxFsDt, m / maxV) * maxV <= m
  {
    var q := m / maxV;
    if maxFsDt <= q {
      assert maxFsDt * maxV <= q * maxV;
    }
  }

  datatype EdgeOutcome = EdgeOutcome(e: real, maxFsDt: real)

  /** The upwinded average of the four corner fields plus the optional diffusive correction. */
  function EdgeValue(prm: Params, g: Grids, a: Axis, c: Idx, u: Upwind, ss: seq<Sample>): (e: real)
    requires |ss| == 4 && prm.eps > 0.0
    requires u.pos1 >= 0.0 && u.neg1 >= 0.0 && u.pos2 >= 0.0 && u.neg2 >= 0.0
    // Without diffusive terms the edge value is the upwinded average alone.
    ensures !prm.diffusiveETerms ==> e * (TotalWeight(u) + prm.eps) == WeightedSum(u, ss[0].e, ss[1].e, ss[2].e, ss[3].e)
  {
    UpwindAverage(u, ss[0].e, ss[1].e, ss[2].e, ss[3].e, prm.eps) + DiffusiveTerm(prm, g, a, c, u)
  }

  /** The upwinded edge value and the updated step bound, from the four corner samples. */
  function Combine(prm: Params, d: Spacing, g: Grids, a: Axis, c: Idx, ss: seq<Sample>,
                   stage: Stage, maxFsDt: real): (r: EdgeOutcome)
    requires |ss| == 4 && prm.eps > 0.0
    ensures r.maxFsDt <= maxFsDt
    ensures stage == Order2Step1 || MaxCflSpeed(ss) == 0.0 ==> r.maxFsDt == maxFsDt
  {
    EdgeOutcome(EdgeValue(prm, g, a, c, Accumulate(ss), ss), UpdatedMaxFsDt(stage, d, a, MaxCflSpeed(ss), maxFsDt))
  }

  /**
   * One edge component of the upwinded electric field, stored in cell `c`,
   * together with the cell's updated time-step bound: never larger than
   * before, untouched on the first stage of a second-order step.
   */
  function EdgeElectricField(phys: Physics, prm: Params, d: Spacing, g: Grids, a: Axis, c: Idx,
                             stage: Stage, maxFsDt: real): (r: EdgeOutcome)
    requires ValidSetup(phys, prm, d) && ResistiveDefined(prm, g, a, c)
    ensures r.maxFsDt <= maxFsDt
    ensures stage == Order2Step1 ==> r.maxFsDt == maxFsDt
  {
    Combine(prm, d, g, a, c, Samples(phys, prm, d, g, a, c), stage, maxFsDt)
  }

  /** Equal corner fields sum to that field times the total weight. */
  lemma {:induction false} WeightedSumOfEqualFields(u: Upwind, e0: real)
    ensures WeightedSum(u, e0, e0, e0, e0) == TotalWeight(u) * e0
  {
    assert (u.pos1 + u.neg1) * (u.pos2 + u.neg2) == u.pos1 * u.pos2 + u.pos1 * u.neg2 + u.neg1 * u.pos2 + u.neg1 * u.neg2;
  }

  /**
   * With diffusion off, equal corner fields e0 give e0 scaled by
   * W / (W + eps), W the total weight: the four weights add up to the
   * denominator except for the regularising eps. In particular four
   * vanishing corner fields give a vanishing edge field.
   */
  lemma {:induction false} UniformCornersGiveUniformEdge(prm: Params, g: Grids, a: Axis, c: Idx,
                                                        u: Upwind, ss: seq<Sample>, e0: real)
    requires |ss| == 4 && prm.eps > 0.0
    requires u.pos1 >= 0.0 && u.neg1 >= 0.0 && u.pos2 >= 0.0 && u.neg2 >= 0.0
    requires !prm.diffusiveETerms
    requires forall n :: 0 <= n < 4 ==> ss[n].e == e0
    ensures EdgeValue(prm, g, a, c, u, ss) * (TotalWeight(u) + prm.eps) == e0 * TotalWeight(u)
    ensures e0 == 0.0 ==> EdgeValue(prm, g, a, c, u, ss) == 0.0
  {
    var e := EdgeValue(prm, g, a, c, u, ss);
    assert ss[0].e == e0 && ss[1].e == e0 && ss[2].e == e0 && ss[3].e == e0;
    WeightedSumOfEqualFields(u, e0);
    assert TotalWeight(u) + prm.eps > 0.0;
  }

  /**
   * No upwinding speed exceeds the signal-speed cap plus the largest flow
   * speed among the corners.
   */
  lemma {:induction false} UpwindSpeedsBounded(ss: seq<Sample>, cap: real, vmax: real)
    requires cap >= 0.0 && vmax >= 0.0
    requires forall n :: 0 <= n < |ss| ==> -vmax <= ss[n].v1 <= vmax && -vmax <= ss[n].v2 <= vmax
    requires forall n :: 0 <= n < |ss| ==> ss[n].signal <= cap
    ensures var u := Accumulate(ss);
            && u.pos1 <= cap + vmax && u.neg1 <= cap + vmax
            && u.pos2 <= cap + vmax && u.neg2 <= cap + vmax
  {
    if |ss| > 0 {
      var p := ss[..|ss| - 1];
      forall n | 0 <= n < |p| ensures p[n] == ss[n] {}
      UpwindSpeedsBounded(p, cap, vmax);
    }
  }
}
