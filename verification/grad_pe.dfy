// The electron-pressure-gradient term of Ohm's law: per edge component,
// E_a = -(dPe/da) / (rho_q DA), with the charge density floored at the Hall
// term's minimum. Boundary cells below the first layer take their values
// from the boundary condition, DO_NOT_COMPUTE cells are skipped.

module GradPe {
  import opened FieldGrids
  import opened GridSweep

  /**
   * A system-boundary condition's `fieldSolverBoundaryCondGradPeElectricField`:
   * the value it leaves in component 0, 1 or 2 of the cell's grad-Pe field.
   * Its body is not part of this model.
   */
  type BoundaryGradPe = (SysBoundaryType, Idx, nat) -> real

  /** The charge density the term divides by: `rhoq`, floored at `hallMinimumRhoq`. */
  function HallRhoq(rhoq: real, minimum: real): (h: real)
    ensures h >= minimum && h >= rhoq
    ensures h == minimum || h == rhoq
  {
    if rhoq <= minimum then minimum else rhoq
  }

  /** The source divides by the floored density and the cell size, so both must be positive. */
  predicate TermDefined(prm: Params, d: Spacing) {
    prm.hallMinimumRhoq > 0.0 && d.dx > 0.0 && d.dy > 0.0 && d.dz > 0.0
  }

  /**
   * `calculateEdgeGradPeTermXComponents` and its Y and Z twins: component a
   * of the cell's grad-Pe field. Only the first-order term (`ohmGradPeTerm`
   * 1) is implemented; any other value leaves the slot as it was.
   */
  function GradPeComponent(prm: Params, d: Spacing, a: Axis, m: Moments, dm: DMoments, prev: real): (e: real)
    requires TermDefined(prm, d)
    ensures prm.ohmGradPeTerm != 1 ==> e == prev
    ensures prm.ohmGradPeTerm == 1 ==> e * (HallRhoq(m.rhoq, prm.hallMinimumRhoq) * d.At(a)) == -dm.dPe.At(a)
  {
    if prm.ohmGradPeTerm == 1 then
      var h := HallRhoq(m.rhoq, prm.hallMinimumRhoq);
      assert h * d.At(a) > 0.0;
      -dm.dPe.At(a) / (h * d.At(a))
    else prev
  }

  /** How `calculateGradPeTerm` treats a cell. */
  datatype Route = Skip | FromBoundary | Computed

  function RouteOf(tech: Technical): (r: Route)
    ensures r == Skip <==> tech.flag == DoNotCompute
    ensures r == FromBoundary <==> tech.flag != DoNotCompute && tech.flag != NotSysBoundary && tech.layer != 1
    ensures r == Computed <==> tech.flag == NotSysBoundary || (tech.flag != DoNotCompute && tech.layer == 1)
  {
    if tech.flag == DoNotCompute then Skip
    else if tech.flag != NotSysBoundary && tech.layer != 1 then FromBoundary
    else Computed
  }

  /** `calculateGradPeTerm` at one cell: the cell's grad-Pe field afterwards. */
  function CellGradPe(prm: Params, d: Spacing, bc: BoundaryGradPe, c: Idx, tech: Technical,
                      m: Moments, dm: DMoments, prev: Vec3): (r: Vec3)
    requires TermDefined(prm, d)
    ensures RouteOf(tech) == Skip ==> r == prev
    ensures RouteOf(tech) == FromBoundary ==> forall a :: r.At(a) == bc(tech.flag, c, ComponentIndex(a))
    ensures RouteOf(tech) == Computed ==> forall a :: r.At(a) == GradPeComponent(prm, d, a, m, dm, prev.At(a))
  {
    match RouteOf(tech)
    case Skip => prev
    case FromBoundary =>
      Vec3(bc(tech.flag, c, 0), bc(tech.flag, c, 1), bc(tech.flag, c, 2))
    case Computed =>
      var ex := GradPeComponent(prm, d, X, m, dm, prev.x);
      var ey := GradPeComponent(prm, d, Y, m, dm, prev.y);
      var ez := GradPeComponent(prm, d, Z, m, dm, prev.z);
      Vec3(ex, ey, ez)
  }

  /** The moments a stage reads: the half-step ones on the first stage of a second-order step. */
  function StageMoments(s: FsState, stage: Stage): Field<Moments> {
    if stage == Order2Step1 then s.momentsDt2 else s.moments
  }

  /**
   * `calculateGradPeTermSimple`: the dMoments ghost exchange, then one loop
   * over the local cells. Only the grad-Pe grid changes; a local cell holds
   * what `calculateGradPeTerm` computes from the stage's moments, every other
   * cell keeps its value.
   */
  function GradPeTermSimple(prm: Params, d: Spacing, dims: Dims, s: FsState, stage: Stage, bc: BoundaryGradPe)
    : (res: (seq<StageStep>, FsState))
    requires TermDefined(prm, d)
    ensures res.0 == [GhostExchange(DMomentsGrid), CellLoopRun]
    ensures res.1 == s.(eGradPe := res.1.eGradPe)
    ensures forall c :: res.1.eGradPe(c)
                        == if InLocal(dims, c)
                           then CellGradPe(prm, d, bc, c, s.technical(c), StageMoments(s, stage)(c), s.dMoments(c), s.eGradPe(c))
                           else s.eGradPe(c)
  {
    var moments := StageMoments(s, stage);
    var after := CellLoop(s.eGradPe, dims,
                          (c: Idx, prev: Vec3) => CellGradPe(prm, d, bc, c, s.technical(c), moments(c), s.dMoments(c), prev));
    ([GhostExchange(DMomentsGrid), CellLoopRun], s.(eGradPe := after))
  }

  /** The floored density keeps the term finite: its size is at most |dPe/da| / (hallMinimumRhoq DA). */
  lemma {:induction false} GradPeBounded(prm: Params, d: Spacing, a: Axis, m: Moments, dm: DMoments, prev: real)
    requires TermDefined(prm, d) && prm.ohmGradPeTerm == 1
    ensures var e := GradPeComponent(prm, d, a, m, dm, prev);
            (if e < 0.0 then -e else e) * (prm.hallMinimumRhoq * d.At(a))
            <= (if dm.dPe.At(a) < 0.0 then -dm.dPe.At(a) else dm.dPe.At(a))
  {
    var e := GradPeComponent(prm, d, a, m, dm, prev);
    var h := HallRhoq(m.rhoq, prm.hallMinimumRhoq);
    var ae := if e < 0.0 then -e else e;
    var ap := if dm.dPe.At(a) < 0.0 then -dm.dPe.At(a) else dm.dPe.At(a);
    assert ae * (h * d.At(a)) == ap;
    assert prm.hallMinimumRhoq * d.At(a) <= h * d.At(a);
    assert ae * (prm.hallMinimumRhoq * d.At(a)) <= ae * (h * d.At(a));
  }

  /** The field points down the pressure gradient: its sign is opposite to that of dPe/da. */
  lemma {:induction false} GradPeOpposesGradient(prm: Params, d: Spacing, a: Axis, m: Moments, dm: DMoments, prev: real)
    requires TermDefined(prm, d) && prm.ohmGradPeTerm == 1
    ensures var e := GradPeComponent(prm, d, a, m, dm, prev);
            && (dm.dPe.At(a) > 0.0 <==> e < 0.0)
            && (dm.dPe.At(a) < 0.0 <==> e > 0.0)
            && (dm.dPe.At(a) == 0.0 <==> e == 0.0)
  {
    var e := GradPeComponent(prm, d, a, m, dm, prev);
    var w := HallRhoq(m.rhoq, prm.hallMinimumRhoq) * d.At(a);
    assert w > 0.0;
    assert e * w == -dm.dPe.At(a);
    if e < 0.0 {
      assert e * w < 0.0;
    } else if e > 0.0 {
      assert e * w > 0.0;
    }
  }

  /** Over a whole stage, a DO_NOT_COMPUTE cell keeps its grad-Pe field. */
  lemma {:induction false} DoNotComputeKeepsGradPe(prm: Params, d: Spacing, dims: Dims, s: FsState, stage: Stage,
                                                   bc: BoundaryGradPe, c: Idx)
    requires TermDefined(prm, d)
    requires s.technical(c).flag == DoNotCompute
    ensures GradPeTermSimple(prm, d, dims, s, stage, bc).1.eGradPe(c) == s.eGradPe(c)
  {
    assert RouteOf(s.technical(c)) == Skip;
  }

  /**
   * The first stage of a second-order step reads only the half-step
   * moments: two states that differ only in the full-step moments give the
   * same grad-Pe field.
   */
  lemma {:induction false} FirstStageIgnoresFullStepMoments(prm: Params, d: Spacing, dims: Dims, s: FsState,
                                                            moments: Field<Moments>, bc: BoundaryGradPe, c: Idx)
    requires TermDefined(prm, d)
    ensures GradPeTermSimple(prm, d, dims, s, Order2Step1, bc).1.eGradPe(c)
            == GradPeTermSimple(prm, d, dims, s.(moments := moments), Order2Step1, bc).1.eGradPe(c)
  {
    assert StageMoments(s, Order2Step1)(c) == StageMoments(s.(moments := moments), Order2Step1)(c);
  }

  /** With the term switched off (0 or a higher order) a stage leaves every computed cell as it was. */
  lemma {:induction false} TermOffKeepsComputedCells(prm: Params, d: Spacing, dims: Dims, s: FsState, stage: Stage,
                                                     bc: BoundaryGradPe, c: Idx)
    requires TermDefined(prm, d) && prm.ohmGradPeTerm != 1
    requires RouteOf(s.technical(c)) == Computed
    ensures GradPeTermSimple(prm, d, dims, s, stage, bc).1.eGradPe(c) == s.eGradPe(c)
  {
    var r := GradPeTermSimple(prm, d, dims, s, stage, bc).1.eGradPe(c);
    if InLocal(dims, c) {
      var prev := s.eGradPe(c);
      assert r.x == prev.x && r.y == prev.y && r.z == prev.z by {
        assert r.At(X) == prev.At(X) && r.At(Y) == prev.At(Y) && r.At(Z) == prev.At(Z);
      }
    }
  }
}
