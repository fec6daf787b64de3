// One electric-field stage (`calculateUpwindedElectricFieldSimple`): ghost
// exchanges of the grids the stencil reads, one loop over the local cells
// (`calculateElectricField`), and the ghost exchange of the E grid written.

module ElectricFieldStage {
  import opened FieldGrids
  import opened EdgeField
  import opened GridSweep

  /**
   * A system-boundary condition's `fieldSolverBoundaryCondElectricField`:
   * the value it assigns to E component 0, 1 or 2 of a cell. Its body is not
   * part of this model; it is taken to read nothing the cell loop writes.
   */
  type BoundaryE = (SysBoundaryType, Idx, nat) -> real

  /** What the cell loop writes: the cell's E and its technical record (for `maxFsDt`). */
  datatype ECell = ECell(e: Vec3, tech: Technical)

  predicate SolveSet(tech: Technical, a: Axis) {
    tech.solve & SolveBit(a) == SolveBit(a)
  }

  /**
   * The edge solvers of one stage (`calculateEdgeElectricFieldX/Y/Z`) as
   * the cell loop sees them: the E value of edge a at cell c and the step
   * bound left after it, given the bound before.
   */
  type EdgeSolver = (Axis, Idx, real) -> EdgeOutcome

  /** A solver only tightens the step bound, and leaves it alone on the first stage of a second-order step. */
  ghost predicate SolverBounds(edge: EdgeSolver, stage: Stage) {
    forall a, c, dt :: edge(a, c, dt).maxFsDt <= dt && (stage == Order2Step1 ==> edge(a, c, dt).maxFsDt == dt)
  }

  /** The value a solver computes does not depend on the step bound it is handed. */
  ghost predicate ValueIgnoresBound(edge: EdgeSolver) {
    forall a, c, dt1, dt2 :: edge(a, c, dt1).e == edge(a, c, dt2).e
  }

  /**
   * The edge solvers over the grids of one stage. An edge whose corner
   * charge density is zero while resistivity is on divides by zero in the
   * source; it gets 0 here and no step bound.
   */
  function EdgeSolverOf(phys: Physics, prm: Params, d: Spacing, g: Grids, stage: Stage): (edge: EdgeSolver)
    requires ValidSetup(phys, prm, d)
    ensures forall a, c, dt | ResistiveDefined(prm, g, a, c) ::
              edge(a, c, dt) == EdgeElectricField(phys, prm, d, g, a, c, stage, dt)
    ensures SolverBounds(edge, stage) && ValueIgnoresBound(edge)
  {
    (a: Axis, c: Idx, dt: real) =>
      if ResistiveDefined(prm, g, a, c) then EdgeElectricField(phys, prm, d, g, a, c, stage, dt)
      else EdgeOutcome(0.0, dt)
  }

  /** One component: the edge solver if its SOLVE bit is set, the boundary callback otherwise. */
  function ComponentStep(edge: EdgeSolver, bc: BoundaryE, a: Axis, c: Idx, stage: Stage, cell: ECell): (r: ECell)
    requires SolverBounds(edge, stage)
    ensures r.tech == cell.tech.(maxFsDt := r.tech.maxFsDt)
    ensures r.tech.maxFsDt <= cell.tech.maxFsDt
    ensures stage == Order2Step1 || !SolveSet(cell.tech, a) ==> r.tech.maxFsDt == cell.tech.maxFsDt
    ensures forall b :: b != a ==> r.e.At(b) == cell.e.At(b)
  {
    if SolveSet(cell.tech, a) then
      var o := edge(a, c, cell.tech.maxFsDt);
      ECell(cell.e.With(a, o.e), cell.tech.(maxFsDt := o.maxFsDt))
    else
      ECell(cell.e.With(a, bc(cell.tech.flag, c, ComponentIndex(a))), cell.tech)
  }

  /**
   * `calculateElectricField` at one cell: nothing for a DO_NOT_COMPUTE
   * cell; otherwise Ex, Ey, Ez in turn, each from its edge solver or the
   * boundary callback. Only `maxFsDt` of the technical record changes, and
   * it never grows.
   */
  function CellElectricField(edge: EdgeSolver, bc: BoundaryE, c: Idx, stage: Stage, cell: ECell): (r: ECell)
    requires SolverBounds(edge, stage)
    ensures cell.tech.flag == DoNotCompute ==> r == cell
    ensures r.tech == cell.tech.(maxFsDt := r.tech.maxFsDt)
    ensures r.tech.maxFsDt <= cell.tech.maxFsDt
    ensures stage == Order2Step1 ==> r.tech.maxFsDt == cell.tech.maxFsDt
  {
    if cell.tech.flag == DoNotCompute then cell
    else
      var rx := ComponentStep(edge, bc, X, c, stage, cell);
      var ry := ComponentStep(edge, bc, Y, c, stage, rx);
      ComponentStep(edge, bc, Z, c, stage, ry)
  }

  /** The value component a of a computed cell gets: its solver's if its SOLVE bit is set, the boundary's otherwise. */
  function ComponentValue(edge: EdgeSolver, bc: BoundaryE, a: Axis, c: Idx, tech: Technical): real {
    if SolveSet(tech, a) then edge(a, c, tech.maxFsDt).e else bc(tech.flag, c, ComponentIndex(a))
  }

  /** Each component of a computed cell comes from its own solver or boundary, whatever the components before it did to the step bound. */
  lemma {:induction false} CellComponents(edge: EdgeSolver, bc: BoundaryE, c: Idx, stage: Stage, cell: ECell, a: Axis)
    requires SolverBounds(edge, stage) && ValueIgnoresBound(edge)
    requires cell.tech.flag != DoNotCompute
    ensures CellElectricField(edge, bc, c, stage, cell).e.At(a) == ComponentValue(edge, bc, a, c, cell.tech)
  {
    var rx := ComponentStep(edge, bc, X, c, stage, cell);
    var ry := ComponentStep(edge, bc, Y, c, stage, rx);
    var rz := ComponentStep(edge, bc, Z, c, stage, ry);
    assert CellElectricField(edge, bc, c, stage, cell) == rz;
    match a
    case X =>
      assert rz.e.At(X) == rx.e.At(X);
    case Y =>
      assert edge(Y, c, rx.tech.maxFsDt).e == edge(Y, c, cell.tech.maxFsDt).e;
      assert rz.e.At(Y) == ry.e.At(Y);
    case Z =>
      assert edge(Z, c, ry.tech.maxFsDt).e == edge(Z, c, cell.tech.maxFsDt).e;
  }

  /** With the stage's own solvers, a solved component is the edge field of its edge. */
  lemma {:induction false} SolvedComponentIsEdgeField(phys: Physics, prm: Params, d: Spacing, g: Grids, bc: BoundaryE,
                                                       c: Idx, stage: Stage, cell: ECell, a: Axis)
    requires ValidSetup(phys, prm, d) && ResistiveDefined(prm, g, a, c)
    requires cell.tech.flag != DoNotCompute && SolveSet(cell.tech, a)
    ensures CellElectricField(EdgeSolverOf(phys, prm, d, g, stage), bc, c, stage, cell).e.At(a)
            == EdgeElectricField(phys, prm, d, g, a, c, stage, cell.tech.maxFsDt).e
  {
    CellComponents(EdgeSolverOf(phys, prm, d, g, stage), bc, c, stage, cell, a);
  }

  /** The E grid a stage writes: EDt2 on the first stage of a second-order step, E otherwise. */
  function WrittenE(s: FsState, stage: Stage): Field<Vec3> {
    if stage == Order2Step1 then s.eDt2 else s.e
  }

  /** The exchanges before the cell loop, as the Ohm's-law switches select them. */
  function ExchangesBefore(prm: Params): (steps: seq<StageStep>)
    ensures GhostExchange(EHallGrid) in steps <==> prm.ohmHallTerm > 0
    ensures GhostExchange(EGradPeGrid) in steps <==> prm.ohmGradPeTerm > 0
    ensures GhostExchange(DPerBGrid) in steps <==> prm.ohmHallTerm == 0 && prm.ohmGradPeTerm == 0
    ensures GhostExchange(DMomentsGrid) in steps <==> prm.ohmHallTerm == 0 && prm.ohmGradPeTerm == 0
    ensures CellLoopRun !in steps && GhostExchange(EGrid) !in steps && GhostExchange(EDt2Grid) !in steps
  {
    (if prm.ohmHallTerm > 0 then [GhostExchange(EHallGrid)] else [])
    + (if prm.ohmGradPeTerm > 0 then [GhostExchange(EGradPeGrid)] else [])
    + (if prm.ohmHallTerm == 0 && prm.ohmGradPeTerm == 0 then [GhostExchange(DPerBGrid), GhostExchange(DMomentsGrid)] else [])
  }

  /**
   * `calculateUpwindedElectricFieldSimple`: the steps taken and the grids
   * after them. Only the stage's E grid and the technical grid change; a
   * local cell holds what `calculateElectricField` computes from its old
   * value, every other cell is untouched.
   */
  function UpwindedElectricFieldSimple(phys: Physics, prm: Params, d: Spacing, dims: Dims, s: FsState,
                                       stage: Stage, bc: BoundaryE): (res: (seq<StageStep>, FsState))
    requires ValidSetup(phys, prm, d)
    ensures var (steps, r) := res;
            && |steps| >= 2
            && steps[..|steps| - 2] == ExchangesBefore(prm)
            && steps[|steps| - 2] == CellLoopRun
            && steps[|steps| - 1] == GhostExchange(if stage == Order2Step1 then EDt2Grid else EGrid)
    ensures var r := res.1;
            r == s.(e := r.e, eDt2 := r.eDt2, technical := r.technical)
            && (stage == Order2Step1 ==> r.e == s.e)
            && (stage != Order2Step1 ==> r.eDt2 == s.eDt2)
    ensures var r := res.1;
            forall c :: ECell(WrittenE(r, stage)(c), r.technical(c))
                        == if InLocal(dims, c)
                           then CellElectricField(EdgeSolverOf(phys, prm, d, StencilGrids(s, stage), stage), bc, c, stage,
                                                  ECell(WrittenE(s, stage)(c), s.technical(c)))
                           else ECell(WrittenE(s, stage)(c), s.technical(c))
  {
    var edge := EdgeSolverOf(phys, prm, d, StencilGrids(s, stage), stage);
    var before := (c: Idx) => ECell(WrittenE(s, stage)(c), s.technical(c));
    var after := CellLoop(before, dims, (c: Idx, cell: ECell) => CellElectricField(edge, bc, c, stage, cell));
    var newE := (c: Idx) => after(c).e;
    var newTech := (c: Idx) => after(c).tech;
    var r := if stage == Order2Step1 then s.(eDt2 := newE, technical := newTech) else s.(e := newE, technical := newTech);
    var steps := ExchangesBefore(prm) + [CellLoopRun, GhostExchange(if stage == Order2Step1 then EDt2Grid else EGrid)];
    assert steps[..|steps| - 2] == ExchangesBefore(prm);
    (steps, r)
  }

  /** Over a whole stage, DO_NOT_COMPUTE cells keep their E and technical record. */
  lemma {:induction false} DoNotComputeCellsUntouched(phys: Physics, prm: Params, d: Spacing, dims: Dims,
                                                       s: FsState, stage: Stage, bc: BoundaryE, c: Idx)
    requires ValidSetup(phys, prm, d)
    requires s.technical(c).flag == DoNotCompute
    ensures var r := UpwindedElectricFieldSimple(phys, prm, d, dims, s, stage, bc).1;
            r.e(c) == s.e(c) && r.eDt2(c) == s.eDt2(c) && r.technical(c) == s.technical(c)
  {
    var r := UpwindedElectricFieldSimple(phys, prm, d, dims, s, stage, bc).1;
    assert ECell(WrittenE(r, stage)(c), r.technical(c)) == ECell(WrittenE(s, stage)(c), s.technical(c));
  }

  /** Over a whole stage no cell's `maxFsDt` grows, and none changes on the first stage of a second-order step. */
  lemma {:induction false} StageStepBoundNeverGrows(phys: Physics, prm: Params, d: Spacing, dims: Dims,
                                                     s: FsState, stage: Stage, bc: BoundaryE, c: Idx)
    requires ValidSetup(phys, prm, d)
    ensures var r := UpwindedElectricFieldSimple(phys, prm, d, dims, s, stage, bc).1;
            && r.technical(c).maxFsDt <= s.technical(c).maxFsDt
            && (stage == Order2Step1 ==> r.technical(c).maxFsDt == s.technical(c).maxFsDt)
            && r.technical(c).flag == s.technical(c).flag
  {
    var r := UpwindedElectricFieldSimple(phys, prm, d, dims, s, stage, bc).1;
    assert ECell(WrittenE(r, stage)(c), r.technical(c)).tech == r.technical(c);
  }
}
