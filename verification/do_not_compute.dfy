// The DO_NOT_COMPUTE system boundary: cells the solvers skip entirely. Its
// initial state wipes the field and moment parameters of those cells and
// leaves every other cell alone.

module DoNotComputeBoundary {
  import opened FieldGrids

  /** The cell parameters the initial state clears; every other parameter is `Other`. */
  datatype CellParam =
    | PerBX | PerBY | PerBZ
    | PerBXDt2 | PerBYDt2 | PerBZDt2
    | EX | EY | EZ
    | Rho | RhoVX | RhoVY | RhoVZ
    | RhoDt2 | RhoVXDt2 | RhoVYDt2 | RhoVZDt2
    | RhoLossAdjust | RhoLossVelBoundary
    | Other(id: nat)

  /** The parameters zeroed on a DO_NOT_COMPUTE cell. */
  const ZeroedParams: set<CellParam> := {
    PerBX, PerBY, PerBZ, PerBXDt2, PerBYDt2, PerBZDt2,
    EX, EY, EZ,
    Rho, RhoVX, RhoVY, RhoVZ, RhoDt2, RhoVXDt2, RhoVYDt2, RhoVZDt2,
    RhoLossAdjust, RhoLossVelBoundary
  }

  /** Exactly the named parameters are cleared, none of the others. */
  lemma ZeroedParamsAreTheNamedOnes(p: CellParam)
    ensures p in ZeroedParams <==> !p.Other?
  {
  }

  datatype Cell = Cell(sysBoundaryFlag: SysBoundaryType, parameters: CellParam -> real)

  /** The state a boundary condition keeps: its precedence and whether it changes in time. */
  datatype Condition = Condition(precedence: int, isThisDynamic: bool)

  /** `initSysBoundary`: lowest precedence, static, always succeeds. */
  function Init(c: Condition, t: real): (res: (bool, Condition))
    ensures res.0
    ensures res.1.precedence == 0 && !res.1.isThisDynamic
  {
    (true, Condition(0, false))
  }

  /** `assignSysBoundary`: succeeds and leaves the cells as they are. */
  function Assign(cells: seq<Cell>): (res: (bool, seq<Cell>))
    ensures res.0 && res.1 == cells
  {
    (true, cells)
  }

  /** `getIndex`: the boundary type this condition handles. */
  function Index(): (t: SysBoundaryType)
    ensures t.DoNotCompute?
  {
    DoNotCompute
  }

  /** `getName`. */
  function Name(): (s: string)
    ensures s == "DoNotCompute"
  {
    "DoNotCompute"
  }

  /** One cell of the initial-state pass: cleared if it belongs to this boundary, otherwise untouched. */
  function ApplyToCell(cell: Cell): (r: Cell)
    ensures r.sysBoundaryFlag == cell.sysBoundaryFlag
    ensures cell.sysBoundaryFlag != Index() ==> r == cell
    ensures cell.sysBoundaryFlag == Index() ==>
              forall p :: r.parameters(p) == if p in ZeroedParams then 0.0 else cell.parameters(p)
  {
    if cell.sysBoundaryFlag != Index() then cell
    else Cell(cell.sysBoundaryFlag, p => if p in ZeroedParams then 0.0 else cell.parameters(p))
  }

  /** `applyInitialState`: the loop over all cells; always succeeds. */
  method ApplyInitialState(cells: seq<Cell>) returns (ok: bool, out: seq<Cell>)
    ensures ok
    ensures |out| == |cells|
    ensures forall i | 0 <= i < |cells| :: out[i].sysBoundaryFlag == cells[i].sysBoundaryFlag
    ensures forall i | 0 <= i < |cells| && cells[i].sysBoundaryFlag != Index() :: out[i] == cells[i]
    ensures forall i, p | 0 <= i < |cells| && cells[i].sysBoundaryFlag == Index() ::
              out[i].parameters(p) == if p in ZeroedParams then 0.0 else cells[i].parameters(p)
  {
    out := [];
    var i := 0;
    while i < |cells|
      invariant 0 <= i <= |cells| && |out| == i
      invariant forall j | 0 <= j < i :: out[j] == ApplyToCell(cells[j])
    {
      out := out + [ApplyToCell(cells[i])];
      i := i + 1;
    }
    ok := true;
  }

  /** Applying the initial state a second time changes nothing more. */
  lemma ApplyToCellIdempotent(cell: Cell)
    ensures ApplyToCell(ApplyToCell(cell)).sysBoundaryFlag == cell.sysBoundaryFlag
    ensures forall p :: ApplyToCell(ApplyToCell(cell)).parameters(p) == ApplyToCell(cell).parameters(p)
  {
  }
}
