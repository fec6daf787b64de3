// The data the field solver works on: cell-centred grids indexed by
// integer cell coordinates, the records stored in their cells, the
// run-time parameters that switch terms of Ohm's law on and off, and the
// physical constants, which stay symbolic.

module FieldGrids {

  datatype Axis = X | Y | Z

  /**
   * The two axes transverse to an edge along `a`, in the order the edge
   * solver names them: for Ex they are (y, z), for Ey (z, x), for Ez (x, y).
   */
  function Transverse1(a: Axis): Axis {
    match a
    case X => Y
    case Y => Z
    case Z => X
  }

  function Transverse2(a: Axis): Axis {
    match a
    case X => Z
    case Y => X
    case Z => Y
  }

  lemma TransverseAxesDistinct(a: Axis)
    ensures Transverse1(a) != a && Transverse2(a) != a && Transverse1(a) != Transverse2(a)
    ensures Transverse1(Transverse1(a)) == Transverse2(a)
  {
  }

  datatype Vec3 = Vec3(x: real, y: real, z: real) {
    function At(a: Axis): real {
      match a
      case X => x
      case Y => y
      case Z => z
    }

    function With(a: Axis, v: real): Vec3 {
      match a
      case X => this.(x := v)
      case Y => this.(y := v)
      case Z => this.(z := v)
    }

    function Plus(o: Vec3): Vec3 {
      Vec3(x + o.x, y + o.y, z + o.z)
    }

    function Norm2(): real {
      x * x + y * y + z * z
    }
  }

  /** Spatial derivatives of a vector field: `ddx.y` is the x-derivative of the y component. */
  datatype Jac = Jac(ddx: Vec3, ddy: Vec3, ddz: Vec3) {
    function D(component: Axis, direction: Axis): real {
      match direction
      case X => ddx.At(component)
      case Y => ddy.At(component)
      case Z => ddz.At(component)
    }

    function Plus(o: Jac): Jac {
      Jac(ddx.Plus(o.ddx), ddy.Plus(o.ddy), ddz.Plus(o.ddz))
    }
  }

  /** Cell coordinates; ghost cells have coordinates outside the local box. */
  type Idx = (int, int, int)

  function Shift(c: Idx, a: Axis, delta: int): Idx {
    match a
    case X => (c.0 + delta, c.1, c.2)
    case Y => (c.0, c.1 + delta, c.2)
    case Z => (c.0, c.1, c.2 + delta)
  }

  /** A grid: one record per cell. */
  type Field<T> = Idx -> T

  /** The moments a cell carries: mass and charge density, bulk velocity, pressure diagonal. */
  datatype Moments = Moments(rhom: real, rhoq: real, v: Vec3, p: Vec3)

  /** Derivatives of the moments; `dp.D(X, d)` is the d-derivative of P_11, and so on. */
  datatype DMoments = DMoments(drhom: Vec3, dp: Jac, dV: Jac, dPe: Vec3)

  /** Background magnetic field and its derivatives. */
  datatype BgB = BgB(b: Vec3, d: Jac)

  /** The four cells around an edge, in the solver's names. */
  datatype Corner = SW | SE | NW | NE

  /** Four Hall-term values of one electric-field component, one per edge of the cell it feeds. */
  datatype Quad = Quad(sw: real, se: real, nw: real, ne: real) {
    function At(k: Corner): real {
      match k
      case SW => sw
      case SE => se
      case NW => nw
      case NE => ne
    }
  }

  datatype HallCell = HallCell(x: Quad, y: Quad, z: Quad) {
    function At(a: Axis): Quad {
      match a
      case X => x
      case Y => y
      case Z => z
    }
  }

  /** System-boundary type of a cell; only the two kinds the field solver tests for are named. */
  datatype SysBoundaryType = NotSysBoundary | DoNotCompute | OtherBoundary(id: nat)

  /** Bits of the per-cell SOLVE mask that select which E components the stencil computes. */
  const SolveEx: bv32 := 1 << 3
  const SolveEy: bv32 := 1 << 4
  const SolveEz: bv32 := 1 << 5

  function SolveBit(a: Axis): bv32 {
    match a
    case X => SolveEx
    case Y => SolveEy
    case Z => SolveEz
  }

  /** Per-cell technical record. */
  datatype Technical = Technical(flag: SysBoundaryType, layer: int, maxFsDt: real, solve: bv32)

  /** Runge–Kutta stage selector (`RK_ORDER1`, `RK_ORDER2_STEP1`, `RK_ORDER2_STEP2`). */
  datatype Stage = Order1 | Order2Step1 | Order2Step2

  /** The largest finite value of the floating-point type. */
  const RealMax: real := 1.7976931348623157e308
  /** `numeric_limits<Real>::min()`: the smallest positive normal value. */
  const RealMinPositive: real := 2.2250738585072014e-308

  /**
   * Physical constants and the functions the model keeps symbolic: the
   * square root and the whistler-speed closed form (of the squared Alfvén
   * speed, the mass density and the cell size DX).
   */
  datatype Physics = Physics(
    mu0: real,
    sqrt: real -> real,
    whistler: (real, real, real) -> real)

  /** Run-time parameters of the field solver. */
  datatype Params = Params(
    maxWaveVelocity: real,
    resistivity: real,
    ohmHallTerm: nat,
    ohmGradPeTerm: nat,
    hallMinimumRhoq: real,
    diffusiveETerms: bool,
    /** build with first-order spatial reconstruction only */
    firstOrderSpace: bool,
    /** the small positive constant that keeps denominators away from zero */
    eps: real)

  /** Cell size. */
  datatype Spacing = Spacing(dx: real, dy: real, dz: real) {
    function At(a: Axis): real {
      match a
      case X => dx
      case Y => dy
      case Z => dz
    }
  }

  ghost predicate ValidSetup(phys: Physics, prm: Params, d: Spacing) {
    phys.mu0 > 0.0 && prm.eps > 0.0 && d.dx > 0.0 && d.dy > 0.0 && d.dz > 0.0
  }

  /** The grids one evaluation of the edge stencil reads. */
  datatype Grids = Grids(
    perB: Field<Vec3>,
    dPerB: Field<Jac>,
    bgB: Field<BgB>,
    moments: Field<Moments>,
    dMoments: Field<DMoments>,
    eHall: Field<HallCell>,
    eGradPe: Field<Vec3>,
    /** the second-order reconstruction correction of a corner's field, kept symbolic */
    secondOrder: (Axis, Idx, Corner) -> real)

  /** Which E component a boundary callback is asked for: 0, 1, 2 for x, y, z. */
  function ComponentIndex(a: Axis): (n: nat)
    ensures n < 3
  {
    match a
    case X => 0
    case Y => 1
    case Z => 2
  }

  /** Every grid the field solver owns, the half-step copies included. */
  datatype FsState = FsState(
    perB: Field<Vec3>,
    perBDt2: Field<Vec3>,
    e: Field<Vec3>,
    eDt2: Field<Vec3>,
    eHall: Field<HallCell>,
    eGradPe: Field<Vec3>,
    moments: Field<Moments>,
    momentsDt2: Field<Moments>,
    dPerB: Field<Jac>,
    dMoments: Field<DMoments>,
    bgB: Field<BgB>,
    technical: Field<Technical>,
    secondOrder: (Axis, Idx, Corner) -> real)

  /**
   * The grids the edge stencil reads in a stage: the half-step magnetic
   * field and moments on the first stage of a second-order step, the
   * full-step ones otherwise.
   */
  function StencilGrids(s: FsState, stage: Stage): (g: Grids)
    ensures stage == Order2Step1 ==> g.perB == s.perBDt2 && g.moments == s.momentsDt2
    ensures stage != Order2Step1 ==> g.perB == s.perB && g.moments == s.moments
    ensures g.dPerB == s.dPerB && g.dMoments == s.dMoments && g.bgB == s.bgB
    ensures g.eHall == s.eHall && g.eGradPe == s.eGradPe
  {
    if stage == Order2Step1 then
      Grids(s.perBDt2, s.dPerB, s.bgB, s.momentsDt2, s.dMoments, s.eHall, s.eGradPe, s.secondOrder)
    else
      Grids(s.perB, s.dPerB, s.bgB, s.moments, s.dMoments, s.eHall, s.eGradPe, s.secondOrder)
  }

  /** Grids whose ghost cells a stage refreshes from the neighbouring processes. */
  datatype GridName = EHallGrid | EGradPeGrid | DPerBGrid | DMomentsGrid | EGrid | EDt2Grid

  /** What a solver stage does, in order: ghost exchanges and the one loop over the local cells. */
  datatype StageStep = GhostExchange(grid: GridName) | CellLoopRun
}
