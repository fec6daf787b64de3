// The loop-interface unit tests: the flat storage index of a grid cell
// (`LocalIDForCoords`), the two tests that write a 100^3 grid once through
// `parallel_for` and once through a host loop and then compare, and the
// table of test entry points.
//
// Storage is modelled as a map from flat storage index to the stored value
// (the `maxFsDt` of a technical cell in test 0, PERBX in test 1). The grid
// stores a layer of `Stencil` ghost cells on every side, so its storage
// extent is the grid extent plus twice the stencil width.

module ArchUnitTests {
  import opened ArchHost

  type Triple = (int, int, int)

  /**
   * Flat storage index of local cell (x, y, z): a dimension whose global
   * size is 1 contributes nothing, the others are offset by the stencil
   * width, x the fastest.
   */
  function LocalIDForCoords(x: int, y: int, z: int, stencil: int, globalSize: Triple, storageSize: Triple): int {
    (if globalSize.2 > 1 then storageSize.0 * storageSize.1 * (stencil + z) else 0)
    + (if globalSize.1 > 1 then storageSize.0 * (stencil + y) else 0)
    + (if globalSize.0 > 1 then stencil + x else 0)
  }

  /** With every global size above one, the index is the full row-major formula. */
  lemma LocalIdAllDimensions(x: int, y: int, z: int, st: int, g: Triple, s: Triple)
    requires g.0 > 1 && g.1 > 1 && g.2 > 1
    ensures LocalIDForCoords(x, y, z, st, g, s) == s.0 * s.1 * (st + z) + s.0 * (st + y) + (st + x)
  {
  }

  /** A dimension of global size one contributes nothing: its coordinate does not move the index. */
  lemma LocalIdFlatDimension(x: int, y: int, z: int, x': int, y': int, z': int, st: int, g: Triple, s: Triple)
    ensures g.0 == 1 ==> LocalIDForCoords(x, y, z, st, g, s) == LocalIDForCoords(x', y, z, st, g, s)
    ensures g.1 == 1 ==> LocalIDForCoords(x, y, z, st, g, s) == LocalIDForCoords(x, y', z, st, g, s)
    ensures g.2 == 1 ==> LocalIDForCoords(x, y, z, st, g, s) == LocalIDForCoords(x, y, z', st, g, s)
  {
  }

  /** Quotient and remainder are determined by any decomposition with an in-range remainder. */
  lemma DivModUnique(v: int, d: int, q: int, r: int)
    requires d > 0 && 0 <= r < d && v == q * d + r
    ensures v / d == q && v % d == r
  {
    var q', r' := v / d, v % d;
    var k := q - q';
    assert k * d == r' - r by {
      assert q * d - q' * d == r' - r;
      MulDistrib(q, q', d);
    }
    if k >= 1 {
      MulAtLeast(k, d);
    } else if k <= -1 {
      MulAtLeast(-k, d);
    }
  }

  lemma MulDistrib(a: int, b: int, d: int)
    ensures (a - b) * d == a * d - b * d
  {
  }

  lemma MulAtLeast(k: int, d: int)
    requires k >= 1 && d > 0
    ensures k * d >= d
  {
    assert k * d == (k - 1) * d + d;
    assert (k - 1) * d >= 0;
  }

  /** Storage coordinates (offset by the stencil) of a flat storage index. */
  function CoordsForLocalID(id: int, st: int, s: Triple): Triple
    requires s.0 > 0 && s.1 > 0
  {
    (id % s.0 - st, (id / s.0) % s.1 - st, id / (s.0 * s.1) - st)
  }

  /**
   * On a fully three-dimensional grid, every cell inside the storage extent
   * (ghost layers included) is recovered from its index, so no two such
   * cells share a storage element.
   */
  lemma {:induction false} LocalIdRoundTrip(x: int, y: int, z: int, st: int, g: Triple, s: Triple)
    requires g.0 > 1 && g.1 > 1 && g.2 > 1
    requires 0 <= st + x < s.0 && 0 <= st + y < s.1 && 0 <= st + z
    ensures CoordsForLocalID(LocalIDForCoords(x, y, z, st, g, s), st, s) == (x, y, z)
  {
    var a, b, c := st + x, st + y, st + z;
    var id := LocalIDForCoords(x, y, z, st, g, s);
    assert id == s.0 * s.1 * c + s.0 * b + a;
    assert id == (s.1 * c + b) * s.0 + a;
    DivModUnique(id, s.0, s.1 * c + b, a);
    DivModUnique(s.1 * c + b, s.1, c, b);
    assert id == c * (s.0 * s.1) + (s.0 * b + a);
    assert s.0 * b + a < s.0 * s.1 by {
      assert s.0 * b + a < s.0 * b + s.0 == s.0 * (b + 1);
      assert s.0 * (b + 1) <= s.0 * s.1;
    }
    DivModUnique(id, s.0 * s.1, c, s.0 * b + a);
  }

  lemma LocalIdInjective(x: int, y: int, z: int, x': int, y': int, z': int, st: int, g: Triple, s: Triple)
    requires g.0 > 1 && g.1 > 1 && g.2 > 1
    requires 0 <= st + x < s.0 && 0 <= st + y < s.1 && 0 <= st + z
    requires 0 <= st + x' < s.0 && 0 <= st + y' < s.1 && 0 <= st + z'
    requires LocalIDForCoords(x, y, z, st, g, s) == LocalIDForCoords(x', y', z', st, g, s)
    ensures x == x' && y == y' && z == z'
  {
    LocalIdRoundTrip(x, y, z, st, g, s);
    LocalIdRoundTrip(x', y', z', st, g, s);
  }

  // ----- the two tests -----

  /** Ghost-layer width of the field-solver grids. */
  const Stencil: int := 2
  /** The tests' grid extent in each dimension. */
  const GridDim: int := 100
  /** Storage extent in each dimension: the grid plus a ghost layer on both sides. */
  const StorageDim: int := GridDim + 2 * Stencil

  /** Storage index of cell (x, y, z) of the tests' grid. */
  function Id(x: int, y: int, z: int): int {
    LocalIDForCoords(x, y, z, Stencil, (GridDim, GridDim, GridDim), (StorageDim, StorageDim, StorageDim))
  }

  /** The tests' storage index in numbers: 104 * 104 = 10816 elements per z layer, 104 per row. */
  lemma IdFormula(x: int, y: int, z: int)
    ensures Id(x, y, z) == 10816 * (z + 2) + 104 * (y + 2) + (x + 2)
    ensures Base == 21842
  {
  }

  predicate InGrid(x: int, y: int, z: int) {
    0 <= x < GridDim && 0 <= y < GridDim && 0 <= z < GridDim
  }

  /** The loop limits both tests hand to `parallel_for`. */
  const Limits: seq<nat> := [GridDim as nat, GridDim as nat, GridDim as nat]

  lemma LimitsBox(t: seq<nat>)
    ensures InBox(Limits, t) <==> |t| == 3 && InGrid(t[0], t[1], t[2])
  {
  }

  /** Storage values, by flat storage index. */
  type Memory = int -> real

  /** Test 0's buffer wraps the storage starting at cell (0, 0, 0). */
  const Base: int := Id(0, 0, 0)

  /** The element the `parallel_for` body of test 0 writes for cell (x, y, z): `Id` counted from the buffer's start. */
  function ArchAddress(x: int, y: int, z: int): int {
    Base + Id(x, y, z)
  }

  /**
   * Because the buffer already starts at the first grid cell, the body's
   * write for cell (x, y, z) lands on the storage of cell (x+2, y+2, z+2).
   */
  lemma ArchAddressShifted(x: int, y: int, z: int)
    ensures ArchAddress(x, y, z) == Id(x + Stencil, y + Stencil, z + Stencil)
  {
  }

  predicate ArchWritten(a: int) {
    exists x, y, z | 0 <= x < GridDim && 0 <= y < GridDim && 0 <= z < GridDim :: a == ArchAddress(x, y, z)
  }

  predicate HostWritten(a: int) {
    exists x, y, z | 0 <= x < GridDim && 0 <= y < GridDim && 0 <= z < GridDim :: a == Id(x, y, z)
  }

  /** Every element the predicate selects set to 2, the others kept. */
  function SetTwo(mem: Memory, written: int -> bool): (r: Memory)
    ensures forall a :: written(a) ==> r(a) == 2.0
    ensures forall a :: !written(a) ==> r(a) == mem(a)
  {
    a => if written(a) then 2.0 else mem(a)
  }

  /** The `parallel_for` of test 0: `maxFsDt = 2` through the buffer for every cell of the grid. */
  function ArchLoop0(mem: Memory): Memory {
    SetTwo(mem, ArchWritten)
  }

  /** The host loop of both tests: `maxFsDt = 2` (test 1: PERBX = 2) on every cell through the grid. */
  function HostLoop(mem: Memory): Memory {
    SetTwo(mem, HostWritten)
  }

  /**
   * Test 0's verdict as written. `dataBuffer[10,10,10]` is a comma
   * expression, so both comparisons read buffer element 10; they run after
   * the host loop.
   */
  function Test0(mem: Memory): (success: bool) {
    var after := HostLoop(ArchLoop0(mem));
    !(after(Base + 10) != 2.0) && !(after(Base + 10) != after(Id(10, 10, 10)))
  }

  /** Buffer element 10 is not among the elements the `parallel_for` writes. */
  lemma Element10NotWrittenByArch()
    ensures !ArchWritten(Base + 10)
  {
    forall x, y, z | 0 <= x < GridDim && 0 <= y < GridDim && 0 <= z < GridDim
      ensures Base + 10 != ArchAddress(x, y, z)
    {
      IdFormula(x, y, z);
    }
  }

  /**
   * Test 0 as written passes whatever the `parallel_for` left behind: the
   * element it reads is storage of cell (10, 0, 0), which the host loop sets
   * to 2 before the check.
   */
  lemma {:induction false} Test0IgnoresParallelFor(mem: Memory, afterArch: Memory)
    ensures Test0(mem)
    ensures var after := HostLoop(afterArch);
            after(Base + 10) == 2.0 && after(Base + 10) == after(Id(10, 10, 10))
  {
    assert Base + 10 == Id(10, 0, 0);
    assert HostWritten(Base + 10);
    assert HostWritten(Id(10, 10, 10));
  }

  /**
   * Test 0 with the check it evidently means: read the element the body
   * wrote for cell (10, 10, 10) right after the `parallel_for`, then compare
   * with the host loop's value.
   */
  function Test0Fixed(mem: Memory, arch: Memory -> Memory): (success: bool) {
    var afterArch := arch(mem);
    var archValue := afterArch(ArchAddress(10, 10, 10));
    var after := HostLoop(afterArch);
    archValue == 2.0 && archValue == after(Id(10, 10, 10))
  }

  /** The fixed check passes with the real `parallel_for` and fails when the loop is skipped over a cell not holding 2. */
  lemma {:induction false} Test0FixedDetectsBrokenLoop(mem: Memory)
    ensures Test0Fixed(mem, ArchLoop0)
    ensures mem(ArchAddress(10, 10, 10)) != 2.0 ==> !Test0Fixed(mem, m => m)
  {
    assert ArchWritten(ArchAddress(10, 10, 10));
    assert HostWritten(Id(10, 10, 10));
  }

  /** Test 1 works on cells directly; the buffer's `get` forwards to the grid, so both loops write the same storage. */
  function ArchLoop1(mem: Memory): Memory {
    SetTwo(mem, HostWritten)
  }

  /** Test 1's verdict as written: cell (10, 10, 10) read through the buffer and through the grid, after both loops. */
  function Test1(mem: Memory): (success: bool) {
    var after := HostLoop(ArchLoop1(mem));
    !(after(Id(10, 10, 10)) != 2.0) && !(after(Id(10, 10, 10)) != after(Id(10, 10, 10)))
  }

  /** Test 1 as written also passes whatever the `parallel_for` did, since the host loop rewrites the cell it checks. */
  lemma {:induction false} Test1IgnoresParallelFor(mem: Memory, afterArch: Memory)
    ensures Test1(mem)
    ensures HostLoop(afterArch)(Id(10, 10, 10)) == 2.0
  {
    assert HostWritten(Id(10, 10, 10));
  }

  /** Test 1 with the `parallel_for` result captured before the host loop runs. */
  function Test1Fixed(mem: Memory, arch: Memory -> Memory): (success: bool) {
    var archValue := arch(mem)(Id(10, 10, 10));
    var after := HostLoop(arch(mem));
    archValue == 2.0 && archValue == after(Id(10, 10, 10))
  }

  lemma {:induction false} Test1FixedDetectsBrokenLoop(mem: Memory)
    ensures Test1Fixed(mem, ArchLoop1)
    ensures mem(Id(10, 10, 10)) != 2.0 ==> !Test1Fixed(mem, m => m)
  {
    assert HostWritten(Id(10, 10, 10));
  }

  // ----- the table of test entry points -----

  /** Number of tests in the suite. */
  const NTests: nat := 2

  /**
   * `test_instatiator<N, I>::driver`: stores test I-1 in slot I-1 and
   * recurses on I-1, stopping at 0. Slots are test numbers; `Unset` is a
   * slot not yet filled.
   */
  function Instantiate(table: seq<Slot>, i: nat): (r: seq<Slot>)
    requires i <= |table|
    decreases i
    ensures |r| == |table|
    ensures forall j :: 0 <= j < i ==> r[j] == Holds(j)
    ensures forall j :: i <= j < |table| ==> r[j] == table[j]
  {
    if i == 0 then table else Instantiate(table[i - 1 := Holds(i - 1)], i - 1)
  }

  /** The suite's table after `test_instatiator<2, 2>::driver`: test 0 then test 1. */
  lemma SuiteTable()
    ensures Instantiate(seq(NTests, _ => Unset), NTests) == [Holds(0), Holds(1)]
  {
    var r := Instantiate(seq(NTests, _ => Unset), NTests);
    assert r[0] == Holds(0) && r[1] == Holds(1);
  }
}
