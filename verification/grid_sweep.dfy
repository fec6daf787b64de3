// A field-solver cell loop: `parallel_for` over the local grid extent,
// whose body replaces the value of one grid at cell (i, j, k) by a function
// of the cell and its old value. Because every local cell is visited exactly
// once, the result does not depend on the visiting order.

module GridSweep {
  import opened ArchHost
  import opened FieldGrids

  /** Local grid extent (`getLocalSize()`). */
  datatype Dims = Dims(nx: nat, ny: nat, nz: nat)

  predicate InLocal(dims: Dims, c: Idx) {
    0 <= c.0 < dims.nx && 0 <= c.1 < dims.ny && 0 <= c.2 < dims.nz
  }

  /** The limits handed to the three-dimensional `parallel_for`. */
  function LocalLimits(dims: Dims): seq<nat> {
    [dims.nx, dims.ny, dims.nz]
  }

  /** The cell a loop tuple (i, j, k) names. */
  function TupleCell(t: seq<nat>): Idx {
    if |t| == 3 then (t[0], t[1], t[2]) else (0, 0, 0)
  }

  function CellTuple(c: Idx): seq<nat>
    requires c.0 >= 0 && c.1 >= 0 && c.2 >= 0
  {
    [c.0 as nat, c.1 as nat, c.2 as nat]
  }

  /** The grid after the loop's body ran for the visited tuples, in the driver's order. */
  function Swept<T>(f: Field<T>, dims: Dims, upd: (Idx, T) -> T): seq<nat> -> T {
    Sweep(t => f(TupleCell(t)), Visits(LocalLimits(dims)), (t, v) => upd(TupleCell(t), v))
  }

  lemma {:induction false} SweptAt<T>(f: Field<T>, dims: Dims, upd: (Idx, T) -> T, c: Idx)
    requires c.0 >= 0 && c.1 >= 0 && c.2 >= 0
    ensures Swept(f, dims, upd)(CellTuple(c)) == if InLocal(dims, c) then upd(c, f(c)) else f(c)
  {
    var t := CellTuple(c);
    VisitedExactlyOnce(LocalLimits(dims), t);
    SweepPointwise(t => f(TupleCell(t)), Visits(LocalLimits(dims)), (t, v) => upd(TupleCell(t), v), t);
    assert TupleCell(t) == c;
    assert InBox(LocalLimits(dims), t) <==> InLocal(dims, c);
  }

  /**
   * The loop as a whole: every local cell holds its update of its old value,
   * every other cell keeps its value.
   */
  function CellLoop<T>(f: Field<T>, dims: Dims, upd: (Idx, T) -> T): (r: Field<T>)
    ensures forall c :: r(c) == if InLocal(dims, c) then upd(c, f(c)) else f(c)
  {
    var swept := Swept(f, dims, upd);
    var r := (c: Idx) => if c.0 >= 0 && c.1 >= 0 && c.2 >= 0 then swept(CellTuple(c)) else f(c);
    assert forall c :: r(c) == if InLocal(dims, c) then upd(c, f(c)) else f(c) by {
      forall c: Idx
        ensures r(c) == if InLocal(dims, c) then upd(c, f(c)) else f(c)
      {
        if c.0 >= 0 && c.1 >= 0 && c.2 >= 0 {
          SweptAt(f, dims, upd, c);
        }
      }
    }
    r
  }
}
