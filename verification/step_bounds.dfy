// The per-cell field-solver step bounds around a field propagation: reset
// to the largest real before the first stage, and their minimum over the
// cells that take part in the CFL limit after each subcycle.

module StepBounds {
  import opened FieldGrids
  import opened ArchHost
  import opened GridSweep

  /** The reset loop: every local cell's `maxFsDt` becomes `numeric_limits<Real>::max()`, nothing else changes. */
  function ResetStepBounds(tech: Field<Technical>, dims: Dims): (r: Field<Technical>)
    ensures forall c :: InLocal(dims, c) ==> r(c).maxFsDt == RealMax
    ensures forall c :: r(c) == tech(c).(maxFsDt := r(c).maxFsDt)
    ensures forall c :: !InLocal(dims, c) ==> r(c) == tech(c)
  {
    CellLoop(tech, dims, (c: Idx, t: Technical) => t.(maxFsDt := RealMax))
  }

  /** Cells whose step bound limits the subcycle step: ordinary cells and the first boundary layer. */
  predicate LimitsStep(t: Technical) {
    t.flag == NotSysBoundary || (t.layer == 1 && t.flag != NotSysBoundary)
  }

  function Min(a: real, b: real): real { if a <= b then a else b }

  /** The running minimum over the tuples `ts`, in visiting order, starting from `acc`. */
  function MinOver(tech: Field<Technical>, ts: seq<seq<nat>>, acc: real): (m: real)
    ensures m <= acc
    ensures forall i | 0 <= i < |ts| && LimitsStep(tech(TupleCell(ts[i]))) :: m <= tech(TupleCell(ts[i])).maxFsDt
    ensures m == acc || exists i | 0 <= i < |ts| :: LimitsStep(tech(TupleCell(ts[i]))) && m == tech(TupleCell(ts[i])).maxFsDt
    decreases |ts|
  {
    if |ts| == 0 then acc
    else
      var cell := tech(TupleCell(ts[0]));
      var m := MinOver(tech, ts[1..], if LimitsStep(cell) then Min(acc, cell.maxFsDt) else acc);
      assert forall i | 1 <= i < |ts| :: ts[i] == ts[1..][i - 1];
      m
  }

  /**
   * `dtMaxLocal`: the smallest `maxFsDt` over the local cells that limit the
   * step, or the largest real if there are none. Cells of other boundary
   * layers and the DO_NOT_COMPUTE cells outside layer 1 play no part.
   */
  function DtMaxLocal(tech: Field<Technical>, dims: Dims): (m: real)
    ensures m <= RealMax
    ensures forall c | InLocal(dims, c) && LimitsStep(tech(c)) :: m <= tech(c).maxFsDt
    ensures m == RealMax || exists c | InLocal(dims, c) && LimitsStep(tech(c)) :: m == tech(c).maxFsDt
  {
    var l := LocalLimits(dims);
    var ts := Visits(l);
    var m := MinOver(tech, ts, RealMax);
    assert forall c | InLocal(dims, c) && LimitsStep(tech(c)) :: m <= tech(c).maxFsDt by {
      forall c | InLocal(dims, c) && LimitsStep(tech(c))
        ensures m <= tech(c).maxFsDt
      {
        var t := CellTuple(c);
        VisitedExactlyOnce(l, t);
        assert InBox(l, t);
        var i :| 0 <= i < |ts| && ts[i] == t;
        assert TupleCell(ts[i]) == c;
      }
    }
    assert m == RealMax || exists c | InLocal(dims, c) && LimitsStep(tech(c)) :: m == tech(c).maxFsDt by {
      if m != RealMax {
        var i :| 0 <= i < |ts| && LimitsStep(tech(TupleCell(ts[i]))) && m == tech(TupleCell(ts[i])).maxFsDt;
        VisitedExactlyOnce(l, ts[i]);
        assert InBox(l, ts[i]);
        assert InLocal(dims, TupleCell(ts[i]));
      }
    }
    m
  }

  /** Right after the reset, the local minimum is the largest real: no cell has lowered its bound yet. */
  lemma {:induction false} ResetGivesLargestBound(tech: Field<Technical>, dims: Dims)
    ensures DtMaxLocal(ResetStepBounds(tech, dims), dims) == RealMax
  {
  }
}
