// The host back end of the loop abstraction: `parallel_for` and
// `parallel_reduce` run as plain loop nests on the CPU. A loop nest is
// modelled by the sequence of calls it makes to its body, each call
// recorded with its index tuple (index 0 first).

module ArchHost {

  /** Number of index tuples in the box [0, l[0]) x ... x [0, l[n-1]). */
  function Product(l: seq<nat>): nat {
    if |l| == 0 then 1 else Product(l[..|l| - 1]) * l[|l| - 1]
  }

  /** Tuple `t` lies inside the box spanned by the limits `l`. */
  predicate InBox(l: seq<nat>, t: seq<nat>) {
    |t| == |l| && forall i :: 0 <= i < |l| ==> t[i] < l[i]
  }

  /** Each tuple of the inner nest, extended by outer index `o`. */
  function WithOuter(ts: seq<seq<nat>>, o: nat): (r: seq<seq<nat>>)
    ensures |r| == |ts|
    ensures forall m :: 0 <= m < |ts| ==> r[m] == ts[m] + [o]
  {
    seq(|ts|, m requires 0 <= m < |ts| => ts[m] + [o])
  }

  /** The outermost loop run for outer indices 0 .. n-1, the inner nest `ts` under each. */
  function OuterLoop(ts: seq<seq<nat>>, n: nat): seq<seq<nat>> {
    if n == 0 then [] else OuterLoop(ts, n - 1) + WithOuter(ts, n - 1)
  }

  /**
   * The index tuples a loop nest over limits `l` hands to its body, in
   * order: the last index drives the outermost loop, index 0 the innermost.
   * With no limits left the body is called once.
   */
  function Visits(l: seq<nat>): seq<seq<nat>>
    decreases |l|
  {
    if |l| == 0 then [[]] else OuterLoop(Visits(l[..|l| - 1]), l[|l| - 1])
  }

  /** Mixed-radix position of a tuple, index 0 the least significant digit. */
  function Rank(l: seq<nat>, t: seq<nat>): nat
    requires |t| == |l|
    decreases |l|
  {
    if |l| == 0 then 0 else Rank(l[..|l| - 1], t[..|t| - 1]) + Product(l[..|l| - 1]) * t[|t| - 1]
  }

  lemma {:induction false} OuterLoopLength(ts: seq<seq<nat>>, n: nat)
    ensures |OuterLoop(ts, n)| == |ts| * n
  {
    if n > 0 {
      OuterLoopLength(ts, n - 1);
      MulSucc(|ts|, n - 1);
    }
  }

  lemma MulSucc(w: nat, a: nat)
    ensures w * a + w == w * (a + 1)
  {
  }

  /** Splitting a position inside n blocks of width w into block and offset. */
  lemma Split(x: nat, w: nat, n: nat) returns (o: nat, m: nat)
    requires x < w * n
    ensures o < n && m < w && x == w * o + m
  {
    assert w > 0;
    o, m := x / w, x % w;
    if n <= o {
      MulMono(w, n, o);
      assert false;
    }
  }

  lemma MulMono(w: nat, a: nat, b: nat)
    requires a <= b
    ensures w * a <= w * b
  {
  }

  /** Inner tuple m under outer index o sits at position |ts| * o + m. */
  lemma {:induction false} OuterLoopAt(ts: seq<seq<nat>>, n: nat, o: nat, m: nat)
    requires o < n && m < |ts|
    ensures |ts| * o + m < |OuterLoop(ts, n)|
    ensures OuterLoop(ts, n)[|ts| * o + m] == ts[m] + [o]
  {
    var w := |ts|;
    var a, b := OuterLoop(ts, n - 1), WithOuter(ts, n - 1);
    assert OuterLoop(ts, n) == a + b;
    OuterLoopLength(ts, n - 1);
    if o == n - 1 {
      assert w * o + m == |a| + m;
      assert (a + b)[|a| + m] == b[m];
    } else {
      OuterLoopAt(ts, n - 1, o, m);
      assert (a + b)[w * o + m] == a[w * o + m];
    }
  }

  /** A loop nest makes exactly as many body calls as its box holds tuples. */
  lemma {:induction false} VisitsLength(l: seq<nat>)
    ensures |Visits(l)| == Product(l)
    decreases |l|
  {
    if |l| > 0 {
      var k := |l| - 1;
      VisitsLength(l[..k]);
      OuterLoopLength(Visits(l[..k]), l[k]);
    }
  }

  /** The n-th call receives a tuple of the box whose mixed-radix position is n. */
  lemma {:induction false} VisitsAt(l: seq<nat>, n: nat)
    requires n < |Visits(l)|
    ensures InBox(l, Visits(l)[n])
    ensures Rank(l, Visits(l)[n]) == n
    decreases |l|
  {
    if |l| > 0 {
      var k := |l| - 1;
      var lp := l[..k];
      var vp := Visits(lp);
      VisitsLength(lp);
      OuterLoopLength(vp, l[k]);
      var o, m := Split(n, |vp|, l[k]);
      OuterLoopAt(vp, l[k], o, m);
      var t := Visits(l)[n];
      assert t == vp[m] + [o];
      VisitsAt(lp, m);
      assert t[..k] == vp[m] && t[k] == o;
      assert forall i :: 0 <= i < k ==> t[i] == vp[m][i];
    }
  }

  /** Every tuple of the box is visited, at its mixed-radix position. */
  lemma {:induction false} VisitsCover(l: seq<nat>, t: seq<nat>)
    requires InBox(l, t)
    ensures Rank(l, t) < |Visits(l)|
    ensures Visits(l)[Rank(l, t)] == t
    decreases |l|
  {
    if |l| > 0 {
      var k := |l| - 1;
      var lp, tp := l[..k], t[..k];
      assert InBox(lp, tp);
      VisitsCover(lp, tp);
      VisitsLength(lp);
      OuterLoopAt(Visits(lp), l[k], t[k], Rank(lp, tp));
      assert tp + [t[k]] == t;
    }
  }

  /**
   * The body is called exactly once for each tuple of the box and never
   * outside it: a tuple is visited iff it lies in the box, and no two calls
   * receive the same tuple.
   */
  lemma VisitedExactlyOnce(l: seq<nat>, t: seq<nat>)
    ensures t in Visits(l) <==> InBox(l, t)
    ensures forall m, n :: 0 <= m < n < |Visits(l)| ==> Visits(l)[m] != Visits(l)[n]
  {
    if InBox(l, t) {
      VisitsCover(l, t);
    }
    if t in Visits(l) {
      var n :| 0 <= n < |Visits(l)| && Visits(l)[n] == t;
      VisitsAt(l, n);
    }
    forall m, n | 0 <= m < n < |Visits(l)|
      ensures Visits(l)[m] != Visits(l)[n]
    {
      VisitsAt(l, m);
      VisitsAt(l, n);
    }
  }

  /** An index variable of the loop nest: not yet assigned, or holding a value. */
  datatype Slot = Unset | Holds(v: nat)

  /**
   * Values the index variables hold when a loop nest over `l` has finished,
   * having started from `idx`: each loop leaves its index at its limit, and
   * a loop nested in one that never iterated keeps its old value.
   */
  function Exit(l: seq<nat>, idx: seq<Slot>): (r: seq<Slot>)
    requires |idx| == |l|
    ensures |r| == |l|
    decreases |l|
  {
    if |l| == 0 then []
    else
      var k := |l| - 1;
      (if l[k] > 0 then Exit(l[..k], idx[..k]) else idx[..k]) + [Holds(l[k])]
  }

  /** Running a finished nest again leaves the index variables where they were. */
  lemma {:induction false} ExitIdempotent(l: seq<nat>, idx: seq<Slot>)
    requires |idx| == |l|
    ensures Exit(l, Exit(l, idx)) == Exit(l, idx)
    decreases |l|
  {
    if |l| > 0 {
      var k := |l| - 1;
      var e := Exit(l, idx);
      assert e[..k] == (if l[k] > 0 then Exit(l[..k], idx[..k]) else idx[..k]);
      if l[k] > 0 {
        ExitIdempotent(l[..k], idx[..k]);
      }
    }
  }

  /**
   * After a nest started from unassigned indices, index i holds its limit
   * exactly when every loop enclosing it iterated at least once, and is
   * still unassigned otherwise.
   */
  lemma {:induction false} ExitFromUnset(l: seq<nat>, idx: seq<Slot>, i: nat)
    requires |idx| == |l| && i < |l|
    requires forall j :: 0 <= j < |idx| ==> idx[j] == Unset
    ensures Exit(l, idx)[i] == (if forall j :: i < j < |l| ==> l[j] > 0 then Holds(l[i]) else Unset)
    decreases |l|
  {
    var k := |l| - 1;
    if i < k {
      if l[k] > 0 {
        ExitFromUnset(l[..k], idx[..k], i);
        assert (forall j :: i < j < k ==> l[..k][j] > 0) <==> (forall j :: i < j < |l| ==> l[j] > 0);
      } else {
        assert !(l[k] > 0);
      }
    }
  }

  /**
   * `parallel_for_driver` (and the loop nest inside every other driver):
   * the loops written out, the index variables kept explicitly so that the
   * values they are left with are part of the result.
   */
  method RunNest(l: seq<nat>, idx0: seq<Slot>) returns (trace: seq<seq<nat>>, idx: seq<Slot>)
    requires |idx0| == |l|
    ensures trace == Visits(l)
    ensures idx == Exit(l, idx0)
    decreases |l|
  {
    if |l| == 0 {
      return [[]], [];
    }
    var k := |l| - 1;
    var lp := l[..k];
    trace := [];
    idx := idx0[..k] + [Holds(0)];
    var o: nat := 0;
    while o < l[k]
      invariant o <= l[k] && |idx| == |l|
      invariant trace == OuterLoop(Visits(lp), o)
      invariant idx == (if o == 0 then idx0[..k] else Exit(lp, idx0[..k])) + [Holds(o)]
    {
      var ts, inner := RunNest(lp, idx[..k]);
      if o > 0 {
        ExitIdempotent(lp, idx0[..k]);
      }
      assert OuterLoop(Visits(lp), o + 1) == OuterLoop(Visits(lp), o) + WithOuter(Visits(lp), o);
      trace := trace + WithOuter(ts, o);
      o := o + 1;
      idx := inner + [Holds(o)];
    }
  }

  /** The 1-, 2- and 3-dimensional `parallel_for_driver` specialisations. */
  method ParallelForDriver(limits: seq<nat>) returns (trace: seq<seq<nat>>)
    requires 1 <= |limits| <= 3
    ensures trace == Visits(limits)
    ensures |trace| == Product(limits)
    ensures forall t :: t in trace <==> InBox(limits, t)
    ensures forall m, n :: 0 <= m < n < |trace| ==> trace[m] != trace[n]
    ensures forall n :: 0 <= n < |trace| ==> InBox(limits, trace[n]) && Rank(limits, trace[n]) == n
  {
    var idx;
    trace, idx := RunNest(limits, seq(|limits|, _ => Unset));
    VisitsLength(limits);
    forall t ensures t in trace <==> InBox(limits, t) {
      VisitedExactlyOnce(limits, t);
    }
    VisitedExactlyOnce(limits, []);
    forall n | 0 <= n < |trace| ensures InBox(limits, trace[n]) && Rank(limits, trace[n]) == n {
      VisitsAt(limits, n);
    }
  }

  /** A body call of a reduction: the index tuple and the address of the reduction storage it is given. */
  datatype ReduceCall = ReduceCall(idx: seq<nat>, sum: nat)

  /** Reduction operator, `reduce_op`. */
  datatype ReduceOp = Max | Min | Sum | Prod

  /** The four operators, in declaration order. */
  const AllReduceOps: seq<ReduceOp> := [Max, Min, Sum, Prod]

  /** Every tuple paired with the same storage address. */
  function WithSum(ts: seq<seq<nat>>, sum: nat): (r: seq<ReduceCall>)
    ensures |r| == |ts|
    ensures forall n :: 0 <= n < |ts| ==> r[n] == ReduceCall(ts[n], sum)
  {
    seq(|ts|, n requires 0 <= n < |ts| => ReduceCall(ts[n], sum))
  }

  /**
   * The flat `parallel_reduce_driver` specialisations (1 to 4 dimensions):
   * every call receives the same storage address; the operator and both
   * reduction counts are not used.
   */
  method ParallelReduceDriver(op: ReduceOp, nReductions: nat, limits: seq<nat>, sum: nat, nDynamic: nat)
    returns (calls: seq<ReduceCall>)
    requires 1 <= |limits| <= 4
    ensures calls == WithSum(Visits(limits), sum)
    ensures |calls| == Product(limits)
    ensures forall n :: 0 <= n < |calls| ==> calls[n].sum == sum
    ensures forall n :: 0 <= n < |calls| ==> InBox(limits, calls[n].idx) && Rank(limits, calls[n].idx) == n
  {
    var ts, idx := RunNest(limits, seq(|limits|, _ => Unset));
    calls := WithSum(ts, sum);
    VisitsLength(limits);
    forall n | 0 <= n < |calls| ensures InBox(limits, calls[n].idx) && Rank(limits, calls[n].idx) == n {
      VisitsAt(limits, n);
    }
  }

  /** A call made by a nested-body reduction: to the outer body, or to the closure it returned. */
  datatype NestedCall = OuterCall(slots: seq<Slot>, sum: nat) | InnerCall(idx: seq<nat>, sum: nat)

  /** The index variables below the outermost one as the outer body sees them on outer iteration o. */
  function StaleBefore(lp: seq<nat>, o: nat): (r: seq<Slot>)
    ensures |r| == |lp|
  {
    var unset := seq(|lp|, _ => Unset);
    if o == 0 then unset else Exit(lp, unset)
  }

  function InnerCalls(ts: seq<seq<nat>>, o: nat, sum: nat): (r: seq<NestedCall>)
    ensures |r| == |ts|
  {
    seq(|ts|, m requires 0 <= m < |ts| => InnerCall(ts[m] + [o], sum))
  }

  /**
   * Outer iterations 0 .. n-1 of a nested-body reduction whose inner nest
   * visits `ts`: on iteration o the outer body is called with the index
   * variables `slots(o)`, then the returned closure for every inner tuple.
   */
  function Blocks(ts: seq<seq<nat>>, slots: nat -> seq<Slot>, sum: nat, n: nat): seq<NestedCall> {
    if n == 0 then []
    else Blocks(ts, slots, sum, n - 1) + [OuterCall(slots(n - 1), sum)] + InnerCalls(ts, n - 1, sum)
  }

  /** The index variables as the outer body sees them on outer iteration o: the stale inner ones, then o. */
  function OuterSlots(lp: seq<nat>): nat -> seq<Slot> {
    (o: nat) => StaleBefore(lp, o) + [Holds(o)]
  }

  /** Outer iterations 0 .. n-1 of a nested-body reduction over `l`. */
  function NestedBlocks(l: seq<nat>, sum: nat, n: nat): seq<NestedCall>
    requires |l| >= 1
  {
    var lp := l[..|l| - 1];
    Blocks(Visits(lp), OuterSlots(lp), sum, n)
  }

  /**
   * The nested-body `parallel_reduce_driver` specialisations (2, 3 and 4
   * dimensions): per outermost index, one call to the outer body with the
   * index variables as they stand, then the returned closure over the inner
   * nest.
   */
  method NestedReduceDriver(op: ReduceOp, nReductions: nat, l: seq<nat>, sum: nat, nDynamic: nat)
    returns (calls: seq<NestedCall>)
    requires 2 <= |l| <= 4
    ensures calls == NestedBlocks(l, sum, l[|l| - 1])
  {
    var k := |l| - 1;
    var lp := l[..k];
    var idx: seq<Slot> := seq(k, _ => Unset) + [Holds(0)];
    calls := [];
    var o: nat := 0;
    while o < l[k]
      invariant o <= l[k] && |idx| == |l|
      invariant calls == NestedBlocks(l, sum, o)
      invariant idx == StaleBefore(lp, o) + [Holds(o)]
    {
      calls := calls + [OuterCall(idx, sum)];
      var ts, inner := RunNest(lp, idx[..k]);
      if o > 0 {
        ExitIdempotent(lp, seq(k, _ => Unset));
      }
      calls := calls + InnerCalls(ts, o, sum);
      o := o + 1;
      idx := inner + [Holds(o)];
    }
  }

  /** The inner-body calls of a nested reduction, in order. */
  function Inners(cs: seq<NestedCall>): seq<seq<nat>> {
    if |cs| == 0 then []
    else Inners(cs[..|cs| - 1]) + (if cs[|cs| - 1].InnerCall? then [cs[|cs| - 1].idx] else [])
  }

  /** The outer-body calls of a nested reduction, in order. */
  function Outers(cs: seq<NestedCall>): seq<seq<Slot>> {
    if |cs| == 0 then []
    else Outers(cs[..|cs| - 1]) + (if cs[|cs| - 1].OuterCall? then [cs[|cs| - 1].slots] else [])
  }

  lemma {:induction false} InnersAppend(a: seq<NestedCall>, b: seq<NestedCall>)
    ensures Inners(a + b) == Inners(a) + Inners(b)
    ensures Outers(a + b) == Outers(a) + Outers(b)
    decreases |b|
  {
    if |b| > 0 {
      var b' := b[..|b| - 1];
      var x := b[|b| - 1];
      InnersAppend(a, b');
      assert (a + b)[..|a + b| - 1] == a + b';
      assert (a + b)[|a + b| - 1] == x;
      assert Inners(b) == Inners(b') + (if x.InnerCall? then [x.idx] else []);
      assert Outers(b) == Outers(b') + (if x.OuterCall? then [x.slots] else []);
      assert Inners(a + b) == Inners(a + b') + (if x.InnerCall? then [x.idx] else []);
      assert Outers(a + b) == Outers(a + b') + (if x.OuterCall? then [x.slots] else []);
    } else {
      assert a + b == a;
    }
  }

  lemma {:induction false} InnerCallsProject(ts: seq<seq<nat>>, o: nat, sum: nat)
    ensures Inners(InnerCalls(ts, o, sum)) == WithOuter(ts, o)
    ensures Outers(InnerCalls(ts, o, sum)) == []
    decreases |ts|
  {
    if |ts| > 0 {
      var ts' := ts[..|ts| - 1];
      InnerCallsProject(ts', o, sum);
      assert InnerCalls(ts, o, sum)[..|ts| - 1] == InnerCalls(ts', o, sum);
      assert WithOuter(ts, o) == WithOuter(ts', o) + [ts[|ts| - 1] + [o]];
    }
  }

  /** Projecting one outer iteration's calls: one outer-body call, then the closure calls. */
  lemma {:induction false} ProjectBlock(prev: seq<NestedCall>, slots: seq<Slot>, ts: seq<seq<nat>>, o: nat, sum: nat)
    ensures Inners(prev + [OuterCall(slots, sum)] + InnerCalls(ts, o, sum)) == Inners(prev) + WithOuter(ts, o)
    ensures Outers(prev + [OuterCall(slots, sum)] + InnerCalls(ts, o, sum)) == Outers(prev) + [slots]
  {
    var oc := [OuterCall(slots, sum)];
    var ic := InnerCalls(ts, o, sum);
    InnersAppend(prev + oc, ic);
    InnersAppend(prev, oc);
    InnerCallsProject(ts, o, sum);
    assert Inners(oc) == [] by { assert oc[..0] == []; }
    assert Outers(oc) == [slots] by { assert oc[..0] == []; }
  }

  /**
   * The closure calls of the first n outer iterations are the flat loop nest
   * over `ts` under outer indices 0 .. n-1; the outer-body calls are one per
   * outer index, in order.
   */
  lemma {:induction false} BlocksProject(ts: seq<seq<nat>>, slots: nat -> seq<Slot>, sum: nat, n: nat)
    ensures Inners(Blocks(ts, slots, sum, n)) == OuterLoop(ts, n)
    ensures |Outers(Blocks(ts, slots, sum, n))| == n
    ensures forall o :: 0 <= o < n ==> Outers(Blocks(ts, slots, sum, n))[o] == slots(o)
  {
    if n > 0 {
      BlocksProject(ts, slots, sum, n - 1);
      BlocksStep(Blocks(ts, slots, sum, n - 1), Blocks(ts, slots, sum, n), ts, slots, sum, n - 1);
    }
  }

  /** One more outer iteration extends both projections by its own calls. */
  lemma BlocksStep(prev: seq<NestedCall>, cur: seq<NestedCall>, ts: seq<seq<nat>>, slots: nat -> seq<Slot>, sum: nat, o: nat)
    requires cur == prev + [OuterCall(slots(o), sum)] + InnerCalls(ts, o, sum)
    requires Inners(prev) == OuterLoop(ts, o) && |Outers(prev)| == o
    requires forall i :: 0 <= i < o ==> Outers(prev)[i] == slots(i)
    ensures Inners(cur) == OuterLoop(ts, o + 1) && |Outers(cur)| == o + 1
    ensures forall i :: 0 <= i < o + 1 ==> Outers(cur)[i] == slots(i)
  {
    ProjectBlock(prev, slots(o), ts, o, sum);
    var po, co := Outers(prev), Outers(cur);
    assert co == po + [slots(o)];
    forall i | 0 <= i < o + 1
      ensures co[i] == slots(i)
    {
      if i < o {
        assert co[i] == po[i];
      }
    }
  }

  /**
   * The closure calls of a nested reduction are exactly the calls of the
   * flat loop nest, in the same order; there is one outer-body call per
   * outermost index, given that index and the stale inner indices.
   */
  lemma NestedCallsMatchNest(l: seq<nat>, sum: nat, n: nat)
    requires |l| >= 1
    ensures Inners(NestedBlocks(l, sum, n)) == OuterLoop(Visits(l[..|l| - 1]), n)
    ensures |Outers(NestedBlocks(l, sum, n))| == n
    ensures forall o :: 0 <= o < n ==> Outers(NestedBlocks(l, sum, n))[o] == StaleBefore(l[..|l| - 1], o) + [Holds(o)]
  {
    var lp := l[..|l| - 1];
    BlocksProject(Visits(lp), OuterSlots(lp), sum, n);
  }

  /** Whole-run form: the closure sees every tuple of the box once, in loop order. */
  lemma NestedReduceVisits(l: seq<nat>, sum: nat)
    requires |l| >= 1
    ensures Inners(NestedBlocks(l, sum, l[|l| - 1])) == Visits(l)
    ensures |Outers(NestedBlocks(l, sum, l[|l| - 1]))| == l[|l| - 1]
  {
    NestedCallsMatchNest(l, sum, l[|l| - 1]);
  }

  /**
   * A `parallel_for` whose body at cell x replaces the value at x by
   * `upd(x, old value)`: the state after the calls for `keys`, in order.
   */
  function Sweep<K(==), T>(f: K -> T, keys: seq<K>, upd: (K, T) -> T): K -> T {
    if |keys| == 0 then f
    else
      var before := Sweep(f, keys[..|keys| - 1], upd);
      var x := keys[|keys| - 1];
      y => if y == x then upd(x, before(x)) else before(y)
  }

  /**
   * When each key is visited once, the order does not matter: every visited
   * cell holds its update of the initial value, every other cell is
   * untouched.
   */
  lemma {:induction false} SweepPointwise<K, T>(f: K -> T, keys: seq<K>, upd: (K, T) -> T, y: K)
    requires forall m, n :: 0 <= m < n < |keys| ==> keys[m] != keys[n]
    ensures Sweep(f, keys, upd)(y) == if y in keys then upd(y, f(y)) else f(y)
    decreases |keys|
  {
    if |keys| > 0 {
      var kp := keys[..|keys| - 1];
      var x := keys[|keys| - 1];
      SweepPointwise(f, kp, upd, y);
      SweepPointwise(f, kp, upd, x);
      assert x !in kp;
      assert y in keys <==> y in kp || y == x;
    }
  }

  /** Which implementation of the loop interface a build uses. */
  datatype Backend = Host | Cuda

  /** The CUDA back end only when the build asks for it and the CUDA compiler is in use. */
  function SelectBackend(useCuda: bool, cudaCompiler: bool): (b: Backend)
    ensures b == Cuda <==> useCuda && cudaCompiler
  {
    if useCuda && cudaCompiler then Cuda else Host
  }
}
