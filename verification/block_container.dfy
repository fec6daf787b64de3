// The velocity block container: a growable array of fixed-width velocity
// blocks, each with its own small parameter record, kept as two flat arrays
// with a capacity (blocks allocated) and a size (blocks in use).
//
// A container is an immutable value here; every operation returns the new
// container. The element-level loops of the C++ (`for i < WID3`) are the
// methods of the first part, each proved to compute its functional
// definition.

module BlockContainer {

  /** Cells in one velocity block: WID^3 with the block width WID = 4. */
  const WID3: nat := 64
  /** Parameters per block: three velocity coordinates and three cell sizes. */
  const NParams: nat := 6
  /** The growth factor 1.1 as a ratio. */
  const GrowthNumerator: nat := 11
  const GrowthDenominator: nat := 10

  // ----- element loops -----

  /** `s` with the `len` elements from `from` on set to zero. */
  function ZeroedRange(s: seq<real>, from: nat, len: nat): (r: seq<real>)
    ensures |r| == |s|
  {
    seq(|s|, i requires 0 <= i < |s| => if from <= i < from + len then 0.0 else s[i])
  }

  /** `s` with `len` elements copied from position `from` to position `to`. */
  function CopiedRange(s: seq<real>, from: nat, to: nat, len: nat): (r: seq<real>)
    requires from + len <= |s| && to + len <= |s|
    ensures |r| == |s|
  {
    seq(|s|, i requires 0 <= i < |s| => if to <= i < to + len then s[from + (i - to)] else s[i])
  }

  /** A fresh zero-filled array of length `n` with the first `len` elements of `s` copied in. */
  function PrefixInto(s: seq<real>, len: nat, n: nat): (r: seq<real>)
    requires len <= |s| && len <= n
    ensures |r| == n
  {
    seq(n, i requires 0 <= i < n => if i < len then s[i] else 0.0)
  }

  /** The zeroing loop of `push_back`, one element at a time. */
  method ZeroLoop(s: seq<real>, from: nat, len: nat) returns (r: seq<real>)
    requires from + len <= |s|
    ensures r == ZeroedRange(s, from, len)
  {
    r := s;
    var i := 0;
    while i < len
      invariant 0 <= i <= len && |r| == |s|
      invariant forall j | 0 <= j < |s| :: r[j] == (if from <= j < from + i then 0.0 else s[j])
    {
      r := r[from + i := 0.0];
      i := i + 1;
    }
  }

  /**
   * The copy loop of `copy`: element by element from the source range to the
   * target range, which are the same or do not overlap (they are whole blocks).
   */
  method CopyLoop(s: seq<real>, from: nat, to: nat, len: nat) returns (r: seq<real>)
    requires from + len <= |s| && to + len <= |s|
    requires from == to || from + len <= to || to + len <= from
    ensures r == CopiedRange(s, from, to, len)
  {
    r := s;
    var i := 0;
    while i < len
      invariant 0 <= i <= len && |r| == |s|
      invariant forall j {:trigger r[j]} | 0 <= j < |s| :: r[j] == (if to <= j < to + i then s[from + (j - to)] else s[j])
    {
      assert r[from + i] == s[from + i];
      r := r[to + i := r[from + i]];
      i := i + 1;
    }
  }

  /** The copy loop of `recapacitate`: the first `len` elements into a fresh zeroed array. */
  method PrefixLoop(s: seq<real>, len: nat, n: nat) returns (r: seq<real>)
    requires len <= |s| && len <= n
    ensures r == PrefixInto(s, len, n)
  {
    r := seq(n, _ => 0.0);
    var i := 0;
    while i < len
      invariant 0 <= i <= len && |r| == n
      invariant forall j | 0 <= j < n :: r[j] == (if j < i then s[j] else 0.0)
    {
      r := r[i := s[i]];
      i := i + 1;
    }
  }

  // ----- the container -----

  /**
   * Block data and parameters (flat, block by block), the number of blocks
   * allocated and the number in use.
   */
  datatype Container = Container(data: seq<real>, params: seq<real>, capacity: nat, size: nat) {
    /** Both arrays hold exactly `capacity` blocks. */
    predicate Layout() {
      |data| == capacity * WID3 && |params| == capacity * NParams
    }

    /** The layout, and no more blocks in use than allocated. */
    predicate Valid() {
      Layout() && size <= capacity
    }

    /** Cell k of block l: what `getData(l)[k]` reads. */
    function Data(l: nat, k: nat): real
      requires Layout() && l < capacity && k < WID3
    {
      data[DataOffset(l) + k]
    }

    /** Parameter k of block l: what `getParameters(l)[k]` reads. */
    function Param(l: nat, k: nat): real
      requires Layout() && l < capacity && k < NParams
    {
      params[ParamOffset(l) + k]
    }
  }

  /** `getData(l)`: the block's first cell sits `l * WID3` cells into the data. */
  function DataOffset(l: nat): (o: nat)
    ensures o == l * WID3
  {
    l * WID3
  }

  /** `getParameters(l)`: the block's parameters start `l * NParams` into the parameter array. */
  function ParamOffset(l: nat): (o: nat)
    ensures o == l * NParams
  {
    l * NParams
  }

  /** Cell k of block l is found again from its flat position: blocks do not overlap and leave no gaps. */
  lemma OffsetsRoundTrip(l: nat, k: nat)
    ensures k < WID3 ==> (DataOffset(l) + k) / WID3 == l && (DataOffset(l) + k) % WID3 == k
    ensures k < NParams ==> (ParamOffset(l) + k) / NParams == l && (ParamOffset(l) + k) % NParams == k
  {
  }

  /** Two blocks' cell ranges are disjoint unless the blocks are the same. */
  lemma {:induction false} BlocksDisjoint(l1: nat, k1: nat, l2: nat, k2: nat)
    requires k1 < WID3 && k2 < WID3
    ensures DataOffset(l1) + k1 == DataOffset(l2) + k2 <==> l1 == l2 && k1 == k2
  {
    OffsetsRoundTrip(l1, k1);
    OffsetsRoundTrip(l2, k2);
  }

  lemma MulMono(a: nat, b: nat, w: nat)
    requires a <= b
    ensures a * w <= b * w
  {
    assert b * w - a * w == (b - a) * w;
  }

  /** Where cell k of block l lies relative to the blocks [from, from + n), for blocks of width w. */
  lemma CellInRange(l: nat, k: nat, from: nat, n: nat, w: nat)
    requires k < w
    ensures from <= l < from + n ==> from * w <= l * w + k < (from + n) * w
    ensures l < from ==> l * w + k < from * w
    ensures l >= from + n ==> l * w + k >= (from + n) * w
  {
    if from <= l {
      MulMono(from, l, w);
    }
    if l < from + n {
      MulMono(l + 1, from + n, w);
    }
    if l < from {
      MulMono(l + 1, from, w);
    }
    if l >= from + n {
      MulMono(from + n, l, w);
    }
  }

  /** The constructor: nothing allocated, nothing in use. */
  function New(): (c: Container)
    ensures c.Valid() && c.size == 0 && c.capacity == 0
    ensures |c.data| == 0 && |c.params| == 0
  {
    Container([], [], 0, 0)
  }

  /** `clear`: both arrays released, size and capacity back to zero. */
  function Clear(c: Container): (r: Container)
    ensures r.Valid() && r.size == 0 && r.capacity == 0
    ensures |r.data| == 0 && |r.params| == 0
  {
    Container([], [], 0, 0)
  }

  /** `getBlockAllocationFactor`, as the ratio 11 / 10. */
  function BlockAllocationFactor(): (f: real)
    ensures f * GrowthDenominator as real == GrowthNumerator as real
  {
    GrowthNumerator as real / GrowthDenominator as real
  }

  /** Capacity after growth: room for the blocks in use plus ten percent, and at least two free blocks. */
  function GrownCapacity(n: nat): (cap: nat)
    ensures cap >= n + 2
    ensures cap * GrowthDenominator <= 2 * GrowthDenominator + n * GrowthNumerator
  {
    2 + (n * GrowthNumerator) / GrowthDenominator
  }

  /**
   * `resize`: when fewer than two allocated blocks are free (or the size
   * already exceeds the capacity), grow to `GrownCapacity(size)`; the new
   * storage is zero, the old storage keeps its place.
   */
  function Resize(c: Container): (r: Container)
    requires c.Layout()
    ensures r.Valid() && r.size == c.size && r.size + 2 <= r.capacity
    ensures r.capacity >= c.capacity
    ensures c.size + 1 < c.capacity ==> r == c
    ensures r.data[..|c.data|] == c.data && r.params[..|c.params|] == c.params
    ensures forall i | |c.data| <= i < |r.data| :: r.data[i] == 0.0
    ensures forall i | |c.params| <= i < |r.params| :: r.params[i] == 0.0
  {
    if c.size + 1 >= c.capacity then
      var cap := GrownCapacity(c.size);
      Container(c.data + seq(cap * WID3 - |c.data|, _ => 0.0),
                c.params + seq(cap * NParams - |c.params|, _ => 0.0),
                cap, c.size)
    else
      c
  }

  /** Storage that an operation leaves where it was: the first `n` blocks' cells and parameters. */
  predicate KeepsBlocks(c: Container, r: Container, n: nat)
    requires c.Layout() && r.Layout() && n <= c.capacity && n <= r.capacity
  {
    && (forall l, k | 0 <= l < n && 0 <= k < WID3 :: r.Data(l, k) == c.Data(l, k))
    && (forall l, k | 0 <= l < n && 0 <= k < NParams :: r.Param(l, k) == c.Param(l, k))
  }

  /** Blocks [from, from + n) are all zero, cells and parameters. */
  predicate ZeroBlocks(r: Container, from: nat, n: nat)
    requires r.Layout() && from + n <= r.capacity
  {
    && (forall l, k | from <= l < from + n && 0 <= k < WID3 :: r.Data(l, k) == 0.0)
    && (forall l, k | from <= l < from + n && 0 <= k < NParams :: r.Param(l, k) == 0.0)
  }

  /** A prefix-preserving change of the arrays keeps every block inside the old capacity. */
  lemma {:induction false} PrefixKeepsBlocks(c: Container, r: Container, n: nat)
    requires c.Layout() && r.Layout() && n <= c.capacity && n <= r.capacity
    requires |c.data| <= |r.data| && r.data[..|c.data|] == c.data
    requires |c.params| <= |r.params| && r.params[..|c.params|] == c.params
    ensures KeepsBlocks(c, r, n)
  {
    forall l, k | 0 <= l < n && 0 <= k < WID3
      ensures r.Data(l, k) == c.Data(l, k)
    {
      assert DataOffset(l) + k < |c.data|;
      assert r.data[..|c.data|][DataOffset(l) + k] == r.data[DataOffset(l) + k];
    }
    forall l, k | 0 <= l < n && 0 <= k < NParams
      ensures r.Param(l, k) == c.Param(l, k)
    {
      assert ParamOffset(l) + k < |c.params|;
      assert r.params[..|c.params|][ParamOffset(l) + k] == r.params[ParamOffset(l) + k];
    }
  }

  /** Growth by `Resize` keeps every block that was allocated. */
  lemma ResizeKeepsBlocks(c: Container)
    requires c.Layout()
    ensures KeepsBlocks(c, Resize(c), c.capacity)
  {
    PrefixKeepsBlocks(c, Resize(c), c.capacity);
  }

  /** Zeroing whole blocks [from, from + n) of both arrays. */
  function ZeroBlockRange(c: Container, from: nat, n: nat): (r: Container)
    requires c.Layout() && from + n <= c.capacity
    ensures r.Layout() && r.capacity == c.capacity && r.size == c.size
    ensures ZeroBlocks(r, from, n)
    ensures KeepsBlocks(c, r, from)
    ensures forall l, k | from + n <= l < c.capacity && 0 <= k < WID3 :: r.Data(l, k) == c.Data(l, k)
  {
    var r := c.(data := ZeroedRange(c.data, DataOffset(from), n * WID3),
                params := ZeroedRange(c.params, ParamOffset(from), n * NParams));
    forall l, k | 0 <= l < c.capacity && 0 <= k < WID3
      ensures r.Data(l, k) == if from <= l < from + n then 0.0 else c.Data(l, k)
    {
      CellInRange(l, k, from, n, WID3);
    }
    forall l, k | 0 <= l < c.capacity && 0 <= k < NParams
      ensures r.Param(l, k) == if from <= l < from + n then 0.0 else c.Param(l, k)
    {
      CellInRange(l, k, from, n, NParams);
    }
    r
  }

  /**
   * `push_back()`: grows first if the container is full, zeroes block
   * `size` and its parameters, then counts it; returns the new block's index.
   */
  function PushBack(c: Container): (res: (Container, nat))
    requires c.Valid()
    ensures var (r, newIndex) := res;
            && r.Valid() && newIndex == c.size && r.size == c.size + 1
            && r.capacity >= c.capacity
            && (c.size < c.capacity ==> r.capacity == c.capacity)
            && ZeroBlocks(r, newIndex, 1)
            && KeepsBlocks(c, r, c.size)
  {
    var grown := if c.size >= c.capacity then Resize(c) else c;
    ResizeKeepsBlocks(c);
    var r := ZeroBlockRange(grown, c.size, 1);
    (r.(size := c.size + 1), c.size)
  }

  /**
   * `push_back(N)`: counts N more blocks, lets `resize` make room, and zeroes
   * exactly the N new blocks; returns the index of the first of them.
   */
  function PushBackN(c: Container, n: nat): (res: (Container, nat))
    requires c.Valid()
    ensures var (r, newIndex) := res;
            && r.Valid() && newIndex == c.size && r.size == c.size + n
            && r.capacity >= c.capacity
            && ZeroBlocks(r, newIndex, n)
            && KeepsBlocks(c, r, c.size)
  {
    var counted := c.(size := c.size + n);
    var grown := Resize(counted);
    ResizeKeepsBlocks(counted);
    var r := ZeroBlockRange(grown, c.size, n);
    (r, c.size)
  }

  /** `pop`: nothing on an empty container, otherwise one block fewer in use; storage untouched. */
  function Pop(c: Container): (r: Container)
    ensures c.size == 0 ==> r == c
    ensures c.size > 0 ==> r.size == c.size - 1
    ensures r.data == c.data && r.params == c.params && r.capacity == c.capacity
    ensures c.Valid() ==> r.Valid()
  {
    if c.size == 0 then c else c.(size := c.size - 1)
  }

  /**
   * `recapacitate`: refused (false, nothing changed) below the size;
   * otherwise fresh zeroed arrays of the new capacity with the blocks in use
   * copied over.
   */
  function Recapacitate(c: Container, newCapacity: nat): (res: (bool, Container))
    requires c.Valid()
    ensures var (ok, r) := res;
            && (ok <==> newCapacity >= c.size)
            && (!ok ==> r == c)
            && (ok ==> r.Valid() && r.capacity == newCapacity && r.size == c.size
                       && KeepsBlocks(c, r, c.size)
                       && ZeroBlocks(r, c.size, newCapacity - c.size))
  {
    if newCapacity < c.size then
      (false, c)
    else
      var r := Container(PrefixInto(c.data, c.size * WID3, newCapacity * WID3),
                         PrefixInto(c.params, c.size * NParams, newCapacity * NParams),
                         newCapacity, c.size);
      forall l, k | 0 <= l < newCapacity && 0 <= k < WID3
        ensures r.Data(l, k) == if l < c.size then c.Data(l, k) else 0.0
      {
        CellInRange(l, k, c.size, 0, WID3);
      }
      forall l, k | 0 <= l < newCapacity && 0 <= k < NParams
        ensures r.Param(l, k) == if l < c.size then c.Param(l, k) else 0.0
      {
        CellInRange(l, k, c.size, 0, NParams);
      }
      (true, r)
  }

  /**
   * `setSize`: takes the new size as given and grows only when it exceeds
   * the capacity. Blocks that come into use are not zeroed.
   */
  function SetSize(c: Container, newSize: nat): (res: (bool, Container))
    requires c.Valid()
    ensures var (ok, r) := res;
            && ok && r.Valid() && r.size == newSize
            && (newSize <= c.capacity ==> r.data == c.data && r.params == c.params && r.capacity == c.capacity)
            && r.capacity >= c.capacity
            && KeepsBlocks(c, r, c.capacity)
  {
    var counted := c.(size := newSize);
    if newSize > c.capacity then
      ResizeKeepsBlocks(counted);
      (true, Resize(counted))
    else
      (true, counted)
  }

  /**
   * `copy`: block `target` and its parameters become copies of block
   * `source`; nothing else changes. Callers pass blocks in use.
   */
  function Copy(c: Container, source: nat, target: nat): (r: Container)
    requires c.Valid() && source < c.size && target < c.size
    ensures r.Valid() && r.size == c.size && r.capacity == c.capacity
    ensures forall k | 0 <= k < WID3 :: r.Data(target, k) == c.Data(source, k)
    ensures forall k | 0 <= k < NParams :: r.Param(target, k) == c.Param(source, k)
    ensures forall l, k | 0 <= l < c.capacity && l != target && 0 <= k < WID3 :: r.Data(l, k) == c.Data(l, k)
    ensures forall l, k | 0 <= l < c.capacity && l != target && 0 <= k < NParams :: r.Param(l, k) == c.Param(l, k)
  {
    var r := c.(data := CopiedRange(c.data, DataOffset(source), DataOffset(target), WID3),
                params := CopiedRange(c.params, ParamOffset(source), ParamOffset(target), NParams));
    forall l, k | 0 <= l < c.capacity && 0 <= k < WID3
      ensures r.Data(l, k) == if l == target then c.Data(source, k) else c.Data(l, k)
    {
      CellInRange(l, k, target, 1, WID3);
    }
    forall l, k | 0 <= l < c.capacity && 0 <= k < NParams
      ensures r.Param(l, k) == if l == target then c.Param(source, k) else c.Param(l, k)
    {
      CellInRange(l, k, target, 1, NParams);
    }
    r
  }

  /** `swap`: the two containers exchange storage, capacity and size. */
  function Swap(a: Container, b: Container): (res: (Container, Container))
    ensures res.0.data == b.data && res.0.params == b.params
    ensures res.0.capacity == b.capacity && res.0.size == b.size
    ensures res.1.data == a.data && res.1.params == a.params
    ensures res.1.capacity == a.capacity && res.1.size == a.size
  {
    (Container(b.data, b.params, b.capacity, b.size), Container(a.data, a.params, a.capacity, a.size))
  }

  /** Swapping twice gives both containers back. */
  lemma SwapTwice(a: Container, b: Container)
    ensures var (a1, b1) := Swap(a, b); Swap(a1, b1) == (a, b)
  {
  }

  /** `sizeInBytes`: both arrays' lengths times their element sizes. */
  function SizeInBytes(c: Container, cellBytes: nat, paramBytes: nat): (bytes: nat)
    requires c.Layout()
    ensures bytes == c.capacity * (WID3 * cellBytes + NParams * paramBytes)
  {
    |c.data| * cellBytes + |c.params| * paramBytes
  }

  /** `pop` after `push_back` gives back the size and every block that was in use. */
  lemma {:induction false} PopUndoesPushBack(c: Container)
    requires c.Valid()
    ensures var r := Pop(PushBack(c).0);
            && r.Valid() && r.size == c.size && r.capacity >= c.capacity
            && KeepsBlocks(c, r, c.size)
  {
    var (p, _) := PushBack(c);
    assert KeepsBlocks(c, p, c.size);
    var r := Pop(p);
    assert forall l, k | 0 <= l < c.size && 0 <= k < WID3 :: r.Data(l, k) == p.Data(l, k);
    assert forall l, k | 0 <= l < c.size && 0 <= k < NParams :: r.Param(l, k) == p.Param(l, k);
  }

  /** The operations a container goes through. */
  datatype Op =
    | PushOne
    | PushMany(n: nat)
    | PopOne
    | CopyBlock(source: nat, target: nat)
    | Recap(newCapacity: nat)
    | Resized(newSize: nat)
    | Cleared

  /** One operation; a `copy` whose blocks are not in use is skipped (the source never issues one). */
  function Apply(c: Container, op: Op): (r: Container)
    requires c.Valid()
    ensures r.Valid()
  {
    match op
    case PushOne => PushBack(c).0
    case PushMany(n) => PushBackN(c, n).0
    case PopOne => Pop(c)
    case CopyBlock(s, t) => if s < c.size && t < c.size then Copy(c, s, t) else c
    case Recap(n) => Recapacitate(c, n).1
    case Resized(n) => SetSize(c, n).1
    case Cleared => Clear(c)
  }

  function Run(c: Container, ops: seq<Op>): Container
    requires c.Valid()
    decreases |ops|
  {
    if |ops| == 0 then c else Run(Apply(c, ops[0]), ops[1..])
  }

  /** Every container built from `New` by any operations keeps size within capacity and the array layout. */
  lemma {:induction false} RunKeepsValid(c: Container, ops: seq<Op>)
    requires c.Valid()
    ensures Run(c, ops).Valid()
    ensures Run(c, ops).size <= Run(c, ops).capacity
    decreases |ops|
  {
    if |ops| > 0 {
      RunKeepsValid(Apply(c, ops[0]), ops[1..]);
    }
  }
}
