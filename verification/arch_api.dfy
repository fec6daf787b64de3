// The common loop interface and the host buffer wrapper: `parallel_for` and
// the three `parallel_reduce` overloads forward to the host drivers; a
// `buf` is a handle on storage owned elsewhere, and its copies share it.

module ArchApi {
  import opened ArchHost

  /** `parallel_for`: the host driver of the same dimension, limits and body unchanged. */
  method ParallelFor(limits: seq<nat>) returns (trace: seq<seq<nat>>)
    requires 1 <= |limits| <= 3
    ensures trace == Visits(limits)
    ensures forall t :: t in trace <==> InBox(limits, t)
  {
    trace := ParallelForDriver(limits);
  }

  /** The arguments one of the overloads hands to the reduction driver. */
  datatype DriverArgs = DriverArgs(op: ReduceOp, nReductions: nat, limits: seq<nat>, sum: nat, nDynamic: nat)

  /** One reduction variable at address `sumAddr`: one reduction, also as the dynamic count. */
  function ReduceScalar(op: ReduceOp, limits: seq<nat>, sumAddr: nat): (r: DriverArgs)
    ensures r.nReductions == 1 && r.nDynamic == 1
    ensures r.op == op && r.limits == limits && r.sum == sumAddr
  {
    DriverArgs(op, 1, limits, sumAddr, 1)
  }

  /** An array of `len` reduction variables starting at `firstAddr`: its length is both counts. */
  function ReduceArray(op: ReduceOp, limits: seq<nat>, firstAddr: nat, len: nat): (r: DriverArgs)
    ensures r.nReductions == len && r.nDynamic == len
    ensures r.op == op && r.limits == limits && r.sum == firstAddr
  {
    DriverArgs(op, len, limits, firstAddr, len)
  }

  /** A vector of reduction variables: no compile-time count, its size as the dynamic one. */
  function ReduceVector(op: ReduceOp, limits: seq<nat>, dataAddr: nat, size: nat): (r: DriverArgs)
    ensures r.nReductions == 0 && r.nDynamic == size
    ensures r.op == op && r.limits == limits && r.sum == dataAddr
  {
    DriverArgs(op, 0, limits, dataAddr, size)
  }

  /** `parallel_reduce` (flat body) through any of the overloads. */
  method ParallelReduce(args: DriverArgs) returns (calls: seq<ReduceCall>)
    requires 1 <= |args.limits| <= 4
    ensures calls == WithSum(Visits(args.limits), args.sum)
  {
    calls := ParallelReduceDriver(args.op, args.nReductions, args.limits, args.sum, args.nDynamic);
  }

  /**
   * Since the host driver ignores the operator and both counts, the three
   * overloads make the same body calls whenever they are handed the same
   * storage address, whatever the operator.
   */
  lemma OverloadsAgree(op1: ReduceOp, op2: ReduceOp, limits: seq<nat>, addr: nat, len: nat)
    ensures var s := ReduceScalar(op1, limits, addr);
            var a := ReduceArray(op2, limits, addr, len);
            var v := ReduceVector(op2, limits, addr, len);
            && WithSum(Visits(s.limits), s.sum) == WithSum(Visits(a.limits), a.sum)
            && WithSum(Visits(a.limits), a.sum) == WithSum(Visits(v.limits), v.sum)
  {
  }

  /** Host buffer handle: storage address, device address (never set on the host), size, copy flag. */
  datatype Buf = Buf(ptr: nat, dPtr: Slot, bytes: nat, isCopy: bool)

  /** Wrapping storage: not a copy, no device address. */
  function NewBuf(ptr: nat, bytes: nat): (b: Buf)
    ensures b.ptr == ptr && b.bytes == bytes && !b.isCopy && b.dPtr == Unset
  {
    Buf(ptr, Unset, bytes, false)
  }

  /** The copy constructor: same storage, same device address and size, marked as a copy. */
  function CopyBuf(b: Buf): (c: Buf)
    ensures c.ptr == b.ptr && c.dPtr == b.dPtr && c.bytes == b.bytes && c.isCopy
    ensures c == b.(isCopy := true)
  {
    Buf(b.ptr, b.dPtr, b.bytes, true)
  }

  /** Element i through the handle: element ptr + i of memory. */
  function Read<T>(mem: nat -> T, b: Buf, i: nat): T {
    mem(b.ptr + i)
  }

  /** A copy reads the same elements as the buffer it was copied from, also after writes to the shared storage. */
  lemma CopySharesStorage<T>(mem: nat -> T, b: Buf, i: nat)
    ensures Read(mem, CopyBuf(b), i) == Read(mem, b, i)
    ensures CopyBuf(CopyBuf(b)) == CopyBuf(b)
  {
  }

  /**
   * Memory as the host sees it around a synchronisation call or a
   * host/device copy: unchanged, these are empty on the host.
   */
  function SyncDeviceData<T>(mem: nat -> T): (r: nat -> T)
    ensures forall a :: r(a) == mem(a)
  {
    mem
  }

  function SyncHostData<T>(mem: nat -> T): (r: nat -> T)
    ensures forall a :: r(a) == mem(a)
  {
    mem
  }

  /** A grid handle: `get(x, y, z)` forwards to the grid. */
  datatype GridBuf<T> = GridBuf(grid: (int, int, int) -> T, isCopy: bool) {
    function Get(x: int, y: int, z: int): T {
      grid(x, y, z)
    }
  }

  function CopyGridBuf<T>(b: GridBuf<T>): (c: GridBuf<T>)
    ensures c.isCopy
    ensures forall x, y, z :: c.Get(x, y, z) == b.Get(x, y, z)
  {
    GridBuf(b.grid, true)
  }
}
