/** The PTX runtime loader (Bruteforce/CudaPtxLoader.cs) over an abstract
    CUDA driver. The driver is an oracle that answers each call with a status
    and an out-value, may answer differently over time, keeps the table of
    live device allocations and logs every call made to it. */
module CudaPtx {
  import opened Interop
  import opened Steps

  /** An `IntPtr` handed out by the driver; 0 is `IntPtr.Zero`. */
  type Handle = int

  const CUDA_ERROR_INVALID_VALUE: int := 1
  const KERNEL_NAME: string := "bruteforceBits"
  const ALIGNED_PTX: string := "ptx/kernel_aligned.ptx"
  const UNALIGNED_PTX: string := "ptx/kernel_unaligned.ptx"
  const BLOCK_SIZE: int := 1024

  /** The driver API calls the loader makes, with the arguments it passes. */
  datatype Call =
    | CuInit(flags: int)
    | CuDeviceGet(ordinal: int)
    | CuCtxCreate(flags: int, dev: int)
    | CuModuleLoadData(image: seq<Byte>)
    | CuModuleGetFunction(hmod: Handle, name: string)
    | CuMemAlloc(bytesize: int)
    | CuMemcpyHtoD(dstDevice: Handle, srcHost: seq<Byte>)
    | CuMemcpyDtoH(srcDevice: Handle, byteCount: int)
    | CuLaunchKernel(f: Handle, gridDimX: int, gridDimY: int, gridDimZ: int,
                     blockDimX: int, blockDimY: int, blockDimZ: int,
                     sharedMemBytes: int, kernelParams: seq<int>)
    | CuMemFree(dptr: Handle)

  class CudaDriver {
    /** Whether the `cuda` library can be bound; when it cannot, the first
        P/Invoke into it throws. */
    const present: bool
    /** `status(c, t)`: the status (0 is success) call `c` returns when `t`
        calls were made before it. */
    const status: (Call, nat) -> int
    /** The value the call writes to its out-parameter when it succeeds. */
    const out: (Call, nat) -> Handle
    /** The 32-bit word a device-to-host copy finds in device memory. */
    const word: (Call, nat) -> UInt32
    /** Device allocations not yet freed. */
    var live: set<Handle>
    var next: Handle
    var log: seq<Call>

    constructor (present: bool, status: (Call, nat) -> int, out: (Call, nat) -> Handle, word: (Call, nat) -> UInt32)
      ensures this.present == present && this.status == status && this.out == out && this.word == word
      ensures Valid() && live == {} && log == []
    {
      this.present := present;
      this.status := status;
      this.out := out;
      this.word := word;
      live := {};
      next := 1;
      log := [];
    }

    ghost predicate Valid()
      reads this
    {
      0 < next && forall p :: p in live ==> 0 < p < next
    }

    /** A call whose only effects are its status and out-value. */
    method Invoke(c: Call) returns (st: int, o: Handle)
      requires Valid()
      requires !c.CuMemAlloc? && !c.CuMemFree? && !c.CuMemcpyDtoH?
      modifies this
      ensures Valid() && live == old(live) && next == old(next)
      ensures log == old(log) + [c] && st == status(c, |old(log)|) && o == out(c, |old(log)|)
    {
      st, o := status(c, |log|), out(c, |log|);
      log := log + [c];
    }

    /** `cuMemAlloc`: on success a new allocation, otherwise the out-parameter
        keeps its initial `IntPtr.Zero`. */
    method MemAlloc(bytesize: int) returns (st: int, dptr: Handle)
      requires Valid()
      modifies this
      ensures Valid() && log == old(log) + [CuMemAlloc(bytesize)]
      ensures st == status(CuMemAlloc(bytesize), |old(log)|)
      ensures st == 0 ==> dptr == old(next) && dptr !in old(live) &&
                          live == old(live) + {dptr} && next == old(next) + 1
      ensures st != 0 ==> dptr == 0 && live == old(live) && next == old(next)
    {
      st := status(CuMemAlloc(bytesize), |log|);
      log := log + [CuMemAlloc(bytesize)];
      if st == 0 {
        dptr := next;
        live := live + {dptr};
        next := next + 1;
      } else {
        dptr := 0;
      }
    }

    /** `cuMemFree`: a live allocation is released; anything else is rejected. */
    method MemFree(dptr: Handle) returns (st: int)
      requires Valid()
      modifies this
      ensures Valid() && log == old(log) + [CuMemFree(dptr)] && next == old(next)
      ensures live == old(live) - {dptr}
      ensures st == if dptr in old(live) then 0 else CUDA_ERROR_INVALID_VALUE
    {
      st := if dptr in live then 0 else CUDA_ERROR_INVALID_VALUE;
      live := live - {dptr};
      log := log + [CuMemFree(dptr)];
    }

    /** `cuMemcpyDtoH` of one 32-bit word: on success the host array receives
        the word's bytes, otherwise it keeps what it held. */
    method MemcpyDtoH(dstHost: array<Byte>, srcDevice: Handle, byteCount: int) returns (st: int)
      requires Valid() && dstHost.Length == byteCount == 4
      modifies this, dstHost
      ensures Valid() && live == old(live) && next == old(next)
      ensures log == old(log) + [CuMemcpyDtoH(srcDevice, byteCount)]
      ensures st == status(CuMemcpyDtoH(srcDevice, byteCount), |old(log)|)
      ensures dstHost[..] == if st == 0 then LittleEndianBytes(word(CuMemcpyDtoH(srcDevice, byteCount), |old(log)|))
                             else old(dstHost[..])
    {
      st := status(CuMemcpyDtoH(srcDevice, byteCount), |log|);
      if st == 0 {
        var bytes := LittleEndianBytes(word(CuMemcpyDtoH(srcDevice, byteCount), |log|));
        dstHost[0], dstHost[1], dstHost[2], dstHost[3] := bytes[0], bytes[1], bytes[2], bytes[3];
        assert dstHost[..] == bytes;
      }
      log := log + [CuMemcpyDtoH(srcDevice, byteCount)];
    }
  }

  // ---------------------------------------------------------------------------
  // The loader's calls, as plans

  /** Loading one variant: the module from the PTX bytes, then the
      `bruteforceBits` entry of the module the driver returned. */
  function VariantPlan(out: (Call, nat) -> Handle, image: seq<Byte>, t: nat): seq<Call> {
    [CuModuleLoadData(image), CuModuleGetFunction(out(CuModuleLoadData(image), t), KERNEL_NAME)]
  }

  /** `LoadPtxModules`: the aligned variant, then the unaligned one, each only
      if its PTX file exists. */
  function ModulePlan(files: map<string, seq<Byte>>, out: (Call, nat) -> Handle, t: nat): seq<Call> {
    var a := if ALIGNED_PTX in files then VariantPlan(out, files[ALIGNED_PTX], t) else [];
    var u := if UNALIGNED_PTX in files then VariantPlan(out, files[UNALIGNED_PTX], t + |a|) else [];
    a + u
  }

  /** The first steps of `Initialize`: driver init, device 0, a context on that device. */
  function ContextPlan(out: (Call, nat) -> Handle, t: nat): seq<Call> {
    [CuInit(0), CuDeviceGet(0), CuCtxCreate(0, out(CuDeviceGet(0), t + 1))]
  }

  /** `Initialize`: the context, then the modules. */
  function InitPlan(files: map<string, seq<Byte>>, out: (Call, nat) -> Handle, t: nat): seq<Call> {
    ContextPlan(out, t) + ModulePlan(files, out, t + 3)
  }

  /** The handles the loader keeps. */
  datatype Handles = Handles(context: Handle, moduleAligned: Handle, funcAligned: Handle,
                             moduleUnaligned: Handle, funcUnaligned: Handle)

  /** Where a chain of loader steps leaves things: how it ended, the
      handles, and the driver's log. */
  datatype Loading = Loading(o: Stop<Call>, h: Handles, log: seq<Call>)

  /** Loading one variant after the calls in `log`: the module, then its
      entry point, stopping at the first non-zero status; a handle is written
      only by a call that succeeds. The result is the outcome, the module and
      function handles, and the log afterwards. */
  function VariantLoad(status: (Call, nat) -> int, out: (Call, nat) -> Handle, image: seq<Byte>,
                       log: seq<Call>, hmod: Handle, func: Handle): (Stop<Call>, Handle, Handle, seq<Call>)
  {
    var t := |log|;
    var load := CuModuleLoadData(image);
    if status(load, t) != 0 then (FailedAt(load, status(load, t)), hmod, func, log + [load])
    else
      var get := CuModuleGetFunction(out(load, t), KERNEL_NAME);
      if status(get, t + 1) != 0 then (FailedAt(get, status(get, t + 1)), out(load, t), func, log + [load, get])
      else (Completed, out(load, t), out(get, t + 1), log + [load, get])
  }

  /** `LoadPtxModules` after the calls in `log`: the aligned variant if its
      file exists, then the unaligned one if its file exists and the aligned
      one did not fail. */
  function LoadModules(files: map<string, seq<Byte>>, status: (Call, nat) -> int, out: (Call, nat) -> Handle,
                       log: seq<Call>, h: Handles): Loading
  {
    var (o, m, f, l) := if ALIGNED_PTX in files
      then VariantLoad(status, out, files[ALIGNED_PTX], log, h.moduleAligned, h.funcAligned)
      else (Completed, h.moduleAligned, h.funcAligned, log);
    var h1 := h.(moduleAligned := m, funcAligned := f);
    if o != Completed || UNALIGNED_PTX !in files then Loading(o, h1, l)
    else
      var (o2, m2, f2, l2) := VariantLoad(status, out, files[UNALIGNED_PTX], l, h.moduleUnaligned, h.funcUnaligned);
      Loading(o2, h1.(moduleUnaligned := m2, funcUnaligned := f2), l2)
  }

  /** `Initialize` after the calls in `log`: driver init, device 0, a
      context on that device, then the modules. */
  function Initialization(files: map<string, seq<Byte>>, status: (Call, nat) -> int, out: (Call, nat) -> Handle,
                          log: seq<Call>, h: Handles): Loading
  {
    var t := |log|;
    var init := CuInit(0);
    var device := CuDeviceGet(0);
    if status(init, t) != 0 then Loading(FailedAt(init, status(init, t)), h, log + [init])
    else if status(device, t + 1) != 0 then Loading(FailedAt(device, status(device, t + 1)), h, log + [init, device])
    else
      var ctx := CuCtxCreate(0, out(device, t + 1));
      if status(ctx, t + 2) != 0 then Loading(FailedAt(ctx, status(ctx, t + 2)), h, log + [init, device, ctx])
      else LoadModules(files, status, out, log + [init, device, ctx], h.(context := out(ctx, t + 2)))
  }

  // ---------------------------------------------------------------------------
  // What loading means

  /** Loading a variant is the two-step chain of `VariantPlan`. */
  lemma VariantLoadRuns(status: (Call, nat) -> int, out: (Call, nat) -> Handle, image: seq<Byte>,
                        log: seq<Call>, hmod: Handle, func: Handle)
    ensures var (o, _, _, l) := VariantLoad(status, out, image, log, hmod, func);
      RanChain(status, log, l, VariantPlan(out, image, |log|), o)
  {
    var plan := VariantPlan(out, image, |log|);
    assert plan[1..][1..] == [];
    assert plan[..1] == [plan[0]] && plan[..2] == plan;
  }

  /** Loading the modules is the chain of `ModulePlan`. */
  lemma {:induction false} LoadModulesRuns(files: map<string, seq<Byte>>, status: (Call, nat) -> int,
                                           out: (Call, nat) -> Handle, log: seq<Call>, h: Handles)
    ensures var r := LoadModules(files, status, out, log, h);
      RanChain(status, log, r.log, ModulePlan(files, out, |log|), r.o)
  {
    var t := |log|;
    var plan := ModulePlan(files, out, t);
    var r := LoadModules(files, status, out, log, h);
    if ALIGNED_PTX in files {
      var a := VariantPlan(out, files[ALIGNED_PTX], t);
      var (o, _, _, l) := VariantLoad(status, out, files[ALIGNED_PTX], log, h.moduleAligned, h.funcAligned);
      VariantLoadRuns(status, out, files[ALIGNED_PTX], log, h.moduleAligned, h.funcAligned);
      if UNALIGNED_PTX !in files {
        assert plan == a + [] && r.o == o && r.log == l;
      } else if o != Completed {
        ChainStop(status, log, l, a, VariantPlan(out, files[UNALIGNED_PTX], t + |a|), o);
      } else {
        var u := VariantPlan(out, files[UNALIGNED_PTX], t + |a|);
        ChainCompleted(status, log, l, a);
        VariantLoadRuns(status, out, files[UNALIGNED_PTX], l, h.moduleUnaligned, h.funcUnaligned);
        ChainThen(status, log, l, r.log, a, u, r.o);
      }
    } else if UNALIGNED_PTX in files {
      assert plan == [] + VariantPlan(out, files[UNALIGNED_PTX], t);
      VariantLoadRuns(status, out, files[UNALIGNED_PTX], log, h.moduleUnaligned, h.funcUnaligned);
    } else {
      assert plan == [] && r.log == log;
    }
  }

  /** Initialization is the chain of `InitPlan`: it stops at the first step
      whose status is non-zero, and reports that step. */
  lemma {:induction false} InitializationRuns(files: map<string, seq<Byte>>, status: (Call, nat) -> int,
                                              out: (Call, nat) -> Handle, log: seq<Call>, h: Handles)
    ensures var r := Initialization(files, status, out, log, h);
      RanChain(status, log, r.log, InitPlan(files, out, |log|), r.o)
  {
    var t := |log|;
    var head := ContextPlan(out, t);
    var modules := ModulePlan(files, out, t + 3);
    var r := Initialization(files, status, out, log, h);
    assert head[1..][1..][1..] == [];
    var o3, n3 := Outcome(status, head[1..][1..][1..], t + 3), Taken(status, head[1..][1..][1..], t + 3);
    var o2, n2 := Outcome(status, head[1..][1..], t + 2), Taken(status, head[1..][1..], t + 2);
    var o1, n1 := Outcome(status, head[1..], t + 1), Taken(status, head[1..], t + 1);
    if Outcome(status, head, t) == Completed {
      var l1 := log + head;
      assert head[..3] == head;
      LoadModulesRuns(files, status, out, l1, h.(context := out(head[2], t + 2)));
      ChainThen(status, log, l1, r.log, head, modules, r.o);
    } else {
      assert head[..1] == [head[0]] && head[..2] == [head[0], head[1]] && head[..3] == head;
      ChainStop(status, log, r.log, head, modules, r.o);
    }
  }

  /** `func` was resolved, with a successful `cuModuleGetFunction`, from the
      module `module` that a successful `cuModuleLoadData` created from `image`. */
  ghost predicate Resolved(status: (Call, nat) -> int, out: (Call, nat) -> Handle, log: seq<Call>,
                           image: seq<Byte>, hmod: Handle, func: Handle)
  {
    exists i :: 0 <= i < |log| - 1 &&
      log[i] == CuModuleLoadData(image) && status(log[i], i) == 0 && out(log[i], i) == hmod &&
      log[i + 1] == CuModuleGetFunction(hmod, KERNEL_NAME) && status(log[i + 1], i + 1) == 0 &&
      out(log[i + 1], i + 1) == func
  }

  /** After a completed initialization each variant whose PTX file exists
      has the entry point resolved from that file's module, and the handles
      of a variant without a file are untouched. */
  lemma {:induction false} InitializationResolves(files: map<string, seq<Byte>>, status: (Call, nat) -> int,
                                                  out: (Call, nat) -> Handle, log: seq<Call>, h: Handles)
    requires Initialization(files, status, out, log, h).o == Completed
    ensures var r := Initialization(files, status, out, log, h);
      && (ALIGNED_PTX in files ==>
            Resolved(status, out, r.log, files[ALIGNED_PTX], r.h.moduleAligned, r.h.funcAligned))
      && (UNALIGNED_PTX in files ==>
            Resolved(status, out, r.log, files[UNALIGNED_PTX], r.h.moduleUnaligned, r.h.funcUnaligned))
      && (ALIGNED_PTX !in files ==> r.h.moduleAligned == h.moduleAligned && r.h.funcAligned == h.funcAligned)
      && (UNALIGNED_PTX !in files ==> r.h.moduleUnaligned == h.moduleUnaligned && r.h.funcUnaligned == h.funcUnaligned)
  {
    var t := |log|;
    var r := Initialization(files, status, out, log, h);
    var k := if ALIGNED_PTX in files then t + 5 else t + 3;
    InitializationRuns(files, status, out, log, h);
    ChainCompleted(status, log, r.log, InitPlan(files, out, t));
    CompletedIffAllSucceed(status, InitPlan(files, out, t), t);
    var plan := InitPlan(files, out, t);
    if ALIGNED_PTX in files {
      assert r.log[t + 3] == plan[3] && r.log[t + 4] == plan[4];
      assert status(plan[3], t + 3) == 0 && status(plan[4], t + 4) == 0;
    }
    if UNALIGNED_PTX in files {
      assert r.log[k] == plan[k - t] && r.log[k + 1] == plan[k - t + 1];
      assert status(plan[k - t], k) == 0 && status(plan[k - t + 1], k + 1) == 0;
    }
  }

  /** The grid size of the launch, `(uint)((pieceSize * 8 + 1023) / 1024)`
      in C#'s 32-bit `int` arithmetic: the product wraps, the division
      truncates toward zero, the cast to `uint` wraps again. One thread per
      bit, 1024 threads a block, as long as `pieceSize * 8 + 1023` fits in an
      `int`, that is for pieces of at most 268435328 bytes. */
  function GridSize(pieceSize: int): (g: UInt32)
    requires 0 <= pieceSize <= INT32_MAX
    ensures pieceSize * 8 + 1023 <= INT32_MAX ==>
      g * BLOCK_SIZE >= pieceSize * 8 && (g - 1) * BLOCK_SIZE < pieceSize * 8
  {
    var x := pieceSize * 8 + 1023;
    var n := ToInt32(x % TWO_32);
    var q := if n < 0 then -((-n) / 1024) else n / 1024;
    if x <= INT32_MAX then
      assert x % TWO_32 == x && n == x && q == x / 1024 < TWO_32;
      CeilBlocks(pieceSize * 8);
      q % TWO_32
    else
      q % TWO_32
  }

  /** `(x + 1023) / 1024` is the fewest blocks of 1024 that cover `x`. */
  lemma CeilBlocks(x: nat)
    ensures ((x + 1023) / 1024) * BLOCK_SIZE >= x && ((x + 1023) / 1024 - 1) * BLOCK_SIZE < x
  {
    var q, r := (x + 1023) / 1024, (x + 1023) % 1024;
    assert x + 1023 == q * 1024 + r && 0 <= r < 1024;
  }

  /** The largest piece whose product fits gets the exact grid; one byte
      more wraps the product past `int.MaxValue`, and the grid asked for is
      larger than any the driver accepts. */
  lemma GridSizeWraps()
    ensures 268435328 * 8 + 1023 == INT32_MAX && GridSize(268435328) == 2097151
    ensures GridSize(268435329) == 4292870145 > INT32_MAX
  {
  }

  /** The calls `ExecuteKernel` makes, given the buffers the three
      allocations returned: allocate, copy in, launch with the parameters
      data, hash, size, result, copy the result back, free. */
  function ExecutionCalls(func: Handle, pieceData: seq<Byte>, pieceHash: seq<Byte>, pieceSize: int,
                          dData: Handle, dHash: Handle, dResult: Handle): (calls: seq<Call>)
    requires 0 <= pieceSize <= INT32_MAX
    ensures |calls| == 10
  {
    AllocationCalls(pieceData, pieceHash)
      + LaunchCalls(func, pieceData, pieceHash, pieceSize, dData, dHash, dResult)
      + [CuMemcpyDtoH(dResult, 4)]
      + [CuMemFree(dData), CuMemFree(dHash), CuMemFree(dResult)]
  }

  function AllocationCalls(pieceData: seq<Byte>, pieceHash: seq<Byte>): seq<Call> {
    [CuMemAlloc(|pieceData|), CuMemAlloc(|pieceHash|), CuMemAlloc(4)]
  }

  function LaunchCalls(func: Handle, pieceData: seq<Byte>, pieceHash: seq<Byte>, pieceSize: int,
                       dData: Handle, dHash: Handle, dResult: Handle): seq<Call>
    requires 0 <= pieceSize <= INT32_MAX
  {
    [ CuMemcpyHtoD(dData, pieceData), CuMemcpyHtoD(dHash, pieceHash),
      CuLaunchKernel(func, GridSize(pieceSize), 1, 1, BLOCK_SIZE, 1, 1, 0, [dData, dHash, pieceSize, dResult]) ]
  }

  /** The log ends with an execution of `func` on a piece of `pieceSize`
      bytes: its launch is the fifth call from the end. */
  ghost predicate LaunchedLast(log: seq<Call>, func: Handle, pieceSize: int) {
    && |log| >= 10
    && log[|log| - 5].CuLaunchKernel?
    && log[|log| - 5].f == func
    && |log[|log| - 5].kernelParams| == 4
    && log[|log| - 5].kernelParams[2] == pieceSize
  }

  /** The value an execution ending the log reads back: the word of its
      copy-back, the fourth call from the end, or 0 (the zeroed host array)
      if that copy failed. */
  function ReadBack(status: (Call, nat) -> int, word: (Call, nat) -> UInt32, log: seq<Call>): UInt32
    requires |log| >= 4
  {
    var copy := log[|log| - 4];
    if status(copy, |log| - 4) == 0 then word(copy, |log| - 4) else 0
  }

  /** A log that ends with the calls of an execution ends with its launch
      and its copy-back where `LaunchedLast` and `ReadBack` look for them. */
  lemma ExecutionEnds(status: (Call, nat) -> int, word: (Call, nat) -> UInt32, log0: seq<Call>,
                      func: Handle, pieceData: seq<Byte>, pieceHash: seq<Byte>, pieceSize: int,
                      dData: Handle, dHash: Handle, dResult: Handle, result: UInt32)
    requires 0 <= pieceSize <= INT32_MAX
    requires var copy := CuMemcpyDtoH(dResult, 4);
      result == if status(copy, |log0| + 6) == 0 then word(copy, |log0| + 6) else 0
    ensures var log := log0 + ExecutionCalls(func, pieceData, pieceHash, pieceSize, dData, dHash, dResult);
      LaunchedLast(log, func, pieceSize) && result == ReadBack(status, word, log)
  {
    var calls := ExecutionCalls(func, pieceData, pieceHash, pieceSize, dData, dHash, dResult);
    var log := log0 + calls;
    assert log[|log| - 5] == calls[5] == LaunchCalls(func, pieceData, pieceHash, pieceSize, dData, dHash, dResult)[2];
    assert log[|log| - 4] == calls[6] == CuMemcpyDtoH(dResult, 4);
  }

  /** The logs of the four stages of an execution add up to its calls. */
  lemma ExecutionLog(log0: seq<Call>, log1: seq<Call>, log2: seq<Call>, log3: seq<Call>, log4: seq<Call>,
                     func: Handle, pieceData: seq<Byte>, pieceHash: seq<Byte>, pieceSize: int,
                     dData: Handle, dHash: Handle, dResult: Handle)
    requires 0 <= pieceSize <= INT32_MAX
    requires log1 == log0 + AllocationCalls(pieceData, pieceHash)
    requires log2 == log1 + LaunchCalls(func, pieceData, pieceHash, pieceSize, dData, dHash, dResult)
    requires log3 == log2 + [CuMemcpyDtoH(dResult, 4)]
    requires log4 == log3 + [CuMemFree(dData), CuMemFree(dHash), CuMemFree(dResult)]
    ensures log4 == log0 + ExecutionCalls(func, pieceData, pieceHash, pieceSize, dData, dHash, dResult)
  {
  }

  /** How `Initialize` ends: ready, the driver library missing (the first
      P/Invoke throws), or a step returning a non-zero status. */
  datatype InitOutcome = Ready | DriverMissing | StepFailed(call: Call, status: int)

  function OfChain(o: Stop<Call>): (r: InitOutcome)
    ensures r == Ready <==> o == Completed
    ensures r != DriverMissing
  {
    match o
    case Completed => Ready
    case FailedAt(c, s) => StepFailed(c, s)
  }

  /** What an entry point finds before it executes: the current handles and
      log when already initialized, otherwise the initialization chain. */
  function Prepared(files: map<string, seq<Byte>>, status: (Call, nat) -> int, out: (Call, nat) -> Handle,
                    log: seq<Call>, h: Handles, initialized: bool): Loading
  {
    if initialized then Loading(Completed, h, log) else Initialization(files, status, out, log, h)
  }

  /** The static state of CudaPtxLoader. */
  class CudaPtxLoader {
    const drv: CudaDriver
    /** The files under the working directory, with their contents. */
    const files: map<string, seq<Byte>>
    var initialized: bool
    var context: Handle
    var moduleAligned: Handle
    var moduleUnaligned: Handle
    var funcAligned: Handle
    var funcUnaligned: Handle
    /** `GCHandle`s pinned and not yet freed. */
    var pinned: nat

    constructor (drv: CudaDriver, files: map<string, seq<Byte>>)
      ensures this.drv == drv && this.files == files && pinned == 0
      ensures !initialized && Current() == Handles(0, 0, 0, 0, 0)
    {
      this.drv := drv;
      this.files := files;
      initialized := false;
      context, moduleAligned, moduleUnaligned, funcAligned, funcUnaligned := 0, 0, 0, 0, 0;
      pinned := 0;
    }

    ghost predicate Valid()
      reads this, drv
    {
      drv.Valid() && (initialized ==> drv.present)
    }

    function Current(): Handles
      reads this
    {
      Handles(context, moduleAligned, funcAligned, moduleUnaligned, funcUnaligned)
    }

    /** `IsSupported`: driver init and device 0, and nothing else; an
        exception from the binding yields false. */
    method IsSupported() returns (ok: bool)
      requires Valid()
      modifies drv
      ensures Valid() && drv.live == old(drv.live) && drv.next == old(drv.next)
      ensures !drv.present ==> !ok && drv.log == old(drv.log)
      ensures drv.present ==>
        var plan := [CuInit(0), CuDeviceGet(0)];
        && RanChain(drv.status, old(drv.log), drv.log, plan, Outcome(drv.status, plan, |old(drv.log)|))
        && (ok <==> Outcome(drv.status, plan, |old(drv.log)|) == Completed)
    {
      if !drv.present {
        return false;
      }
      var st, device := drv.Invoke(CuInit(0));
      if st != 0 {
        return false;
      }
      st, device := drv.Invoke(CuDeviceGet(0));
      if st != 0 {
        return false;
      }
      return true;
    }

    /** Loading one variant: its module, then its `bruteforceBits` entry. */
    method LoadVariant(image: seq<Byte>, hmod0: Handle, func0: Handle) returns (o: Stop<Call>, hmod: Handle, func: Handle)
      requires drv.Valid()
      modifies drv
      ensures drv.Valid() && drv.live == old(drv.live) && drv.next == old(drv.next)
      ensures (o, hmod, func, drv.log) == VariantLoad(drv.status, drv.out, image, old(drv.log), hmod0, func0)
    {
      hmod, func := hmod0, func0;
      var st, h := drv.Invoke(CuModuleLoadData(image));
      if st != 0 {
        return FailedAt(CuModuleLoadData(image), st), hmod, func;
      }
      hmod := h;
      st, h := drv.Invoke(CuModuleGetFunction(hmod, KERNEL_NAME));
      if st != 0 {
        assert drv.log == old(drv.log) + [CuModuleLoadData(image), CuModuleGetFunction(hmod, KERNEL_NAME)];
        return FailedAt(CuModuleGetFunction(hmod, KERNEL_NAME), st), hmod, func;
      }
      func := h;
      o := Completed;
      assert drv.log == old(drv.log) + [CuModuleLoadData(image), CuModuleGetFunction(hmod, KERNEL_NAME)];
    }

    /** `LoadPtxModules`: each variant whose PTX file exists, the aligned one
        first; a failure ends the load. */
    method LoadPtxModules() returns (o: Stop<Call>)
      requires Valid()
      modifies this, drv
      ensures Valid() && drv.live == old(drv.live) && drv.next == old(drv.next)
      ensures initialized == old(initialized) && pinned == old(pinned)
      ensures Loading(o, Current(), drv.log) == LoadModules(files, drv.status, drv.out, old(drv.log), old(Current()))
    {
      o := Completed;
      if ALIGNED_PTX in files {
        var ptxData := files[ALIGNED_PTX];
        o, moduleAligned, funcAligned := LoadVariant(ptxData, moduleAligned, funcAligned);
        if o != Completed {
          return;
        }
      }
      if UNALIGNED_PTX in files {
        var ptxData := files[UNALIGNED_PTX];
        o, moduleUnaligned, funcUnaligned := LoadVariant(ptxData, moduleUnaligned, funcUnaligned);
      }
    }

    /** `Initialize`: nothing once initialized; otherwise the chain of
        `Initialization`, and `initialized` is set only when it completes. */
    method Initialize() returns (r: InitOutcome)
      requires Valid()
      modifies this, drv
      ensures Valid() && drv.live == old(drv.live) && drv.next == old(drv.next) && pinned == old(pinned)
      ensures old(initialized) ==>
        r == Ready && initialized && drv.log == old(drv.log) && Current() == old(Current())
      ensures !old(initialized) && !drv.present ==>
        r == DriverMissing && !initialized && drv.log == old(drv.log) && Current() == old(Current())
      ensures !old(initialized) && drv.present ==>
        var l := Initialization(files, drv.status, drv.out, old(drv.log), old(Current()));
        r == OfChain(l.o) && Current() == l.h && drv.log == l.log && (initialized <==> r == Ready)
    {
      if initialized {
        return Ready;
      }
      if !drv.present {
        return DriverMissing;
      }
      var st, device := drv.Invoke(CuInit(0));
      if st != 0 {
        return StepFailed(CuInit(0), st);
      }
      var dev;
      st, dev := drv.Invoke(CuDeviceGet(0));
      if st != 0 {
        assert drv.log == old(drv.log) + [CuInit(0), CuDeviceGet(0)];
        return StepFailed(CuDeviceGet(0), st);
      }
      device := dev;
      var ctx;
      st, ctx := drv.Invoke(CuCtxCreate(0, device));
      assert drv.log == old(drv.log) + [CuInit(0), CuDeviceGet(0), CuCtxCreate(0, device)];
      if st != 0 {
        return StepFailed(CuCtxCreate(0, device), st);
      }
      context := ctx;
      assert Initialization(files, drv.status, drv.out, old(drv.log), old(Current()))
        == LoadModules(files, drv.status, drv.out, drv.log, Current());
      var o := LoadPtxModules();
      r := OfChain(o);
      if o == Completed {
        initialized := true;
      }
    }

    /** The non-null buffers of an execution are new and distinct. */
    ghost predicate NewBuffers(buffers: seq<Handle>, live: set<Handle>)
      requires |buffers| == 3
    {
      && (forall i :: 0 <= i < 3 && buffers[i] != 0 ==> buffers[i] !in live)
      && (forall i, j :: 0 <= i < j < 3 && buffers[i] != 0 ==> buffers[i] != buffers[j])
    }

    /** `ExecuteKernel`: three device buffers, the piece and its hash copied
        in, one launch of `func` with one thread per bit of the piece, the
        result word copied back, the buffers freed. No status is checked: a
        failed allocation leaves its pointer null and the calls go on, and a
        failed copy-back leaves the zeroed host array, so the result is 0. */
    method ExecuteKernel(func: Handle, pieceData: seq<Byte>, pieceHash: seq<Byte>, pieceSize: int)
      returns (result: UInt32, ghost buffers: seq<Handle>)
      requires Valid()
      requires 0 <= pieceSize <= INT32_MAX
      modifies this`pinned, drv
      ensures Valid() && pinned == old(pinned) && drv.live == old(drv.live)
      ensures |buffers| == 3
      ensures drv.log == old(drv.log) + ExecutionCalls(func, pieceData, pieceHash, pieceSize, buffers[0], buffers[1], buffers[2])
      ensures buffers[0] != 0 <==> drv.status(CuMemAlloc(|pieceData|), |old(drv.log)|) == 0
      ensures buffers[1] != 0 <==> drv.status(CuMemAlloc(|pieceHash|), |old(drv.log)| + 1) == 0
      ensures buffers[2] != 0 <==> drv.status(CuMemAlloc(4), |old(drv.log)| + 2) == 0
      ensures NewBuffers(buffers, old(drv.live))
      ensures LaunchedLast(drv.log, func, pieceSize) && result == ReadBack(drv.status, drv.word, drv.log)
    {
      ghost var log0, live0 := drv.log, drv.live;
      var dData, dHash, dResult := AllocateBuffers(pieceData, pieceHash);
      buffers := [dData, dHash, dResult];
      ghost var log1 := drv.log;
      Launch(func, pieceData, pieceHash, pieceSize, dData, dHash, dResult);
      ghost var log2 := drv.log;
      result := ReadResult(dResult);
      ghost var log3 := drv.log;
      FreeBuffers(dData, dHash, dResult);
      ExecutionLog(log0, log1, log2, log3, drv.log, func, pieceData, pieceHash, pieceSize, dData, dHash, dResult);
      ExecutionEnds(drv.status, drv.word, log0, func, pieceData, pieceHash, pieceSize, dData, dHash, dResult, result);
      assert drv.live == live0 by {
        assert 0 !in live0;
      }
    }

    /** The three `cuMemAlloc` calls of `ExecuteKernel`, statuses unchecked. */
    method AllocateBuffers(pieceData: seq<Byte>, pieceHash: seq<Byte>) returns (dData: Handle, dHash: Handle, dResult: Handle)
      requires drv.Valid()
      modifies drv
      ensures drv.Valid() && drv.log == old(drv.log) + AllocationCalls(pieceData, pieceHash)
      ensures dData != 0 <==> drv.status(CuMemAlloc(|pieceData|), |old(drv.log)|) == 0
      ensures dHash != 0 <==> drv.status(CuMemAlloc(|pieceHash|), |old(drv.log)| + 1) == 0
      ensures dResult != 0 <==> drv.status(CuMemAlloc(4), |old(drv.log)| + 2) == 0
      ensures forall p :: p in {dData, dHash, dResult} && p != 0 ==> p !in old(drv.live)
      ensures dData != 0 ==> dData != dHash && dData != dResult
      ensures dHash != 0 ==> dHash != dResult
      ensures drv.live == old(drv.live) + ({dData, dHash, dResult} - {0})
    {
      var st;
      st, dData := drv.MemAlloc(|pieceData|);
      st, dHash := drv.MemAlloc(|pieceHash|);
      st, dResult := drv.MemAlloc(4);
    }

    /** Copying the piece and its hash to the device and launching `func`
        with the parameters pinned; statuses unchecked. */
    method Launch(func: Handle, pieceData: seq<Byte>, pieceHash: seq<Byte>, pieceSize: int,
                  dData: Handle, dHash: Handle, dResult: Handle)
      requires drv.Valid()
      requires 0 <= pieceSize <= INT32_MAX
      modifies this`pinned, drv
      ensures drv.Valid() && drv.live == old(drv.live) && pinned == old(pinned) + 1
      ensures drv.log == old(drv.log) + LaunchCalls(func, pieceData, pieceHash, pieceSize, dData, dHash, dResult)
    {
      var st, o := drv.Invoke(CuMemcpyHtoD(dData, pieceData));
      st, o := drv.Invoke(CuMemcpyHtoD(dHash, pieceHash));
      var parameters := [dData, dHash, pieceSize, dResult];
      pinned := pinned + 1;
      var gridSize := GridSize(pieceSize);
      st, o := drv.Invoke(CuLaunchKernel(func, gridSize, 1, 1, BLOCK_SIZE, 1, 1, 0, parameters));
    }

    /** Copying the result word back into a fresh zeroed host array,
        decoding it, and releasing the pinned parameters. */
    method ReadResult(dResult: Handle) returns (result: UInt32)
      requires drv.Valid() && pinned > 0
      modifies this`pinned, drv
      ensures drv.Valid() && drv.live == old(drv.live) && pinned == old(pinned) - 1
      ensures drv.log == old(drv.log) + [CuMemcpyDtoH(dResult, 4)]
      ensures var t := |old(drv.log)|;
        result == if drv.status(CuMemcpyDtoH(dResult, 4), t) == 0 then drv.word(CuMemcpyDtoH(dResult, 4), t) else 0
    {
      var resultBytes := new Byte[4](_ => 0);
      var st := drv.MemcpyDtoH(resultBytes, dResult, 4);
      if st == 0 {
        LittleEndianDecodeEncode(drv.word(CuMemcpyDtoH(dResult, 4), |old(drv.log)|));
      } else {
        assert resultBytes[..] == [0, 0, 0, 0];
      }
      result := ToUInt32(resultBytes[..]);
      pinned := pinned - 1;
    }

    /** The three `cuMemFree` calls, statuses unchecked. */
    method FreeBuffers(dData: Handle, dHash: Handle, dResult: Handle)
      requires drv.Valid()
      modifies drv
      ensures drv.Valid() && drv.log == old(drv.log) + [CuMemFree(dData), CuMemFree(dHash), CuMemFree(dResult)]
      ensures drv.live == old(drv.live) - {dData, dHash, dResult}
    {
      var st := drv.MemFree(dData);
      st := drv.MemFree(dHash);
      st := drv.MemFree(dResult);
    }

    /** `BruteforceBitsAligned`: initialize if needed, then run the aligned
        kernel. When initialization fails the exception leaves `result` as
        it was, and the next call tries to initialize again. */
    method BruteforceBitsAligned(pieceData: seq<Byte>, pieceHash: seq<Byte>, pieceSize: int, result: UInt32)
      returns (r: InitOutcome, resultOut: UInt32, ghost buffers: seq<Handle>)
      requires Valid()
      requires 0 <= pieceSize <= INT32_MAX
      modifies this, drv
      ensures Valid() && pinned == old(pinned) && drv.live == old(drv.live)
      ensures initialized <==> r == Ready
      ensures !old(initialized) && !drv.present ==>
        r == DriverMissing && drv.log == old(drv.log) && Current() == old(Current())
      ensures old(initialized) || drv.present ==>
        var p := Prepared(files, drv.status, drv.out, old(drv.log), old(Current()), old(initialized));
        && r == OfChain(p.o) && Current() == p.h
        && (r != Ready ==> drv.log == p.log)
        && (r == Ready ==>
              && |buffers| == 3
              && drv.log == p.log + ExecutionCalls(funcAligned, pieceData, pieceHash, pieceSize, buffers[0], buffers[1], buffers[2]))
      ensures r != Ready ==> resultOut == result
      ensures r == Ready ==> LaunchedLast(drv.log, funcAligned, pieceSize) && resultOut == ReadBack(drv.status, drv.word, drv.log)
    {
      resultOut := result;
      buffers := [];
      if !initialized {
        r := Initialize();
        if r != Ready {
          return;
        }
      }
      r := Ready;
      resultOut, buffers := ExecuteKernel(funcAligned, pieceData, pieceHash, pieceSize);
    }

    /** `BruteforceBitsUnaligned`: as the aligned entry point, with the
        unaligned kernel. */
    method BruteforceBitsUnaligned(pieceData: seq<Byte>, pieceHash: seq<Byte>, pieceSize: int, result: UInt32)
      returns (r: InitOutcome, resultOut: UInt32, ghost buffers: seq<Handle>)
      requires Valid()
      requires 0 <= pieceSize <= INT32_MAX
      modifies this, drv
      ensures Valid() && pinned == old(pinned) && drv.live == old(drv.live)
      ensures initialized <==> r == Ready
      ensures !old(initialized) && !drv.present ==>
        r == DriverMissing && drv.log == old(drv.log) && Current() == old(Current())
      ensures old(initialized) || drv.present ==>
        var p := Prepared(files, drv.status, drv.out, old(drv.log), old(Current()), old(initialized));
        && r == OfChain(p.o) && Current() == p.h
        && (r != Ready ==> drv.log == p.log)
        && (r == Ready ==>
              && |buffers| == 3
              && drv.log == p.log + ExecutionCalls(funcUnaligned, pieceData, pieceHash, pieceSize, buffers[0], buffers[1], buffers[2]))
      ensures r != Ready ==> resultOut == result
      ensures r == Ready ==> LaunchedLast(drv.log, funcUnaligned, pieceSize) && resultOut == ReadBack(drv.status, drv.word, drv.log)
    {
      resultOut := result;
      buffers := [];
      if !initialized {
        r := Initialize();
        if r != Ready {
          return;
        }
      }
      r := Ready;
      resultOut, buffers := ExecuteKernel(funcUnaligned, pieceData, pieceHash, pieceSize);
    }
  }
}
