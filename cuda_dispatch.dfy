/** The CUDA-only dispatcher (Bruteforce/BruteforceCuda.cs): the once-only
    choice between the runtime PTX loader and the precompiled native
    libraries, and `Bruteforce`, which routes one piece to the chosen
    backend and maps its 32-bit result. Unlike the vendor-neutral dispatcher
    it has no -1 outcome and catches nothing: an exception from the backend
    reaches the caller. */
module CudaDispatch {
  import opened Interop
  import opened Steps
  import opened CudaPtx
  import GpuDetection
  import GpuDispatch

  /** The exception that leaves `Bruteforce`: the PTX loader could not be
      initialized, or a native library call threw. */
  datatype CudaFault = InitFailed(outcome: InitOutcome) | NativeThrew

  /** The native path's result: the value left in `result`, mapped, or the
      exception of the call. */
  function NativeCode(reply: NativeReply): (r: Result<int, CudaFault>)
    ensures reply == Threw <==> r == Err(NativeThrew)
    ensures reply.Wrote? ==> r == Ok(MapResult(reply.value))
  {
    match reply
    case Threw => Err(NativeThrew)
    case Wrote(v) => Ok(MapResult(v))
  }

  /** The precompiled CUDA library for a piece of `length` bytes: the one
      the vendor-neutral dispatcher picks for NVIDIA. */
  function NativeLibFor(length: nat): (lib: NativeLib)
    ensures lib == CudaAligned <==> length % 64 == 0
    ensures lib == CudaAligned || lib == CudaUnaligned
  {
    GpuDispatch.LibraryFor(GpuDetection.Nvidia, VariantFor(length))
  }

  /** The static state of BruteforceCuda. */
  class BruteforceCuda {
    const loader: CudaPtxLoader
    const usePtx: bool

    /** The static constructor: PTX only on Linux, only when the aligned
        PTX file exists (the unaligned one is not looked at), and only when
        `IsSupported` holds, which is asked only if the first two do. */
    constructor (os: OS, loader: CudaPtxLoader)
      requires loader.Valid()
      modifies loader.drv
      ensures this.loader == loader && loader.Valid()
      ensures loader.drv.live == old(loader.drv.live)
      ensures usePtx <==>
        && os == Linux && ALIGNED_PTX in loader.files && loader.drv.present
        && Outcome(loader.drv.status, [CuInit(0), CuDeviceGet(0)], |old(loader.drv.log)|) == Completed
      ensures !(os == Linux && ALIGNED_PTX in loader.files) ==> loader.drv.log == old(loader.drv.log)
    {
      this.loader := loader;
      var use := false;
      if os == Linux && ALIGNED_PTX in loader.files {
        use := loader.IsSupported();
      }
      usePtx := use;
    }

    /** `Bruteforce`: -2 before any GPU work when the hash already matches;
        otherwise one run of the aligned or unaligned kernel of the chosen
        backend, starting from the sentinel, and the result mapping. Only the
        PTX path touches the loader. */
    method Bruteforce(u: Utility, native: NativeOracle, data: seq<Byte>, hash: seq<Byte>)
      returns (r: Result<int, CudaFault>, ghost buffers: seq<Handle>)
      requires loader.Valid() && |data| <= INT32_MAX
      modifies loader, loader.drv
      ensures loader.Valid() && loader.drv.live == old(loader.drv.live)
      ensures r.Ok? ==> r.value != -1
      ensures AlreadyMatches(u, data, hash) || !usePtx ==>
        && loader.drv.log == old(loader.drv.log)
        && loader.initialized == old(loader.initialized) && loader.Current() == old(loader.Current())
      ensures AlreadyMatches(u, data, hash) ==> r == Ok(-2)
      ensures !AlreadyMatches(u, data, hash) && !usePtx ==>
        r == NativeCode(native(NativeLibFor(|data|), data, hash, |data|, UINT32_MAX))
      ensures !AlreadyMatches(u, data, hash) && usePtx && !loader.drv.present ==>
        && r == Err(InitFailed(DriverMissing))
        && loader.drv.log == old(loader.drv.log) && loader.Current() == old(loader.Current())
      ensures !AlreadyMatches(u, data, hash) && usePtx && loader.drv.present ==>
        var p := Prepared(loader.files, loader.drv.status, loader.drv.out, old(loader.drv.log),
                          old(loader.Current()), old(loader.initialized));
        var func := if |data| % 64 == 0 then p.h.funcAligned else p.h.funcUnaligned;
        && loader.Current() == p.h
        && (r.Ok? <==> p.o == Completed) && (loader.initialized <==> p.o == Completed)
        && (r.Err? ==> r == Err(InitFailed(OfChain(p.o))) && loader.drv.log == p.log)
        && (r.Ok? ==>
              && |buffers| == 3
              && loader.drv.log == p.log + ExecutionCalls(func, data, hash, |data|, buffers[0], buffers[1], buffers[2])
              && r.value == MapResult(ReadBack(loader.drv.status, loader.drv.word, loader.drv.log)))
    {
      buffers := [];
      if AlreadyMatches(u, data, hash) {
        return Ok(-2), buffers;
      }
      var result: UInt32 := UINT32_MAX;
      if usePtx {
        var outcome;
        if |data| % 64 == 0 {
          outcome, result, buffers := loader.BruteforceBitsAligned(data, hash, |data|, result);
        } else {
          outcome, result, buffers := loader.BruteforceBitsUnaligned(data, hash, |data|, result);
        }
        if outcome != Ready {
          return Err(InitFailed(outcome)), buffers;
        }
      } else {
        var reply := native(NativeLibFor(|data|), data, hash, |data|, result);
        if reply == Threw {
          return Err(NativeThrew), buffers;
        }
        result := reply.value;
      }
      if result == UINT32_MAX {
        return Ok(-3), buffers;
      }
      return Ok(ToInt32(result)), buffers;
    }
  }
}
