/** The vendor-neutral dispatcher (Bruteforce/BruteforceGpu.cs): its static
    state, set once, and the decision and result mapping of `Bruteforce`
    around one call into a precompiled native library. */
module GpuDispatch {
  import opened Interop
  import opened GpuDetection

  /** The code `Bruteforce` returns and the native libraries it called. */
  datatype Dispatch = Dispatch(code: int, calls: seq<NativeLib>)

  /** The native library for a vendor and a kernel variant. */
  function LibraryFor(gpu: GpuType, v: Variant): NativeLib
    requires gpu != None
  {
    match (gpu, v)
    case (Nvidia, Aligned) => CudaAligned
    case (Nvidia, Unaligned) => CudaUnaligned
    case (AMD, Aligned) => RocmAligned
    case (AMD, Unaligned) => RocmUnaligned
  }

  /** One call of a native `bruteforceBits` inside the `try` block: an
      exception becomes -1, a returned value goes through the result mapping. */
  function CallNative(native: NativeOracle, lib: NativeLib, data: seq<Byte>, hash: seq<Byte>): (d: Dispatch)
    ensures d.calls == [lib]
    ensures native(lib, data, hash, |data|, UINT32_MAX) == Threw <==> d.code == -1
    ensures native(lib, data, hash, |data|, UINT32_MAX).Wrote? ==>
      d.code == MapResult(native(lib, data, hash, |data|, UINT32_MAX).value)
  {
    match native(lib, data, hash, |data|, UINT32_MAX)
    case Threw => Dispatch(-1, [lib])
    case Wrote(v) => Dispatch(MapResult(v), [lib])
  }

  /** The static fields of BruteforceGpu. */
  class BruteforceGpu {
    const gpuType: GpuType
    var initialized: bool

    /** The field initializer runs the detection once; the static
        constructor then sets `_initialized` when a GPU was found. */
    constructor (env: Env)
      ensures gpuType == DetectGpuType(env).gpu
      ensures initialized == (gpuType != None)
    {
      gpuType := DetectGpuType(env).gpu;
      initialized := false;
      new;
      if gpuType != None {
        initialized := true;
      }
    }

    /** What the static constructor establishes; nothing writes the fields afterwards. */
    ghost predicate Valid()
      reads this
    {
      initialized == (gpuType != None)
    }

    predicate IsGpuAvailable()
      reads this
      ensures Valid() ==> (IsGpuAvailable() <==> gpuType != None)
    {
      initialized && gpuType != None
    }

    function Bruteforce(u: Utility, native: NativeOracle, data: seq<Byte>, hash: seq<Byte>): (d: Dispatch)
      reads this
      // availability is checked before the hash comparison
      ensures !IsGpuAvailable() ==> d == Dispatch(-1, [])
      ensures IsGpuAvailable() && AlreadyMatches(u, data, hash) ==> d == Dispatch(-2, [])
      ensures IsGpuAvailable() && !AlreadyMatches(u, data, hash) ==>
        d.calls == [LibraryFor(gpuType, VariantFor(|data|))]
    {
      if !IsGpuAvailable() then Dispatch(-1, [])
      else if AlreadyMatches(u, data, hash) then Dispatch(-2, [])
      else
        var aligned := |data| % 64 == 0;
        // IsGpuAvailable leaves only Nvidia and AMD
        if gpuType == Nvidia then
          CallNative(native, if aligned then CudaAligned else CudaUnaligned, data, hash)
        else
          CallNative(native, if aligned then RocmAligned else RocmUnaligned, data, hash)
    }
  }

  /** The code `Bruteforce` returns once it has called the native library:
      -1 for an exception, -3 for the sentinel (also when the library left
      `result` untouched), and any other written value through C#'s unchecked
      `(int)` cast, which is the bit index itself when it fits in an `int`. */
  lemma BruteforceResult(g: BruteforceGpu, u: Utility, native: NativeOracle, data: seq<Byte>, hash: seq<Byte>)
    requires g.Valid() && g.gpuType != None && !AlreadyMatches(u, data, hash)
    ensures var lib := LibraryFor(g.gpuType, VariantFor(|data|));
      var d := g.Bruteforce(u, native, data, hash);
      && (lib == CudaAligned || lib == RocmAligned <==> |data| % 64 == 0)
      && (lib == CudaAligned || lib == CudaUnaligned <==> g.gpuType == Nvidia)
      && (native(lib, data, hash, |data|, UINT32_MAX) == Threw ==> d.code == -1)
      && (native(lib, data, hash, |data|, UINT32_MAX) == Wrote(UINT32_MAX) ==> d.code == -3)
      && (forall v: UInt32 :: native(lib, data, hash, |data|, UINT32_MAX) == Wrote(v) ==>
            d.code == MapResult(v) && (v <= INT32_MAX ==> d.code == v))
  {
  }

  /** Every code `Bruteforce` can return: the three status codes or a value
      the native library wrote, passed through the result mapping. */
  lemma BruteforceCodes(g: BruteforceGpu, u: Utility, native: NativeOracle, data: seq<Byte>, hash: seq<Byte>)
    requires g.Valid()
    ensures var d := g.Bruteforce(u, native, data, hash);
      d.code in {-1, -2, -3} ||
      exists v: UInt32 :: v != UINT32_MAX && d.code == MapResult(v) &&
        native(LibraryFor(g.gpuType, VariantFor(|data|)), data, hash, |data|, UINT32_MAX) == Wrote(v)
  {
  }
}
