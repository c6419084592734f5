# BitrotBruteforce: GPU backend resolution and runtime loading, in Dafny

BitrotBruteforce repairs a data piece damaged by one flipped bit. It asks a
GPU kernel which bit, when flipped, makes the piece's SHA-1 digest equal the
expected one. This project models the host-side logic around that kernel:

- **GPU detection** (`GpuDetection`, module `GpuDetection`). It runs probe
  chains over the host:
  - CUDA is probed before ROCm;
  - version-suffixed runtime names are tried in order;
  - exceptions are swallowed;
  - when no runtime loads, the probe falls back to checking for the bundled
    library file.

  The host is a value `Env` holding:
  - the operating system;
  - the library names that load;
  - the names whose load attempt throws;
  - the files that exist.

  A probe records the load, release and file-exists events it causes.
- **The vendor-neutral dispatcher** (`BruteforceGpu`, module `GpuDispatch`).
  - It keeps static state that is set once.
  - It returns -1 when no GPU is available, before the hash check.
  - It returns -2 when the hash already matches.
  - Otherwise it makes one call into the native library for the vendor and
    the kernel variant.
  - An exception becomes -1. The sentinel `uint.MaxValue` becomes -3. Any
    other value goes through C#'s unchecked `(int)` cast.
- **The CUDA dispatcher** (`BruteforceCuda`, module `CudaDispatch`).
  - The static constructor fixes `_usePtx` once: Linux, the aligned PTX file
    present, and `IsSupported`.
  - `Bruteforce` routes either to the PTX loader or to the precompiled CUDA
    libraries.
  - It has no -1 outcome and catches nothing. A failed initialization or a
    throwing native call is returned as an `Err`.
- **The PTX runtime loader** (`CudaPtxLoader`, module `CudaPtx`). It is a
  class over an abstract CUDA driver (`CudaDriver`).
  - The driver is an oracle. It answers each call with a status and an
    out-value that may depend on how many calls came before.
  - The driver keeps the set of live device allocations and logs every call.
  - The loader's static fields become the class's fields: `initialized`, the
    context, the modules and the function handles.
  - `Initialize` is proved to be the status-checked chain
    init → device 0 → context → modules, which stops at the first failure.
  - `ExecuteKernel` is proved to issue its ten calls in order and to leave
    the live allocations as it found them.
- **The HIP host code** (`kernel.cpp`, module `RocmKernel`).
  - `hexStringToBytes` is modelled with `strtoul` on each pair of characters
    in the "C" locale, together with the decode/encode round trips.
  - `main`'s 20-byte check of the expected hash is modelled.
  - The SHA-1 midstate table is built by a loop. It is proved to hold, at
    entry `k`, the initial context fed the first `k` chunks.
  - The launch size is modelled.
  - `bruteforceBits` is modelled over an abstract HIP runtime (`HipRuntime`),
    with its `goto Error` cleanup. It is proved to be a chain of
    status-checked steps that stops at the first failure. On every path the
    cleanup frees all four device pointers, so the set of live allocations is
    unchanged. `*result` changes only when every step succeeded.

The module `Steps` states once what a status-checked chain of foreign calls
is:
- `Outcome`: how the chain ended;
- `Taken`: how many steps ran;
- `RanChain`: the log grew by exactly those steps.

Both the loader's `Initialize` and the HIP entry point are proved equal to
such a chain.

Foreign code is represented by oracles, each a function-typed field or
parameter:
- the CUDA driver and the HIP runtime;
- `LoadLibrary`/`dlopen`, and `File.Exists` as the set of files;
- the native `bruteforceBits`;
- `GetHash` and `IsEqual`;
- SHA-1's `sha1_init` and `sha1_update`.

Where the code's behaviour may surprise a reader, the model follows the
code:
- `ExecuteKernel` checks no status. A failed allocation or copy does not
  stop the call. A failed copy-back yields 0 from the zeroed host array; it
  is not reported as a failure.
- `BruteforceCuda` prefers the PTX loader over the native libraries whenever
  `_usePtx` holds, without looking for the native libraries first.
- `BruteforceCuda` has no -1 ("unavailable") outcome, and its exceptions
  reach the caller.
- The result mapping is C#'s unchecked cast. A bit index of 2^31 or more
  becomes a negative number. The indexes 2^32-2 and 2^32-3 collide with the
  codes -2 and -3 (`Interop.MapResult`).
- `Initialize` sets `_initialized` even when neither PTX file exists. The
  function handles then stay `IntPtr.Zero`.
- The grid size is computed in 32-bit `int` arithmetic. It wraps for pieces
  of 268435329 bytes or more, where `pieceSize*8+1023` exceeds
  `int.MaxValue` (`CudaPtx.GridSizeWraps`).

## Model

| member | source | states |
|---|---|---|
| Interop.ToInt32 | Bruteforce/BruteforceCuda.cs:48 | the unchecked `(int)` cast: a 32-bit signed value congruent to the input modulo 2^32, equal to it exactly when it is at most `int.MaxValue` |
| Interop.MapResult | Bruteforce/BruteforceGpu.cs:67-70 | the sentinel gives -3; an index that fits in an `int` is returned unchanged; larger ones come back negative; -1 never results; -2 and -3 each arise from exactly the inputs listed |
| Interop.LittleEndianDecodeEncode | Bruteforce/CudaPtxLoader.cs:189-191 | decoding the four little-endian bytes of a word with `BitConverter.ToUInt32` gives the word back |
| Interop.VariantFor | Bruteforce/BruteforceGpu.cs:47-57 | the aligned variant is chosen exactly when the length is a multiple of 64 |
| GpuDetection.TryLoad | Bruteforce/GpuDetection.cs:54-88 | the runtime names tried in order inside the `try` block, stopping at the first that loads (released at once) or throws; it finds a library exactly when its last event releases one (further properties in `TryLoadFound`, `TryLoadOrder`, `TryLoadBalanced`) |
| GpuDetection.ProbeWithFallback | Bruteforce/GpuDetection.cs:52-95 | no contract of its own: the runtime chain, then the bundled-file check only when it failed; its properties are stated by `ProbeSpec` and `ProbeFaultFallsBack` |
| GpuDetection.CanLoadCudaLibrary | Bruteforce/GpuDetection.cs:50-96 | CUDA is found exactly when some runtime name loads after all earlier names returned null, or the OS's bundled CUDA library exists |
| GpuDetection.CanLoadRocmLibrary | Bruteforce/GpuDetection.cs:98-134 | ROCm is found exactly when its runtime loads or the OS's bundled ROCm library (with a `lib` prefix off Windows) exists |
| GpuDetection.TryLoadFound | Bruteforce/GpuDetection.cs:54-72 | the runtime fallback chain succeeds exactly when the reference definition holds: some candidate loads and every candidate before it returned null |
| GpuDetection.TryLoadOrder | Bruteforce/GpuDetection.cs:57-66 | the names tried are a prefix of the candidate list, in order, and each name before the last tried returned null |
| GpuDetection.TryLoadBalanced | Bruteforce/GpuDetection.cs:68-71 | every handle the chain loads is released immediately after, nothing else is released, and the chain checks no file |
| GpuDetection.ProbeSpec | Bruteforce/GpuDetection.cs:52-95 | a probe reports found when the runtime chain succeeded, and otherwise reports whether the bundled file exists; the file is checked only after the whole chain failed; its loads and releases are balanced |
| GpuDetection.ProbeFaultFallsBack | Bruteforce/GpuDetection.cs:85-88 | an exception from the first load attempt is swallowed, and the result is the bundled-file check |
| GpuDetection.DetectPriority | Bruteforce/GpuDetection.cs:33-48 | NVIDIA whenever the CUDA probe succeeds, in which case the ROCm probe never runs; otherwise AMD or None according to the ROCm probe |
| GpuDetection.DetectFromHost | Bruteforce/GpuDetection.cs:33-48 | the detected vendor in terms of the host alone: which runtime names load and which bundled files exist |
| GpuDetection.DetectGpuType | Bruteforce/GpuDetection.cs:33-48 | no contract of its own: the CUDA probe, then the ROCm probe only when it failed; its properties are stated by `DetectPriority` and `DetectFromHost` |
| GpuDetection.GetGpuTypeDescription | Bruteforce/GpuDetection.cs:139-148 | no contract of its own: the three descriptions; `DescriptionsDistinct` states that they differ |
| GpuDetection.DescriptionsDistinct | Bruteforce/GpuDetection.cs:139-148 | the description is total and different vendors get different strings |
| GpuDispatch.LibraryFor | Bruteforce/BruteforceGpu.cs:44-59 | no contract of its own: the CUDA libraries for NVIDIA and the ROCm ones for AMD, aligned or unaligned by the variant; `BruteforceResult` states the choice |
| GpuDispatch.CallNative | Bruteforce/BruteforceGpu.cs:42-70 | exactly one native library is called; the code is -1 exactly when that call throws, and a value the call wrote comes back through the result mapping |
| GpuDispatch.BruteforceGpu.constructor | Bruteforce/BruteforceGpu.cs:12-26 | the vendor is the result of detection, and `initialized` is true exactly when a vendor was found |
| GpuDispatch.BruteforceGpu.IsGpuAvailable | Bruteforce/BruteforceGpu.cs:28 | once the static state is set up, availability is equivalent to a vendor having been detected |
| GpuDispatch.BruteforceGpu.Bruteforce | Bruteforce/BruteforceGpu.cs:30-71 | -1 with no call when unavailable, checked before the hash; -2 with no call when the hash matches; otherwise exactly one call, to the library of the detected vendor and the variant for the length |
| GpuDispatch.BruteforceResult | Bruteforce/BruteforceGpu.cs:40-70 | the aligned library exactly for multiples of 64, the CUDA library exactly for NVIDIA; an exception gives -1, the sentinel (also left untouched) gives -3, every other written value goes through the unchecked `(int)` cast, so an index that fits in an `int` is returned as is |
| GpuDispatch.BruteforceCodes | Bruteforce/BruteforceGpu.cs:30-71 | every result is -1, -2, -3 or the mapped value the native library wrote |
| CudaDispatch.NativeCode | Bruteforce/BruteforceCuda.cs:36-48 | a throwing native call becomes an error, and any written value goes through the result mapping |
| CudaDispatch.NativeLibFor | Bruteforce/BruteforceCuda.cs:39-42 | the library the vendor-neutral dispatcher picks for NVIDIA: the aligned CUDA library exactly when the length is a multiple of 64, and a CUDA library always |
| CudaDispatch.BruteforceCuda.constructor | Bruteforce/BruteforceCuda.cs:13-19 | `usePtx` holds exactly on Linux with the aligned PTX file present and the init and device-get steps succeeding; the probe makes no call unless the first two hold, and it allocates nothing |
| CudaDispatch.BruteforceCuda.Bruteforce | Bruteforce/BruteforceCuda.cs:21-49 | -2 when the hash matches and the native path both leave the loader's handles, `initialized` and the driver log untouched; the native path maps the library's reply; on the PTX path a missing driver is an error that changes nothing, and otherwise the handles and `initialized` are those of the initialization chain (or unchanged when already initialized), an error reports the failed step, and a success adds exactly the ten execution calls on the variant's function for the length and maps the word read back; no -1 is ever returned; device allocations balance |
| Steps.CompletedIffAllSucceed | Bruteforce/CudaPtxLoader.cs:84-100 | a status-checked chain completes exactly when every one of its steps returns status 0 |
| Steps.TakenPrefixSucceeds | RocmAlignedBitrotFinder/kernel.cpp:39-116 | every step before the one that stopped a chain succeeded |
| Steps.OutcomeAppend | RocmAlignedBitrotFinder/kernel.cpp:39-116 | two chains run back to back: the second runs only when the first completed |
| CudaPtx.CudaDriver.MemAlloc | Bruteforce/CudaPtxLoader.cs:36-37 | on success a new pointer that was not live becomes live; on failure the out-parameter stays `IntPtr.Zero` and nothing is allocated |
| CudaPtx.CudaDriver.MemFree | Bruteforce/CudaPtxLoader.cs:55-56 | the pointer is no longer live; freeing a pointer that is not live is rejected |
| CudaPtx.CudaDriver.MemcpyDtoH | Bruteforce/CudaPtxLoader.cs:42-43 | on success the host array holds the word's four bytes, least significant first; on failure it keeps what it held |
| CudaPtx.VariantLoad | Bruteforce/CudaPtxLoader.cs:108-120 | no contract of its own: `cuModuleLoadData`, then `cuModuleGetFunction` on the module returned, each handle written only by a call that succeeded; `VariantLoadRuns` proves it a chain |
| CudaPtx.LoadModules | Bruteforce/CudaPtxLoader.cs:105-136 | no contract of its own: the aligned variant if its file exists, then the unaligned one if its file exists and nothing failed; `LoadModulesRuns` proves it a chain |
| CudaPtx.Initialization | Bruteforce/CudaPtxLoader.cs:78-103 | no contract of its own: init, device 0, a context on that device, then the modules, stopping at the first failure; `InitializationRuns` and `InitializationResolves` state its properties |
| CudaPtx.VariantLoadRuns | Bruteforce/CudaPtxLoader.cs:108-120 | loading a variant is the chain: load the module from the PTX bytes, then resolve `bruteforceBits` in the module returned |
| CudaPtx.LoadModulesRuns | Bruteforce/CudaPtxLoader.cs:105-136 | loading the modules is the chain of the aligned variant, if its file exists, followed by the unaligned one, if its file exists |
| CudaPtx.InitializationRuns | Bruteforce/CudaPtxLoader.cs:84-100 | initialization is the chain init(0) → device 0 → context on that device → modules; it stops at the first non-zero status and reports that step |
| CudaPtx.InitializationResolves | Bruteforce/CudaPtxLoader.cs:108-135 | after a completed initialization, each variant whose file exists has its function resolved by a successful `cuModuleGetFunction` on the module a successful `cuModuleLoadData` built from that file; the handles of a variant with no file are unchanged |
| CudaPtx.GridSize | Bruteforce/CudaPtxLoader.cs:179 | when `pieceSize*8+1023` fits in an `int`, the grid has the fewest blocks of 1024 threads that cover every bit of the piece |
| CudaPtx.GridSizeWraps | Bruteforce/CudaPtxLoader.cs:179 | the largest piece whose product fits, 268435328 bytes, gets the exact grid; one byte more wraps the 32-bit product, and the grid asked for exceeds `int.MaxValue` |
| CudaPtx.ExecutionEnds | Bruteforce/CudaPtxLoader.cs:167-191 | in a log that ends with an execution, the launch is of the given function with the piece size as third parameter, and the result is the word its copy-back read, or 0 |
| CudaPtx.OfChain | Bruteforce/CudaPtxLoader.cs:84-102 | initialization is ready exactly when its chain completed |
| CudaPtx.CudaPtxLoader.constructor | Bruteforce/CudaPtxLoader.cs:13-18 | the loader starts uninitialized with every handle `IntPtr.Zero` |
| CudaPtx.CudaPtxLoader.IsSupported | Bruteforce/CudaPtxLoader.cs:58-76 | true exactly when init(0) and device 0 both return 0; a missing driver gives false with no call; it creates no context, loads no module and allocates nothing |
| CudaPtx.CudaPtxLoader.LoadVariant | Bruteforce/CudaPtxLoader.cs:108-120 | the module and function handles and the log are those of the variant load; a handle changes only through a call that succeeded |
| CudaPtx.CudaPtxLoader.LoadPtxModules | Bruteforce/CudaPtxLoader.cs:105-136 | the handles and the log are those of the module loading; `initialized` is untouched |
| CudaPtx.CudaPtxLoader.Initialize | Bruteforce/CudaPtxLoader.cs:78-103 | no effect once initialized; a missing driver is reported with no call; otherwise the handles and log are those of the initialization chain, and `initialized` becomes true exactly when the chain completed |
| CudaPtx.CudaPtxLoader.ExecuteKernel | Bruteforce/CudaPtxLoader.cs:154-199 | exactly the ten calls allocate ×3, copy ×2, launch, copy back, free ×3; each pointer is non-null exactly when its allocation succeeded, and the non-null ones are new and distinct; the pinned parameters are released; the live allocations afterwards equal those before; the result is the word read back |
| CudaPtx.CudaPtxLoader.AllocateBuffers | Bruteforce/CudaPtxLoader.cs:157-160 | three allocations of the piece's, the hash's and 4 bytes; each pointer is non-null exactly when its call succeeded; exactly the non-null ones become live, and they are new and distinct |
| CudaPtx.CudaPtxLoader.Launch | Bruteforce/CudaPtxLoader.cs:163-186 | both copies, then one launch of the function with grid `GridSize`, blocks of 1024 and parameters data, hash, size, result, in that order, while a parameter handle is pinned |
| CudaPtx.CudaPtxLoader.ReadResult | Bruteforce/CudaPtxLoader.cs:188-193 | the result is the word copied back, or 0 when the copy failed; the pinned handle is released |
| CudaPtx.CudaPtxLoader.FreeBuffers | Bruteforce/CudaPtxLoader.cs:196-198 | the three pointers are freed and are no longer live |
| CudaPtx.CudaPtxLoader.BruteforceBitsAligned | Bruteforce/CudaPtxLoader.cs:138-144 | initializes if not yet initialized, so a failed earlier attempt is retried; a missing driver changes nothing; otherwise the outcome, handles and log are those of the initialization chain, or unchanged when already initialized; on failure `result` is untouched; when ready the log grows by exactly the ten execution calls on the aligned function and the word read back is returned; allocations balance |
| CudaPtx.CudaPtxLoader.BruteforceBitsUnaligned | Bruteforce/CudaPtxLoader.cs:146-152 | the same, with the ten execution calls on the unaligned function |
| RocmKernel.HexValue | RocmAlignedBitrotFinder/kernel.cpp:142 | a hex digit of either case has a value below 16 |
| RocmKernel.StrtoulPair | RocmAlignedBitrotFinder/kernel.cpp:141-142 | two hex digits of either case give `16*hi + lo`, and two non-digits give 0 |
| RocmKernel.DecodeHex | RocmAlignedBitrotFinder/kernel.cpp:136-143 | an even-length string decodes to half as many bytes |
| RocmKernel.DecodeHexAt | RocmAlignedBitrotFinder/kernel.cpp:140-143 | byte `i` is decoded from characters `2i` and `2i+1` |
| RocmKernel.EncodeHex | RocmAlignedBitrotFinder/kernel.cpp:129-146 | the partner encoding: two lower-case hex digits per byte |
| RocmKernel.DecodeEncode | RocmAlignedBitrotFinder/kernel.cpp:129-146 | decoding the hex text of any bytes gives those bytes back |
| RocmKernel.EncodeDecode | RocmAlignedBitrotFinder/kernel.cpp:129-146 | an even-length string of lower-case digits is the hex text of the bytes it decodes to |
| RocmKernel.HexStringToBytes | RocmAlignedBitrotFinder/kernel.cpp:129-146 | odd length gives null and leaves the length argument unchanged; even length L gives a new array of L/2 bytes, each decoded from its pair of characters |
| RocmKernel.ParseArguments | RocmAlignedBitrotFinder/kernel.cpp:150-161 | accepted exactly for two arguments whose hash argument is 40 characters long, that is, decodes to 20 bytes; odd lengths are rejected; the piece path and hash are the decoded arguments |
| RocmKernel.MidstateAbsorbs | RocmAlignedBitrotFinder/kernel.cpp:27-37 | midstate `k` is the initial context fed the first `k` chunks, in order |
| RocmKernel.MidstatePrefixOnly | RocmAlignedBitrotFinder/kernel.cpp:27-37 | midstate `k` depends only on the first `k` chunks, so a bit flipped beyond them does not change it |
| RocmKernel.ComputeMidstates | RocmAlignedBitrotFinder/kernel.cpp:27-37 | a new table of `pieceSize/CHUNK_SIZE + 1` contexts whose entry `k` is midstate `k`: entry 0 the initial context, entry `k+1` entry `k` updated with chunk `k` |
| RocmKernel.BlocksPerGrid | RocmAlignedBitrotFinder/kernel.cpp:95-96 | the fewest blocks of 1024 threads that give each whole `BATCH_SIZE` bytes of the piece its own thread, a count that fits in an `int` |
| RocmKernel.MidstatesBytes | RocmAlignedBitrotFinder/kernel.cpp:58 | the device midstate table holds one context per whole chunk and one more, so its allocation is never empty |
| RocmKernel.HipRuntime.Malloc | RocmAlignedBitrotFinder/kernel.cpp:46-68 | on success with a non-zero size a new pointer becomes live; a request for 0 bytes succeeds with a null pointer and allocates nothing; on failure the pointer stays null and nothing is allocated |
| RocmKernel.HipRuntime.MemcpyDtoH | RocmAlignedBitrotFinder/kernel.cpp:112 | the destination receives the device word only when the copy succeeds |
| RocmKernel.HipRuntime.Free | RocmAlignedBitrotFinder/kernel.cpp:119-122 | the pointer is no longer live; freeing null is accepted |
| RocmKernel.Allocation | RocmAlignedBitrotFinder/kernel.cpp:39-68 | no contract of its own: device 0, then the four allocations, stopping at the first failure; `AllocationRuns` and `AllocationBuffers` state its properties |
| RocmKernel.Copying | RocmAlignedBitrotFinder/kernel.cpp:70-93 | no contract of its own: the four copies to the device, stopping at the first failure; `CopyingRuns` proves it a chain |
| RocmKernel.Running | RocmAlignedBitrotFinder/kernel.cpp:95-116 | no contract of its own: the launch, `hipGetLastError`, synchronization and the copy back, the launch's status unchecked; `RunningRuns` and `RunResult` state its properties |
| RocmKernel.Run | RocmAlignedBitrotFinder/kernel.cpp:19-127 | no contract of its own: the three phases, each only after the one before completed, then the four frees; `RunIsChain`, `RunCompletes`, `RunResult` and `RunBuffers` state its properties |
| RocmKernel.AllocationRuns | RocmAlignedBitrotFinder/kernel.cpp:39-68 | selecting device 0 and the four allocations form a status-checked chain |
| RocmKernel.CopyingRuns | RocmAlignedBitrotFinder/kernel.cpp:70-93 | the four copies to the device form a status-checked chain |
| RocmKernel.RunningRuns | RocmAlignedBitrotFinder/kernel.cpp:95-116 | the launch, `hipGetLastError`, synchronization and the copy back form a chain in which the launch itself never stops it |
| RocmKernel.RunIsChain | RocmAlignedBitrotFinder/kernel.cpp:39-122 | a run is the whole status-checked plan cut off at its first failing step, followed on every path by the four frees at `Error:` |
| RocmKernel.RunOutcome | RocmAlignedBitrotFinder/kernel.cpp:39-116 | the run ends as its status-checked chain ends |
| RocmKernel.RunCompletes | RocmAlignedBitrotFinder/kernel.cpp:39-116 | the run completes exactly when every checked step returns `hipSuccess` |
| RocmKernel.RunResult | RocmAlignedBitrotFinder/kernel.cpp:112-116 | `*result` changes only when the run completed, and then to the word the final copy, the thirteenth call, read back |
| RocmKernel.CheckedFailure | RocmAlignedBitrotFinder/kernel.cpp:39-116 | a failed chain reports the first step that failed, with the status it returned; every step before it succeeded, and it is never the unchecked launch |
| RocmKernel.AllocationTaken | RocmAlignedBitrotFinder/kernel.cpp:39-68 | the allocation phase opens the whole chain: at least its steps ran, and exactly those when it failed |
| RocmKernel.AllocationBuffers | RocmAlignedBitrotFinder/kernel.cpp:21-68 | after allocation, pointer `i` is non-null exactly when its `hipMalloc` ran, succeeded and asked for a non-zero size, and it is then that call's allocation |
| RocmKernel.RunBuffers | RocmAlignedBitrotFinder/kernel.cpp:118-122 | the cleanup frees each of the four pointers, and a pointer is non-null exactly when its allocation ran, succeeded and asked for a non-zero size |
| RocmKernel.Allocate | RocmAlignedBitrotFinder/kernel.cpp:39-68 | the log, outcome and pointers are those of the allocation chain; exactly the non-null pointers become live, and none of them was live before |
| RocmKernel.CopyIn | RocmAlignedBitrotFinder/kernel.cpp:70-93 | the log and outcome are those of the copy chain; nothing is allocated |
| RocmKernel.RunKernel | RocmAlignedBitrotFinder/kernel.cpp:95-116 | the log, outcome and result are those of the kernel chain; nothing is allocated |
| RocmKernel.FreeAll | RocmAlignedBitrotFinder/kernel.cpp:118-122 | four frees, after which none of the pointers is live |
| RocmKernel.BruteforceBits | RocmAlignedBitrotFinder/kernel.cpp:19-127 | the calls made and the final `*result` are those of the run; the live device allocations afterwards equal those before, on success and on every failure path |

## Left out

- The CUDA driver, the HIP runtime, `LoadLibrary`/`dlopen`, `File.Exists`, `File.ReadAllBytes` and the native `bruteforceBits` are oracles. The model does not capture what they do inside: device memory contents, the kernel's search, or driver-side errors beyond the status returned.
- The device kernels (`bitFlipKernel`, the PTX modules) and SHA-1 itself (FIPS 180-4), which is in `sha1.hpp`. `sha1.hpp` is not part of this model, so `sha1_init`/`sha1_update` are parameters. `CHUNK_SIZE`, `BATCH_SIZE` and `sizeof(SHA1_CTX)` are positive parameters.
- `GetHash` and `IsEqual`: the Utility class is not part of this model. They are function parameters.
- Concurrency. The static initializers and `_initialized` have no lock, and the model covers sequential use only.
- Console and `fprintf` logging.
- `main`'s file reading, printing and `hipDeviceReset` (only the argument checks are modelled). The `argc < 2` check at kernel.cpp:163-166 cannot fail after the `argc != 3` check.
- `delete[] midstates` has no counterpart: the host table is a fresh array that nothing else refers to.
- `hexStringToBytes` reads characters up to the terminator. The model takes the string as the characters before it.
- The `GCHandle` pinning and parameter marshalling become one counter (`pinned`) that goes up and back down within a call.
- `File.ReadAllBytes` failing while `Initialize` reads a PTX file is not modelled. An existing file is read as its contents.
- The driver's out-parameters are assumed to be written only by a call that succeeds.
- `cuMemFree` of a live allocation and `hipFree` of a live allocation or null are assumed to succeed.
- The `_ => "Unknown"` arm of `GetGpuTypeDescription` is not modelled. `GpuType` here has only the three named values: the only values any caller passes come from `DetectGpuType`, which returns one of them, although a C# enum could hold any other `int`.
- CudaPtx.GridSize: the ceiling property is stated only for pieces where `pieceSize*8+1023` fits in an `int`. Above that the C# arithmetic wraps, as `GridSizeWraps` exhibits.
- RocmKernel.BruteforceBits: pieces are limited to `int.MaxValue` bytes, because the managed callers pass an `int` length. `main`'s larger files are not modelled.
- RocmKernel.BruteforceBits: the contents of the copies to the device are not tracked. A copy is a call with a destination and a size only, so nothing states that the device receives the piece data, the 20 bytes of `pieceHash`, or the midstate table that `ComputeMidstates` builds (it is proved correct on the host side only).
- CudaPtx.CudaDriver.MemAlloc: a request for 0 bytes, from an empty piece, is left to the status oracle. A status of 0 then yields a new live pointer, as for any other size.
- RocmKernel.BlocksPerGrid: a grid of 0 blocks, for pieces smaller than `BATCH_SIZE` bytes, is passed to the launch as it is. Its rejection shows up only as a status of `hipGetLastError`.
- CudaPtx.CudaPtxLoader.ExecuteKernel: the statuses of the allocations, copies and launch are ignored as in the source, so their effect on the device is not modelled beyond the allocation table.
