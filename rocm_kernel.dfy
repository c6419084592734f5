/** The host side of the HIP bit-flip search (RocmAlignedBitrotFinder/kernel.cpp):
    `hexStringToBytes` and `main`'s check of the expected hash; the SHA-1
    midstate table and the launch size that `bruteforceBits` computes; and
    `bruteforceBits` itself, a chain of status-checked HIP runtime calls that
    jumps to one cleanup label at the first failure, frees every device
    buffer there, and writes the caller's result only when every step
    succeeded. SHA-1 and the device kernel are not part of this model: the
    SHA-1 context update is a parameter, the word the kernel leaves in device
    memory an oracle of the runtime. */
module RocmKernel {
  import opened Interop
  import opened Steps

  const TWO_64: int := 0x1_0000_0000_0000_0000

  // ---------------------------------------------------------------------------
  // Hex decoding (`hexStringToBytes`)

  predicate IsHexDigit(c: char) {
    '0' <= c <= '9' || 'a' <= c <= 'f' || 'A' <= c <= 'F'
  }

  /** The characters `isspace` accepts in the "C" locale. */
  predicate IsSpace(c: char) {
    c == ' ' || c == '\t' || c == '\n' || c == '\U{B}' || c == '\U{C}' || c == '\r'
  }

  function HexValue(c: char): (v: nat)
    requires IsHexDigit(c)
    ensures v < 16
  {
    if '0' <= c <= '9' then c as int - '0' as int
    else if 'a' <= c <= 'f' then c as int - 'a' as int + 10
    else c as int - 'A' as int + 10
  }

  predicate IsLowerHexDigit(c: char) {
    '0' <= c <= '9' || 'a' <= c <= 'f'
  }

  /** The lower-case digit of a value below 16. */
  function HexDigit(v: nat): (c: char)
    requires v < 16
    ensures IsLowerHexDigit(c) && HexValue(c) == v
  {
    if v < 10 then ('0' as int + v) as char else ('a' as int + v - 10) as char
  }

  lemma HexDigitOfValue(c: char)
    requires IsLowerHexDigit(c)
    ensures HexDigit(HexValue(c)) == c
  {
  }

  /** `(unsigned char) strtoul(s, nullptr, 16)` of the two-character string
      `s = [hi, lo]`: white space and then one sign are skipped, the longest
      run of hex digits that follows is read (no digit reads as 0), a minus
      sign negates modulo 2^64, and the cast keeps the low 8 bits. */
  function StrtoulPair(hi: char, lo: char): (b: Byte)
    ensures IsHexDigit(hi) && IsHexDigit(lo) ==> b == 16 * HexValue(hi) + HexValue(lo)
    ensures !IsHexDigit(hi) && !IsHexDigit(lo) ==> b == 0
  {
    if IsHexDigit(hi) then
      if IsHexDigit(lo) then 16 * HexValue(hi) + HexValue(lo) else HexValue(hi)
    else if (IsSpace(hi) || hi == '+') && IsHexDigit(lo) then HexValue(lo)
    else if hi == '-' && IsHexDigit(lo) then (TWO_64 - HexValue(lo)) % TWO_64 % 256
    else 0
  }

  /** The bytes an even-length string decodes to, one per pair of characters. */
  function DecodeHex(s: string): (b: seq<Byte>)
    requires |s| % 2 == 0
    ensures |b| == |s| / 2
  {
    if s == [] then [] else [StrtoulPair(s[0], s[1])] + DecodeHex(s[2..])
  }

  /** Byte `i` comes from characters `2i` and `2i+1`. */
  lemma {:induction false} DecodeHexAt(s: string, i: nat)
    requires |s| % 2 == 0 && i < |s| / 2
    ensures DecodeHex(s)[i] == StrtoulPair(s[2 * i], s[2 * i + 1])
  {
    if i > 0 {
      DecodeHexAt(s[2..], i - 1);
    }
  }

  /** Two lower-case digits per byte, the high nibble first. */
  function EncodeHex(b: seq<Byte>): (s: string)
    ensures |s| == 2 * |b|
    ensures forall i :: 0 <= i < |s| ==> IsLowerHexDigit(s[i])
  {
    if b == [] then [] else [HexDigit(b[0] / 16), HexDigit(b[0] % 16)] + EncodeHex(b[1..])
  }

  /** Decoding the hex text of any bytes gives those bytes back. */
  lemma {:induction false} DecodeEncode(b: seq<Byte>)
    ensures DecodeHex(EncodeHex(b)) == b
  {
    if b != [] {
      var s := EncodeHex(b);
      assert s[2..] == EncodeHex(b[1..]);
      DecodeEncode(b[1..]);
    }
  }

  /** An even-length string of lower-case digits is the hex text of what it decodes to. */
  lemma {:induction false} EncodeDecode(s: string)
    requires |s| % 2 == 0 && forall i :: 0 <= i < |s| ==> IsLowerHexDigit(s[i])
    ensures EncodeHex(DecodeHex(s)) == s
  {
    if s != [] {
      HexDigitOfValue(s[0]);
      HexDigitOfValue(s[1]);
      var d := DecodeHex(s);
      assert d[0] / 16 == HexValue(s[0]) && d[0] % 16 == HexValue(s[1]);
      assert d[1..] == DecodeHex(s[2..]);
      EncodeDecode(s[2..]);
      assert s == [s[0], s[1]] + s[2..];
    }
  }

  /** `hexStringToBytes(hexStr, byteArrayLength)`: an odd-length string gives
      null and leaves `byteArrayLength` alone; otherwise a new array of half
      the length, filled pair by pair. `hexStr` is the string's characters
      up to its terminator. */
  method HexStringToBytes(hexStr: string, byteArrayLength: nat) returns (byteArray: array?<Byte>, lengthOut: nat)
    ensures |hexStr| % 2 != 0 ==> byteArray == null && lengthOut == byteArrayLength
    ensures |hexStr| % 2 == 0 ==>
      byteArray != null && fresh(byteArray) && lengthOut == |hexStr| / 2 && byteArray[..] == DecodeHex(hexStr)
  {
    var hexStrLength := |hexStr|;
    if hexStrLength % 2 != 0 {
      return null, byteArrayLength;
    }
    lengthOut := hexStrLength / 2;
    byteArray := new Byte[lengthOut];
    for i := 0 to lengthOut
      invariant forall j :: 0 <= j < i ==> byteArray[j] == DecodeHex(hexStr)[j]
    {
      byteArray[i] := StrtoulPair(hexStr[2 * i], hexStr[2 * i + 1]);
      DecodeHexAt(hexStr, i);
    }
  }

  const SHA1_SIZE: int := 20

  /** What `main` makes of its arguments before reading the piece: the piece
      path and the expected hash, or exit code 1. */
  datatype Arguments = Accepted(piecePath: string, expectedHash: seq<Byte>) | Rejected

  /** `main`'s argument checks: exactly two arguments, and a hash argument
      that decodes to exactly 20 bytes; an odd-length argument leaves the
      length at its initial 0 and is rejected too. */
  method ParseArguments(argv: seq<string>) returns (r: Arguments)
    ensures r.Accepted? <==> |argv| == 3 && |argv[2]| == 2 * SHA1_SIZE
    ensures r.Accepted? ==> r.piecePath == argv[1] && r.expectedHash == DecodeHex(argv[2])
  {
    if |argv| != 3 {
      return Rejected;
    }
    var byteArrayLength := 0;
    var pieceHash;
    pieceHash, byteArrayLength := HexStringToBytes(argv[2], byteArrayLength);
    if byteArrayLength != SHA1_SIZE {
      return Rejected;
    }
    return Accepted(argv[1], pieceHash[..]);
  }

  // ---------------------------------------------------------------------------
  // The midstate table

  /** The sizes that come from the SHA-1 header: the bytes a context absorbs
      per update (`CHUNK_SIZE`), the bytes of the piece given to each kernel
      thread (`BATCH_SIZE`), and `sizeof(SHA1_CTX)`. */
  datatype KernelConstants = KernelConstants(chunkSize: nat, batchSize: nat, ctxBytes: nat) {
    predicate Valid() {
      chunkSize > 0 && batchSize > 0 && ctxBytes > 0
    }
  }

  /** Chunk `k - 1` of a piece with at least `k` whole chunks lies inside it. */
  lemma ChunkBounds(k: nat, c: nat, n: nat)
    requires c > 0 && 0 < k <= n / c
    ensures 0 <= (k - 1) * c && (k - 1) * c + c == k * c <= n
  {
    var j := k - 1;
    assert k * c == j * c + c;
    assert (n / c) * c <= n;
    MulMono(k, n / c, c);
  }

  lemma MulMono(a: nat, b: nat, c: nat)
    requires a <= b
    ensures a * c <= b * c
  {
  }

  /** Chunk `i` of `data`: the bytes from `i * chunkSize` on, `chunkSize` of them. */
  function ChunkAt(data: seq<Byte>, chunkSize: nat, i: nat): (chunk: seq<Byte>)
    requires chunkSize > 0 && i < |data| / chunkSize
    ensures |chunk| == chunkSize
  {
    ChunkBounds(i + 1, chunkSize, |data|);
    data[i * chunkSize .. i * chunkSize + chunkSize]
  }

  /** Midstate `k`: the context after the first `k` chunks of `data`. */
  function Midstate<Ctx>(init: Ctx, update: (Ctx, seq<Byte>) -> Ctx, data: seq<Byte>, chunkSize: nat, k: nat): Ctx
    requires chunkSize > 0 && k <= |data| / chunkSize
  {
    if k == 0 then init
    else update(Midstate(init, update, data, chunkSize, k - 1), ChunkAt(data, chunkSize, k - 1))
  }

  /** The first `k` chunks of `data`, in order. */
  function Chunks(data: seq<Byte>, chunkSize: nat, k: nat): (cs: seq<seq<Byte>>)
    requires chunkSize > 0 && k <= |data| / chunkSize
    ensures |cs| == k
  {
    if k == 0 then [] else Chunks(data, chunkSize, k - 1) + [ChunkAt(data, chunkSize, k - 1)]
  }

  /** Hashing a sequence of chunks, the first one first. */
  function Absorb<Ctx>(ctx: Ctx, update: (Ctx, seq<Byte>) -> Ctx, chunks: seq<seq<Byte>>): Ctx {
    if chunks == [] then ctx else Absorb(update(ctx, chunks[0]), update, chunks[1..])
  }

  lemma {:induction false} AbsorbAppend<Ctx>(ctx: Ctx, update: (Ctx, seq<Byte>) -> Ctx, chunks: seq<seq<Byte>>, x: seq<Byte>)
    ensures Absorb(ctx, update, chunks + [x]) == update(Absorb(ctx, update, chunks), x)
  {
    if chunks != [] {
      assert (chunks + [x])[1..] == chunks[1..] + [x];
      AbsorbAppend(update(ctx, chunks[0]), update, chunks[1..], x);
    }
  }

  /** Midstate `k` is the initial context fed the first `k` chunks. */
  lemma {:induction false} MidstateAbsorbs<Ctx>(init: Ctx, update: (Ctx, seq<Byte>) -> Ctx, data: seq<Byte>, chunkSize: nat, k: nat)
    requires chunkSize > 0 && k <= |data| / chunkSize
    ensures Midstate(init, update, data, chunkSize, k) == Absorb(init, update, Chunks(data, chunkSize, k))
  {
    if k > 0 {
      MidstateAbsorbs(init, update, data, chunkSize, k - 1);
      AbsorbAppend(init, update, Chunks(data, chunkSize, k - 1), ChunkAt(data, chunkSize, k - 1));
    }
  }

  /** Midstate `k` depends only on the first `k` chunks: a bit flipped past
      them leaves it as it was. */
  lemma {:induction false} MidstatePrefixOnly<Ctx>(init: Ctx, update: (Ctx, seq<Byte>) -> Ctx, data: seq<Byte>,
                                                   other: seq<Byte>, chunkSize: nat, k: nat)
    requires chunkSize > 0 && k <= |data| / chunkSize && k <= |other| / chunkSize
    requires k * chunkSize <= |data| && k * chunkSize <= |other| && data[..k * chunkSize] == other[..k * chunkSize]
    ensures Midstate(init, update, data, chunkSize, k) == Midstate(init, update, other, chunkSize, k)
  {
    if k > 0 {
      ChunkBounds(k, chunkSize, |data|);
      var lo, hi := (k - 1) * chunkSize, k * chunkSize;
      assert data[..lo] == data[..hi][..lo] && other[..lo] == other[..hi][..lo];
      assert data[lo..hi] == data[..hi][lo..] && other[lo..hi] == other[..hi][lo..];
      MidstatePrefixOnly(init, update, data, other, chunkSize, k - 1);
    }
  }

  /** Midstates 0 to `k`, in order. */
  function MidstateTable<Ctx>(init: Ctx, update: (Ctx, seq<Byte>) -> Ctx, data: seq<Byte>, chunkSize: nat, k: nat)
    : (table: seq<Ctx>)
    requires chunkSize > 0 && k <= |data| / chunkSize
    ensures |table| == k + 1
  {
    if k == 0 then [init] else MidstateTable(init, update, data, chunkSize, k - 1) + [Midstate(init, update, data, chunkSize, k)]
  }

  lemma {:induction false} MidstateTableAt<Ctx>(init: Ctx, update: (Ctx, seq<Byte>) -> Ctx, data: seq<Byte>, chunkSize: nat, k: nat, j: nat)
    requires chunkSize > 0 && k <= |data| / chunkSize && j <= k
    ensures MidstateTable(init, update, data, chunkSize, k)[j] == Midstate(init, update, data, chunkSize, j)
  {
    if j < k {
      MidstateTableAt(init, update, data, chunkSize, k - 1, j);
    }
  }

  /** The midstate loop of `bruteforceBits`: `pieceSize / chunkSize + 1`
      contexts, entry 0 the initial one, entry `i + 1` entry `i` updated
      with chunk `i`. */
  method ComputeMidstates<Ctx>(init: Ctx, update: (Ctx, seq<Byte>) -> Ctx, pieceData: seq<Byte>, pieceSize: nat, chunkSize: nat)
    returns (midstates: array<Ctx>)
    requires chunkSize > 0 && pieceSize == |pieceData|
    ensures fresh(midstates) && midstates.Length == pieceSize / chunkSize + 1
    ensures forall k :: 0 <= k < midstates.Length ==> midstates[k] == Midstate(init, update, pieceData, chunkSize, k)
  {
    var midstatesLength := pieceSize / chunkSize;
    var ctx := init;
    midstates := new Ctx[midstatesLength + 1](_ => init);
    midstates[0] := ctx;
    for i := 0 to midstatesLength
      invariant ctx == Midstate(init, update, pieceData, chunkSize, i)
      invariant midstates[..i + 1] == MidstateTable(init, update, pieceData, chunkSize, i)
    {
      ChunkBounds(i + 1, chunkSize, pieceSize);
      ctx := update(ctx, pieceData[i * chunkSize .. i * chunkSize + chunkSize]);
      assert ctx == update(Midstate(init, update, pieceData, chunkSize, i), ChunkAt(pieceData, chunkSize, i));
      ghost var before := midstates[..i + 1];
      midstates[i + 1] := ctx;
      assert midstates[..i + 2] == before + [ctx];
    }
    forall k | 0 <= k < midstates.Length
      ensures midstates[k] == Midstate(init, update, pieceData, chunkSize, k)
    {
      assert midstates[k] == midstates[..midstatesLength + 1][k];
      MidstateTableAt(init, update, pieceData, chunkSize, midstatesLength, k);
    }
  }

  // ---------------------------------------------------------------------------
  // The launch size

  const THREADS_PER_BLOCK: int := 1024

  /** `blocksPerGrid`: enough blocks of 1024 threads for one thread per
      whole `batchSize` bytes of the piece, and no more. */
  function BlocksPerGrid(pieceSize: nat, batchSize: nat): (g: nat)
    requires batchSize > 0 && pieceSize <= INT32_MAX
    ensures g * THREADS_PER_BLOCK >= pieceSize / batchSize
    ensures g == 0 || (g - 1) * THREADS_PER_BLOCK < pieceSize / batchSize
    ensures g <= INT32_MAX
  {
    (pieceSize / batchSize + THREADS_PER_BLOCK - 1) / THREADS_PER_BLOCK
  }

  // ---------------------------------------------------------------------------
  // The HIP runtime

  /** A device pointer; 0 is `nullptr`. */
  type DevicePtr = int

  const HIP_ERROR_INVALID_VALUE: int := 1
  const RESULT_SIZE: int := 4

  /** The runtime calls `bruteforceBits` makes, with the arguments that matter. */
  datatype HipCall =
    | HipSetDevice(deviceId: int)
    | HipMalloc(size: int)
    | HipMemcpyHtoD(dst: DevicePtr, sizeBytes: int)
    | HipMemcpyDtoH(src: DevicePtr, sizeBytes: int)
    | HipLaunchKernel(blocksPerGrid: int, threadsPerBlock: int, pieceData: DevicePtr, pieceHash: DevicePtr,
                      midstates: DevicePtr, pieceSize: int, result: DevicePtr)
    | HipGetLastError
    | HipDeviceSynchronize
    | HipFree(ptr: DevicePtr)

  class HipRuntime {
    /** `status(c, t)`: the status (0 is `hipSuccess`) call `c` returns when
        `t` calls were made before it. */
    const status: (HipCall, nat) -> int
    /** The word a device-to-host copy finds in device memory. */
    const word: (HipCall, nat) -> UInt32
    /** Device allocations not yet freed. */
    var live: set<DevicePtr>
    var next: DevicePtr
    var log: seq<HipCall>

    constructor (status: (HipCall, nat) -> int, word: (HipCall, nat) -> UInt32)
      ensures this.status == status && this.word == word
      ensures Valid() && live == {} && log == []
    {
      this.status := status;
      this.word := word;
      live := {};
      next := 1;
      log := [];
    }

    ghost predicate Valid()
      reads this
    {
      0 < next && forall p :: p in live ==> 0 < p < next
    }

    /** A call whose only effect is its status. */
    method Call(c: HipCall) returns (st: int)
      requires Valid()
      requires c.HipSetDevice? || c.HipMemcpyHtoD? || c.HipGetLastError? || c.HipDeviceSynchronize?
      modifies this
      ensures Valid() && live == old(live) && next == old(next)
      ensures log == old(log) + [c] && st == status(c, |old(log)|)
    {
      st := status(c, |log|);
      log := log + [c];
    }

    /** `hipLaunchKernelGGL` returns nothing: a launch error shows up in the
        next `hipGetLastError`. */
    method Launch(c: HipCall)
      requires Valid() && c.HipLaunchKernel?
      modifies this
      ensures Valid() && live == old(live) && next == old(next) && log == old(log) + [c]
    {
      log := log + [c];
    }

    /** `hipMalloc`: on success a new allocation, except that a request for
        0 bytes succeeds with a null pointer and allocates nothing; on
        failure the pointer stays null. */
    method Malloc(size: int) returns (st: int, ptr: DevicePtr)
      requires Valid()
      modifies this
      ensures Valid() && log == old(log) + [HipMalloc(size)]
      ensures st == status(HipMalloc(size), |old(log)|)
      ensures ptr == if st == 0 && size != 0 then old(next) else 0
      ensures live == (if ptr == 0 then old(live) else old(live) + {ptr})
      ensures next == (if ptr == 0 then old(next) else old(next) + 1)
    {
      st := status(HipMalloc(size), |log|);
      log := log + [HipMalloc(size)];
      if st == 0 && size != 0 {
        ptr := next;
        live := live + {ptr};
        next := next + 1;
      } else {
        ptr := 0;
      }
    }

    /** `hipMemcpy` of one word to the host: on success the destination
        receives the word, otherwise it keeps its value. */
    method MemcpyDtoH(dst: UInt32, src: DevicePtr, sizeBytes: int) returns (st: int, dstOut: UInt32)
      requires Valid()
      modifies this
      ensures Valid() && live == old(live) && next == old(next)
      ensures log == old(log) + [HipMemcpyDtoH(src, sizeBytes)]
      ensures st == status(HipMemcpyDtoH(src, sizeBytes), |old(log)|)
      ensures dstOut == if st == 0 then word(HipMemcpyDtoH(src, sizeBytes), |old(log)|) else dst
    {
      st := status(HipMemcpyDtoH(src, sizeBytes), |log|);
      dstOut := if st == 0 then word(HipMemcpyDtoH(src, sizeBytes), |log|) else dst;
      log := log + [HipMemcpyDtoH(src, sizeBytes)];
    }

    /** `hipFree`: a live allocation is released, null is accepted and
        ignored, anything else is rejected. */
    method Free(ptr: DevicePtr) returns (st: int)
      requires Valid()
      modifies this
      ensures Valid() && log == old(log) + [HipFree(ptr)] && next == old(next)
      ensures live == old(live) - {ptr}
      ensures st == if ptr == 0 || ptr in old(live) then 0 else HIP_ERROR_INVALID_VALUE
    {
      st := if ptr == 0 || ptr in live then 0 else HIP_ERROR_INVALID_VALUE;
      live := live - {ptr};
      log := log + [HipFree(ptr)];
    }
  }

  // ---------------------------------------------------------------------------
  // `bruteforceBits`

  /** The four device pointers, null until allocated. */
  datatype Buffers = Buffers(pieceData: DevicePtr, pieceHash: DevicePtr, midstates: DevicePtr, result: DevicePtr)

  function BufferSet(b: Buffers): set<DevicePtr> {
    {b.pieceData, b.pieceHash, b.midstates, b.result} - {0}
  }

  /** The bytes of the midstate table: one context for each whole chunk and
      one more, so never an empty allocation. */
  function MidstatesBytes(k: KernelConstants, pieceSize: nat): (n: nat)
    requires k.Valid()
    ensures n >= k.ctxBytes > 0
  {
    var q := pieceSize / k.chunkSize;
    assert (q + 1) * k.ctxBytes == q * k.ctxBytes + k.ctxBytes;
    (q + 1) * k.ctxBytes
  }

  /** How the status-checked chain of `bruteforceBits` sees a status: the
      launch itself reports nothing. */
  function Checked(status: (HipCall, nat) -> int): (HipCall, nat) -> int {
    (c: HipCall, t: nat) => if c.HipLaunchKernel? then 0 else status(c, t)
  }

  function AllocationPlan(k: KernelConstants, pieceSize: nat): seq<HipCall>
    requires k.Valid()
  {
    [HipSetDevice(0), HipMalloc(pieceSize), HipMalloc(SHA1_SIZE), HipMalloc(MidstatesBytes(k, pieceSize)), HipMalloc(RESULT_SIZE)]
  }

  function CopyPlan(b: Buffers, k: KernelConstants, pieceSize: nat): seq<HipCall>
    requires k.Valid()
  {
    [ HipMemcpyHtoD(b.pieceData, pieceSize), HipMemcpyHtoD(b.pieceHash, SHA1_SIZE),
      HipMemcpyHtoD(b.midstates, MidstatesBytes(k, pieceSize)), HipMemcpyHtoD(b.result, RESULT_SIZE) ]
  }

  function KernelPlan(b: Buffers, k: KernelConstants, pieceSize: nat): seq<HipCall>
    requires k.Valid() && pieceSize <= INT32_MAX
  {
    [ HipLaunchKernel(BlocksPerGrid(pieceSize, k.batchSize), THREADS_PER_BLOCK,
                      b.pieceData, b.pieceHash, b.midstates, pieceSize, b.result),
      HipGetLastError, HipDeviceSynchronize, HipMemcpyDtoH(b.result, RESULT_SIZE) ]
  }

  /** The cleanup at `Error:`, whatever was allocated. */
  function FreePlan(b: Buffers): seq<HipCall> {
    [HipFree(b.pieceData), HipFree(b.pieceHash), HipFree(b.midstates), HipFree(b.result)]
  }

  /** The buffers the four allocations return when all succeed and the
      runtime's next pointer is `next`: an empty piece gets a null pointer
      and the others move up by one. */
  function Allocated(next: DevicePtr, pieceSize: nat): Buffers {
    var d := if pieceSize == 0 then 0 else 1;
    Buffers(if pieceSize == 0 then 0 else next, next + d, next + d + 1, next + d + 2)
  }

  /** Every status-checked step of `bruteforceBits`, in order. */
  function BruteforcePlan(k: KernelConstants, pieceSize: nat, next: DevicePtr): seq<HipCall>
    requires k.Valid() && pieceSize <= INT32_MAX
  {
    AllocationPlan(k, pieceSize) + (CopyPlan(Allocated(next, pieceSize), k, pieceSize) + KernelPlan(Allocated(next, pieceSize), k, pieceSize))
  }

  /** Where a phase of the chain leaves things: how it ended and the log. */
  datatype Phase = Phase(o: Stop<HipCall>, log: seq<HipCall>)

  /** Selecting device 0 and the four allocations, after the calls in `log`. */
  function Allocation(status: (HipCall, nat) -> int, log: seq<HipCall>, next: DevicePtr, k: KernelConstants, pieceSize: nat)
    : (Phase, Buffers)
    requires k.Valid()
  {
    var t := |log|;
    var p := AllocationPlan(k, pieceSize);
    var a := Allocated(next, pieceSize);
    if status(p[0], t) != 0 then (Phase(FailedAt(p[0], status(p[0], t)), log + [p[0]]), Buffers(0, 0, 0, 0))
    else if status(p[1], t + 1) != 0 then (Phase(FailedAt(p[1], status(p[1], t + 1)), log + p[..2]), Buffers(0, 0, 0, 0))
    else if status(p[2], t + 2) != 0 then (Phase(FailedAt(p[2], status(p[2], t + 2)), log + p[..3]), Buffers(a.pieceData, 0, 0, 0))
    else if status(p[3], t + 3) != 0 then (Phase(FailedAt(p[3], status(p[3], t + 3)), log + p[..4]), Buffers(a.pieceData, a.pieceHash, 0, 0))
    else if status(p[4], t + 4) != 0 then (Phase(FailedAt(p[4], status(p[4], t + 4)), log + p), Buffers(a.pieceData, a.pieceHash, a.midstates, 0))
    else (Phase(Completed, log + p), Allocated(next, pieceSize))
  }

  /** The four copies to the device, after the calls in `log`. */
  function Copying(status: (HipCall, nat) -> int, log: seq<HipCall>, b: Buffers, k: KernelConstants, pieceSize: nat): Phase
    requires k.Valid()
  {
    var t := |log|;
    var p := CopyPlan(b, k, pieceSize);
    if status(p[0], t) != 0 then Phase(FailedAt(p[0], status(p[0], t)), log + [p[0]])
    else if status(p[1], t + 1) != 0 then Phase(FailedAt(p[1], status(p[1], t + 1)), log + p[..2])
    else if status(p[2], t + 2) != 0 then Phase(FailedAt(p[2], status(p[2], t + 2)), log + p[..3])
    else if status(p[3], t + 3) != 0 then Phase(FailedAt(p[3], status(p[3], t + 3)), log + p)
    else Phase(Completed, log + p)
  }

  /** The launch, its two checks and the copy of the result back, after the
      calls in `log`; the caller's `result` is overwritten only by a copy
      that succeeds. */
  function Running(status: (HipCall, nat) -> int, word: (HipCall, nat) -> UInt32, log: seq<HipCall>, b: Buffers,
                   k: KernelConstants, pieceSize: nat, result: UInt32): (Phase, UInt32)
    requires k.Valid() && pieceSize <= INT32_MAX
  {
    var t := |log|;
    var p := KernelPlan(b, k, pieceSize);
    if status(p[1], t + 1) != 0 then (Phase(FailedAt(p[1], status(p[1], t + 1)), log + p[..2]), result)
    else if status(p[2], t + 2) != 0 then (Phase(FailedAt(p[2], status(p[2], t + 2)), log + p[..3]), result)
    else if status(p[3], t + 3) != 0 then (Phase(FailedAt(p[3], status(p[3], t + 3)), log + p), result)
    else (Phase(Completed, log + p), word(p[3], t + 3))
  }

  /** A run of `bruteforceBits`: how the chain ended, the buffers, the log
      afterwards and the value left in `*result`. */
  datatype HipRun = HipRun(o: Stop<HipCall>, buffers: Buffers, log: seq<HipCall>, result: UInt32)

  /** `bruteforceBits` after the calls in `log`: the phases in order, each
      only if the one before completed, then the cleanup, always. */
  function Run(status: (HipCall, nat) -> int, word: (HipCall, nat) -> UInt32, log: seq<HipCall>, next: DevicePtr,
               k: KernelConstants, pieceSize: nat, result: UInt32): HipRun
    requires k.Valid() && pieceSize <= INT32_MAX
  {
    var (a, b) := Allocation(status, log, next, k, pieceSize);
    var (p, r) :=
      if a.o != Completed then (a, result)
      else
        var c := Copying(status, a.log, b, k, pieceSize);
        if c.o != Completed then (c, result) else Running(status, word, c.log, b, k, pieceSize, result);
    HipRun(p.o, b, p.log + FreePlan(b), r)
  }

  // ---------------------------------------------------------------------------
  // What a run means

  /** Selecting the device and allocating is the chain of `AllocationPlan`. */
  lemma AllocationRuns(status: (HipCall, nat) -> int, log: seq<HipCall>, next: DevicePtr, k: KernelConstants, pieceSize: nat)
    requires k.Valid()
    ensures var (a, b) := Allocation(status, log, next, k, pieceSize);
      RanChain(Checked(status), log, a.log, AllocationPlan(k, pieceSize), a.o)
  {
    var p, s, t := AllocationPlan(k, pieceSize), Checked(status), |log|;
    assert p[1..][1..][1..][1..][1..] == [];
    var o5, n5 := Outcome(s, p[1..][1..][1..][1..][1..], t + 5), Taken(s, p[1..][1..][1..][1..][1..], t + 5);
    var o4, n4 := Outcome(s, p[1..][1..][1..][1..], t + 4), Taken(s, p[1..][1..][1..][1..], t + 4);
    var o3, n3 := Outcome(s, p[1..][1..][1..], t + 3), Taken(s, p[1..][1..][1..], t + 3);
    var o2, n2 := Outcome(s, p[1..][1..], t + 2), Taken(s, p[1..][1..], t + 2);
    var o1, n1 := Outcome(s, p[1..], t + 1), Taken(s, p[1..], t + 1);
    assert p[..1] == [p[0]] && p[..5] == p;
  }

  /** The copies are the chain of `CopyPlan`. */
  lemma CopyingRuns(status: (HipCall, nat) -> int, log: seq<HipCall>, b: Buffers, k: KernelConstants, pieceSize: nat)
    requires k.Valid()
    ensures var c := Copying(status, log, b, k, pieceSize);
      RanChain(Checked(status), log, c.log, CopyPlan(b, k, pieceSize), c.o)
  {
    var p, s, t := CopyPlan(b, k, pieceSize), Checked(status), |log|;
    assert p[1..][1..][1..][1..] == [];
    var o4, n4 := Outcome(s, p[1..][1..][1..][1..], t + 4), Taken(s, p[1..][1..][1..][1..], t + 4);
    var o3, n3 := Outcome(s, p[1..][1..][1..], t + 3), Taken(s, p[1..][1..][1..], t + 3);
    var o2, n2 := Outcome(s, p[1..][1..], t + 2), Taken(s, p[1..][1..], t + 2);
    var o1, n1 := Outcome(s, p[1..], t + 1), Taken(s, p[1..], t + 1);
    assert p[..1] == [p[0]] && p[..4] == p;
  }

  /** The launch and what follows it are the chain of `KernelPlan`, in
      which the launch never fails. */
  lemma RunningRuns(status: (HipCall, nat) -> int, word: (HipCall, nat) -> UInt32, log: seq<HipCall>, b: Buffers,
                    k: KernelConstants, pieceSize: nat, result: UInt32)
    requires k.Valid() && pieceSize <= INT32_MAX
    ensures var (r, _) := Running(status, word, log, b, k, pieceSize, result);
      RanChain(Checked(status), log, r.log, KernelPlan(b, k, pieceSize), r.o)
  {
    var p, s, t := KernelPlan(b, k, pieceSize), Checked(status), |log|;
    assert p[1..][1..][1..][1..] == [];
    var o4, n4 := Outcome(s, p[1..][1..][1..][1..], t + 4), Taken(s, p[1..][1..][1..][1..], t + 4);
    var o3, n3 := Outcome(s, p[1..][1..][1..], t + 3), Taken(s, p[1..][1..][1..], t + 3);
    var o2, n2 := Outcome(s, p[1..][1..], t + 2), Taken(s, p[1..][1..], t + 2);
    var o1, n1 := Outcome(s, p[1..], t + 1), Taken(s, p[1..], t + 1);
    assert s(p[0], t) == 0;
    assert p[..4] == p;
  }

  /** A run of `bruteforceBits` is the chain of `BruteforcePlan` stopped at
      its first failing step, followed by the four frees of the cleanup:
      no step after a failure runs, and the cleanup runs on every path. */
  lemma {:induction false} RunIsChain(status: (HipCall, nat) -> int, word: (HipCall, nat) -> UInt32, log: seq<HipCall>,
                                      next: DevicePtr, k: KernelConstants, pieceSize: nat, result: UInt32)
    requires k.Valid() && pieceSize <= INT32_MAX
    ensures var run := Run(status, word, log, next, k, pieceSize, result);
      var plan := BruteforcePlan(k, pieceSize, next);
      && run.o == Outcome(Checked(status), plan, |log|)
      && run.log == log + plan[..Taken(Checked(status), plan, |log|)] + FreePlan(run.buffers)
  {
    var s := Checked(status);
    var run := Run(status, word, log, next, k, pieceSize, result);
    var (a, b) := Allocation(status, log, next, k, pieceSize);
    var plan := BruteforcePlan(k, pieceSize, next);
    var A, C, K := AllocationPlan(k, pieceSize), CopyPlan(Allocated(next, pieceSize), k, pieceSize), KernelPlan(Allocated(next, pieceSize), k, pieceSize);
    AllocationRuns(status, log, next, k, pieceSize);
    if a.o != Completed {
      ChainStop(s, log, a.log, A, C + K, a.o);
    } else {
      var c := Copying(status, a.log, b, k, pieceSize);
      CopyingRuns(status, a.log, b, k, pieceSize);
      var end := run.log[..|run.log| - 4];
      if c.o != Completed {
        ChainStop(s, a.log, c.log, C, K, c.o);
        assert end == c.log;
      } else {
        var (r, _) := Running(status, word, c.log, b, k, pieceSize, result);
        RunningRuns(status, word, c.log, b, k, pieceSize, result);
        ChainThen(s, a.log, c.log, r.log, C, K, r.o);
        assert end == r.log;
      }
      ChainThen(s, log, a.log, end, A, C + K, run.o);
    }
  }

  /** How the run ends is how its chain ends. */
  lemma RunOutcome(status: (HipCall, nat) -> int, word: (HipCall, nat) -> UInt32, log: seq<HipCall>,
                   next: DevicePtr, k: KernelConstants, pieceSize: nat, result: UInt32)
    requires k.Valid() && pieceSize <= INT32_MAX
    ensures Run(status, word, log, next, k, pieceSize, result).o == Outcome(Checked(status), BruteforcePlan(k, pieceSize, next), |log|)
  {
    RunIsChain(status, word, log, next, k, pieceSize, result);
  }

  /** The run completes exactly when every checked step returns `hipSuccess`. */
  lemma RunCompletes(status: (HipCall, nat) -> int, word: (HipCall, nat) -> UInt32, log: seq<HipCall>,
                     next: DevicePtr, k: KernelConstants, pieceSize: nat, result: UInt32)
    requires k.Valid() && pieceSize <= INT32_MAX
    ensures var plan := BruteforcePlan(k, pieceSize, next);
      Run(status, word, log, next, k, pieceSize, result).o == Completed <==>
        forall i :: 0 <= i < |plan| ==> Checked(status)(plan[i], |log| + i) == 0
  {
    RunIsChain(status, word, log, next, k, pieceSize, result);
    CompletedIffAllSucceed(Checked(status), BruteforcePlan(k, pieceSize, next), |log|);
  }

  /** `*result` changes only when the run completed, and then it holds the
      word the final copy read back, the thirteenth call of the run. */
  lemma RunResult(status: (HipCall, nat) -> int, word: (HipCall, nat) -> UInt32, log: seq<HipCall>,
                  next: DevicePtr, k: KernelConstants, pieceSize: nat, result: UInt32)
    requires k.Valid() && pieceSize <= INT32_MAX
    ensures var run := Run(status, word, log, next, k, pieceSize, result);
      run.result == if run.o == Completed then word(HipMemcpyDtoH(Allocated(next, pieceSize).result, RESULT_SIZE), |log| + 12) else result
  {
    var (a, b) := Allocation(status, log, next, k, pieceSize);
    if a.o == Completed {
      assert b == Allocated(next, pieceSize) && |a.log| == |log| + 5;
      var c := Copying(status, a.log, b, k, pieceSize);
      if c.o == Completed {
        assert |c.log| == |log| + 9;
        assert KernelPlan(b, k, pieceSize)[3] == HipMemcpyDtoH(b.result, RESULT_SIZE);
      }
    }
  }

  /** A failed chain of `Checked(status)` stops at its `n`-th step, which
      returned that status and is not the unchecked launch, after `n - 1`
      steps that succeeded. */
  lemma CheckedFailure(status: (HipCall, nat) -> int, plan: seq<HipCall>, t: nat, o: Stop<HipCall>)
    requires o == Outcome(Checked(status), plan, t) && o != Completed
    ensures var n := Taken(Checked(status), plan, t);
      && 0 < n && !plan[n - 1].HipLaunchKernel?
      && o == FailedAt(plan[n - 1], status(plan[n - 1], t + n - 1))
      && forall i :: 0 <= i < n - 1 ==> Checked(status)(plan[i], t + i) == 0
  {
    var n := Taken(Checked(status), plan, t);
    var c := plan[n - 1];
    var st := Checked(status)(c, t + n - 1);
    assert o == FailedAt(c, st) && st != 0;
    assert !c.HipLaunchKernel? && st == status(c, t + n - 1);
    TakenPrefixSucceeds(Checked(status), plan, t);
  }

  function BufferAt(b: Buffers, i: nat): DevicePtr
    requires i < 4
  {
    [b.pieceData, b.pieceHash, b.midstates, b.result][i]
  }

  /** After the allocation phase, pointer `i` is non-null exactly when its
      `hipMalloc` (step `i + 1`) ran, succeeded and asked for a non-zero
      size (only the piece's can be empty), and it is then the pointer that
      call allocated. */
  lemma AllocationBuffers(status: (HipCall, nat) -> int, log: seq<HipCall>, next: DevicePtr, k: KernelConstants,
                          pieceSize: nat, i: nat)
    requires 0 < next && k.Valid() && i < 4
    ensures var (a, b) := Allocation(status, log, next, k, pieceSize);
      var ran := |a.log| - |log|;
      && (a.o == Completed ==> ran == 5)
      && (BufferAt(b, i) != 0 <==>
            i + 1 < ran && status(AllocationPlan(k, pieceSize)[i + 1], |log| + i + 1) == 0 && (i != 0 || pieceSize != 0))
      && (BufferAt(b, i) != 0 ==> BufferAt(b, i) == BufferAt(Allocated(next, pieceSize), i))
  {
    var p, t, A := AllocationPlan(k, pieceSize), |log|, Allocated(next, pieceSize);
    var (a, b) := Allocation(status, log, next, k, pieceSize);
    var ran := |a.log| - t;
    if status(p[0], t) != 0 {
      assert ran == 1 && b == Buffers(0, 0, 0, 0);
    } else if status(p[1], t + 1) != 0 {
      assert ran == 2 && b == Buffers(0, 0, 0, 0);
    } else if status(p[2], t + 2) != 0 {
      assert ran == 3 && b == Buffers(A.pieceData, 0, 0, 0);
    } else if status(p[3], t + 3) != 0 {
      assert ran == 4 && b == Buffers(A.pieceData, A.pieceHash, 0, 0);
    } else if status(p[4], t + 4) != 0 {
      assert ran == 5 && b == Buffers(A.pieceData, A.pieceHash, A.midstates, 0);
    } else {
      assert ran == 5 && b == Allocated(next, pieceSize);
    }
  }

  /** The allocation phase is where the whole chain starts: at least its
      steps ran, and exactly those when it failed. */
  lemma AllocationTaken(status: (HipCall, nat) -> int, log: seq<HipCall>, next: DevicePtr, k: KernelConstants,
                        pieceSize: nat)
    requires k.Valid() && pieceSize <= INT32_MAX
    ensures var (a, _) := Allocation(status, log, next, k, pieceSize);
      var taken := Taken(Checked(status), BruteforcePlan(k, pieceSize, next), |log|);
      && |a.log| - |log| <= taken
      && (a.o != Completed ==> taken == |a.log| - |log|)
  {
    var A := AllocationPlan(k, pieceSize);
    var rest := CopyPlan(Allocated(next, pieceSize), k, pieceSize) + KernelPlan(Allocated(next, pieceSize), k, pieceSize);
    AllocationRuns(status, log, next, k, pieceSize);
    OutcomeAppend(Checked(status), A, rest, |log|);
  }

  /** Device pointer `i` is non-null exactly when its `hipMalloc` ran,
      succeeded and asked for a non-zero size, and then it is the allocation
      that call made; the cleanup frees each of them. */
  lemma RunBuffers(status: (HipCall, nat) -> int, word: (HipCall, nat) -> UInt32, log: seq<HipCall>,
                   next: DevicePtr, k: KernelConstants, pieceSize: nat, result: UInt32, i: nat)
    requires 0 < next && k.Valid() && pieceSize <= INT32_MAX && i < 4
    ensures var run := Run(status, word, log, next, k, pieceSize, result);
      var plan := BruteforcePlan(k, pieceSize, next);
      var taken := Taken(Checked(status), plan, |log|);
      && (BufferAt(run.buffers, i) != 0 <==>
            i + 1 < taken && status(plan[i + 1], |log| + i + 1) == 0 && (i != 0 || pieceSize != 0))
      && (BufferAt(run.buffers, i) != 0 ==> BufferAt(run.buffers, i) == BufferAt(Allocated(next, pieceSize), i))
      && run.log[|run.log| - 4 + i] == HipFree(BufferAt(run.buffers, i))
  {
    AllocationBuffers(status, log, next, k, pieceSize, i);
    AllocationTaken(status, log, next, k, pieceSize);
    var run := Run(status, word, log, next, k, pieceSize, result);
    var plan := BruteforcePlan(k, pieceSize, next);
    var (a, b) := Allocation(status, log, next, k, pieceSize);
    assert run.buffers == b;
    assert plan[i + 1] == AllocationPlan(k, pieceSize)[i + 1];
    var before := run.log[..|run.log| - 4];
    assert run.log == before + FreePlan(b);
  }

  /** Pointers handed out at or after `next` are none of those live before. */
  lemma FreshBuffers(live: set<DevicePtr>, next: DevicePtr, b: Buffers)
    requires forall q :: q in live ==> q < next
    requires b.pieceData == 0 || b.pieceData >= next
    requires b.pieceHash == 0 || b.pieceHash >= next
    requires b.midstates == 0 || b.midstates >= next
    requires b.result == 0 || b.result >= next
    ensures BufferSet(b) !! live
  {
  }

  /** Selecting the device and allocating: the status-checked steps up to
      the first failure. */
  method Allocate(rt: HipRuntime, k: KernelConstants, pieceSize: nat) returns (o: Stop<HipCall>, b: Buffers)
    requires rt.Valid() && k.Valid()
    modifies rt
    ensures rt.Valid()
    ensures (Phase(o, rt.log), b) == Allocation(rt.status, old(rt.log), old(rt.next), k, pieceSize)
    ensures rt.live == old(rt.live) + BufferSet(b) && BufferSet(b) !! old(rt.live)
  {
    ghost var p, log0 := AllocationPlan(k, pieceSize), rt.log;
    ghost var live0, next0, t := rt.live, rt.next, |rt.log|;
    ghost var a := Allocated(next0, pieceSize);
    b := Buffers(0, 0, 0, 0);
    label steps: {
      var st := rt.Call(HipSetDevice(0));
      if st != 0 {
        o := FailedAt(HipSetDevice(0), st);
        break steps;
      }
      var ptr;
      st, ptr := rt.Malloc(pieceSize);
      assert st == rt.status(p[1], t + 1) && rt.log == log0 + p[..2];
      if st != 0 {
        o := FailedAt(HipMalloc(pieceSize), st);
        break steps;
      }
      b := b.(pieceData := ptr);
      assert ptr == a.pieceData && rt.next == a.pieceHash;
      st, ptr := rt.Malloc(SHA1_SIZE);
      assert st == rt.status(p[2], t + 2) && rt.log == log0 + p[..3];
      if st != 0 {
        o := FailedAt(HipMalloc(SHA1_SIZE), st);
        break steps;
      }
      b := b.(pieceHash := ptr);
      assert ptr == a.pieceHash && rt.next == a.midstates;
      st, ptr := rt.Malloc(MidstatesBytes(k, pieceSize));
      assert st == rt.status(p[3], t + 3) && rt.log == log0 + p[..4];
      if st != 0 {
        o := FailedAt(HipMalloc(MidstatesBytes(k, pieceSize)), st);
        break steps;
      }
      b := b.(midstates := ptr);
      assert ptr == a.midstates && rt.next == a.result;
      st, ptr := rt.Malloc(RESULT_SIZE);
      assert st == rt.status(p[4], t + 4) && rt.log == log0 + p;
      if st != 0 {
        o := FailedAt(HipMalloc(RESULT_SIZE), st);
        break steps;
      }
      b := b.(result := ptr);
      assert ptr == a.result;
      o := Completed;
    }
    FreshBuffers(live0, next0, b);
  }

  /** The copies to the device, up to the first failure. */
  method CopyIn(rt: HipRuntime, b: Buffers, k: KernelConstants, pieceSize: nat) returns (o: Stop<HipCall>)
    requires rt.Valid() && k.Valid()
    modifies rt
    ensures rt.Valid() && rt.live == old(rt.live) && rt.next == old(rt.next)
    ensures Phase(o, rt.log) == Copying(rt.status, old(rt.log), b, k, pieceSize)
  {
    ghost var p := CopyPlan(b, k, pieceSize);
    var st := rt.Call(HipMemcpyHtoD(b.pieceData, pieceSize));
    if st != 0 {
      return FailedAt(HipMemcpyHtoD(b.pieceData, pieceSize), st);
    }
    st := rt.Call(HipMemcpyHtoD(b.pieceHash, SHA1_SIZE));
    assert rt.log == old(rt.log) + p[..2];
    if st != 0 {
      return FailedAt(HipMemcpyHtoD(b.pieceHash, SHA1_SIZE), st);
    }
    st := rt.Call(HipMemcpyHtoD(b.midstates, MidstatesBytes(k, pieceSize)));
    assert rt.log == old(rt.log) + p[..3];
    if st != 0 {
      return FailedAt(HipMemcpyHtoD(b.midstates, MidstatesBytes(k, pieceSize)), st);
    }
    st := rt.Call(HipMemcpyHtoD(b.result, RESULT_SIZE));
    assert rt.log == old(rt.log) + p;
    if st != 0 {
      return FailedAt(HipMemcpyHtoD(b.result, RESULT_SIZE), st);
    }
    o := Completed;
  }

  /** The launch, the error check, the synchronization and the copy back. */
  method RunKernel(rt: HipRuntime, b: Buffers, k: KernelConstants, pieceSize: nat, result: UInt32)
    returns (o: Stop<HipCall>, resultOut: UInt32)
    requires rt.Valid() && k.Valid() && pieceSize <= INT32_MAX
    modifies rt
    ensures rt.Valid() && rt.live == old(rt.live) && rt.next == old(rt.next)
    ensures (Phase(o, rt.log), resultOut) == Running(rt.status, rt.word, old(rt.log), b, k, pieceSize, result)
  {
    ghost var p := KernelPlan(b, k, pieceSize);
    resultOut := result;
    var threadsPerBlock := THREADS_PER_BLOCK;
    var blocksPerGrid := BlocksPerGrid(pieceSize, k.batchSize);
    rt.Launch(HipLaunchKernel(blocksPerGrid, threadsPerBlock, b.pieceData, b.pieceHash, b.midstates, pieceSize, b.result));
    var st := rt.Call(HipGetLastError);
    assert rt.log == old(rt.log) + p[..2];
    if st != 0 {
      return FailedAt(HipGetLastError, st), resultOut;
    }
    st := rt.Call(HipDeviceSynchronize);
    assert rt.log == old(rt.log) + p[..3];
    if st != 0 {
      return FailedAt(HipDeviceSynchronize, st), resultOut;
    }
    st, resultOut := rt.MemcpyDtoH(resultOut, b.result, RESULT_SIZE);
    assert rt.log == old(rt.log) + p;
    if st != 0 {
      return FailedAt(HipMemcpyDtoH(b.result, RESULT_SIZE), st), resultOut;
    }
    o := Completed;
  }

  /** The four `hipFree` calls at `Error:`, statuses unchecked. */
  method FreeAll(rt: HipRuntime, b: Buffers)
    requires rt.Valid()
    modifies rt
    ensures rt.Valid() && rt.next == old(rt.next) && rt.log == old(rt.log) + FreePlan(b)
    ensures rt.live == old(rt.live) - BufferSet(b)
  {
    var st := rt.Free(b.pieceData);
    st := rt.Free(b.pieceHash);
    st := rt.Free(b.midstates);
    st := rt.Free(b.result);
  }

  /** `bruteforceBits`: the midstate table, then the status-checked chain,
      which breaks out to the cleanup at the first failure; the cleanup
      frees every device pointer, allocated or still null. The device
      allocations are balanced on every path, and `*result` is written only
      by the final copy. */
  method BruteforceBits<Ctx>(rt: HipRuntime, k: KernelConstants, init: Ctx, update: (Ctx, seq<Byte>) -> Ctx,
                             pieceData: seq<Byte>, pieceHash: seq<Byte>, pieceSize: nat, result: UInt32)
    returns (resultOut: UInt32)
    requires rt.Valid() && k.Valid() && pieceSize == |pieceData| <= INT32_MAX
    modifies rt
    ensures rt.Valid() && rt.live == old(rt.live)
    ensures var run := Run(rt.status, rt.word, old(rt.log), old(rt.next), k, pieceSize, result);
      rt.log == run.log && resultOut == run.result
  {
    resultOut := result;
    var midstates := ComputeMidstates(init, update, pieceData, pieceSize, k.chunkSize);
    var o, b := Allocate(rt, k, pieceSize);
    label checked: {
      if o != Completed {
        break checked;
      }
      o := CopyIn(rt, b, k, pieceSize);
      if o != Completed {
        break checked;
      }
      o, resultOut := RunKernel(rt, b, k, pieceSize, resultOut);
    }
    // Error:
    FreeAll(rt, b);
  }
}
