/** Values shared by the managed and the native side of the bit-flip search:
    fixed-width integers, the C# conversions applied to the native result,
    the oracles that stand for code outside the model, and the failure types. */
module Interop {

  const UINT32_MAX: int := 0xFFFF_FFFF
  const INT32_MAX: int := 0x7FFF_FFFF
  const TWO_32: int := 0x1_0000_0000

  type UInt32 = x: int | 0 <= x <= UINT32_MAX
  type Byte = x: int | 0 <= x < 256

  /** The operating system as `RuntimeInformation.IsOSPlatform` reports it. */
  datatype OS = Windows | Linux | OtherOS

  datatype Result<T, E> = Ok(value: T) | Err(error: E)

  /** C#'s unchecked `(int)` conversion of a `uint`: the one 32-bit signed
      value congruent to `u` modulo 2^32. */
  function ToInt32(u: UInt32): (r: int)
    ensures -0x8000_0000 <= r <= INT32_MAX
    ensures (u - r) % TWO_32 == 0
    ensures u <= INT32_MAX <==> r == u
  {
    if u <= INT32_MAX then u else u - TWO_32
  }

  /** The mapping both dispatchers apply to the 32-bit value the native search
      leaves in `result`: the sentinel `uint.MaxValue` becomes -3, any other
      value is returned through the unchecked `(int)` cast. */
  function MapResult(raw: UInt32): (r: int)
    ensures raw == UINT32_MAX ==> r == -3
    ensures raw <= INT32_MAX ==> r == raw
    ensures INT32_MAX < raw < UINT32_MAX ==> r == raw - TWO_32 < 0
    // -1 is never produced; -2 and -3 also arise from bit indexes that wrap
    ensures r != -1
    ensures r == -2 <==> raw == UINT32_MAX - 1
    ensures r == -3 <==> raw == UINT32_MAX || raw == UINT32_MAX - 2
  {
    if raw == UINT32_MAX then -3 else ToInt32(raw)
  }

  /** The four bytes of `w`, least significant first. */
  function LittleEndianBytes(w: UInt32): (b: seq<Byte>)
    ensures |b| == 4
  {
    [w % 256, (w / 256) % 256, (w / 256 / 256) % 256, w / 256 / 256 / 256]
  }

  /** `BitConverter.ToUInt32(bytes, 0)` on a little-endian host. */
  function ToUInt32(b: seq<Byte>): (w: UInt32)
    requires |b| == 4
  {
    b[0] as int + 256 * b[1] as int + 65536 * b[2] as int + 16777216 * b[3] as int
  }

  lemma LittleEndianDecodeEncode(w: UInt32)
    ensures ToUInt32(LittleEndianBytes(w)) == w
  {
    var q1 := w / 256;
    var q2 := q1 / 256;
    assert w == w % 256 + 256 * q1;
    assert q1 == q1 % 256 + 256 * q2;
    assert q2 == q2 % 256 + 256 * (q2 / 256);
  }

  /** The two kernel variants; `Aligned` serves data whose length is a
      multiple of 64 bytes, the SHA-1 block size. */
  datatype Variant = Aligned | Unaligned

  function VariantFor(length: nat): (v: Variant)
    ensures v == Aligned <==> length % 64 == 0
  {
    if length % 64 == 0 then Aligned else Unaligned
  }

  /** The four precompiled native libraries, each exporting `bruteforceBits`. */
  datatype NativeLib = CudaAligned | CudaUnaligned | RocmAligned | RocmUnaligned

  /** What one call of a native `bruteforceBits` does: it returns, leaving
      `value` in its `ref uint result` (the unchanged input when it writes
      nothing), or the call throws (the library cannot be loaded or the entry
      point is missing). */
  datatype NativeReply = Wrote(value: UInt32) | Threw

  /** The native libraries, as an oracle over library, data, hash, size and
      the value of `result` on entry. */
  type NativeOracle = (NativeLib, seq<Byte>, seq<Byte>, int, UInt32) -> NativeReply

  /** `GetHash` and `IsEqual` of the Utility class, which are outside the model. */
  datatype Utility = Utility(getHash: seq<Byte> -> seq<Byte>, isEqual: (seq<Byte>, seq<Byte>) -> bool)

  predicate AlreadyMatches(u: Utility, data: seq<Byte>, hash: seq<Byte>) {
    u.isEqual(hash, u.getHash(data))
  }
}
