/** Basic types shared by the 7z folder decoder model: bytes, the SDK's result
    codes (SRes) and the width of SizeT. */
module SzTypes {

  /** One octet of archive or output data. */
  type byte = b: int | 0 <= b < 256

  /** The SDK reports every outcome as an integer result code. Several call
      sites return a code through a byte-count result, so the codes stay
      plain integers rather than a datatype. */
  type SRes = int

  const SZ_OK: SRes := 0
  const SZ_ERROR_DATA: SRes := 1
  const SZ_ERROR_MEM: SRes := 2
  const SZ_ERROR_UNSUPPORTED: SRes := 4
  const SZ_ERROR_PARAM: SRes := 5
  const SZ_ERROR_INPUT_EOF: SRes := 6
  const SZ_ERROR_READ: SRes := 8
  const SZ_ERROR_WRITE: SRes := 9
  const SZ_ERROR_FAIL: SRes := 11

  /** SizeT is 32 bits wide in the Windows build this extractor targets, so a
      64-bit size that does not survive the cast is reported as SZ_ERROR_MEM. */
  const SIZE_T_LIMIT: nat := 0x1_0000_0000

  /** UInt32 arithmetic wraps around modulo 2^32. */
  const UINT32_LIMIT: nat := 0x1_0000_0000

  predicate FitsSizeT(n: nat) {
    n < SIZE_T_LIMIT
  }

  function Min(a: nat, b: nat): nat {
    if a < b then a else b
  }

  /** A pointer that may be NULL. */
  datatype Option<T> = None | Some(value: T)

  /** Writes view into out at position at; every other byte stays. */
  method PutBytes(out: array<byte>, at: nat, view: seq<byte>)
    requires at + |view| <= out.Length
    modifies out
    ensures out[..at] == old(out[..at])
    ensures out[at..at + |view|] == view
    ensures out[at + |view|..] == old(out[at + |view|..])
  {
    forall i | 0 <= i < |view| {
      out[at + i] := view[i];
    }
  }
}
