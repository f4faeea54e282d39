/**
 * The byte-level helpers of cNVMe/Types.h: the bounds-checked copy `memcpy_s`
 * and the zero-/one-based and byte/DWORD conversion macros.
 */
module Types {
  import opened Wrappers

  /** An unsigned 8-bit value (the source's BYTE / UINT_8). */
  type byte = x: int | 0 <= x < 0x100

  /** `sizeof(UINT_32)`, the DWORD width the conversion macros divide by. */
  const DWORD_SIZE: nat := 4

  // ---------------------------------------------------------------------------
  // Conversion macros
  // ---------------------------------------------------------------------------

  /**
   * ONE_BASED_FROM_ZERO_BASED, with its argument evaluated as one value: a
   * zero-based count or index as a one-based one.
   */
  function OneBasedFromZeroBased(n: nat): (r: nat)
    ensures r >= 1
  {
    n + 1
  }

  /**
   * ZERO_BASED_FROM_ONE_BASED, with its argument evaluated as one value: a
   * one-based count or index as a zero-based one.
   * Only one-based inputs (at least 1) are meaningful; 0 would wrap around.
   */
  function ZeroBasedFromOneBased(n: nat): (r: nat)
    requires n >= 1
    ensures r < n
  {
    n - 1
  }

  /**
   * DWORDS_FROM_BYTES, with its argument evaluated as one value: the number of
   * DWORDs needed to hold n bytes (rounded up).
   */
  function DwordsFromBytes(n: nat): (r: nat)
    ensures r * DWORD_SIZE >= n
    ensures r * DWORD_SIZE < n + DWORD_SIZE
  {
    (n + DWORD_SIZE - 1) / DWORD_SIZE
  }

  /** BYTES_FROM_DWORDS, with its argument evaluated as one value: the byte size of k DWORDs. */
  function BytesFromDwords(k: nat): (r: nat)
    ensures r % DWORD_SIZE == 0
    ensures r / DWORD_SIZE == k
  {
    k * DWORD_SIZE
  }

  lemma ZeroBasedOneBasedRoundTrip(n: nat)
    ensures ZeroBasedFromOneBased(OneBasedFromZeroBased(n)) == n
  {
  }

  lemma OneBasedZeroBasedRoundTrip(n: nat)
    requires n >= 1
    ensures OneBasedFromZeroBased(ZeroBasedFromOneBased(n)) == n
  {
  }

  /** Rounding a byte count up to whole DWORDs never loses bytes and adds fewer than four. */
  lemma DwordsFromBytesCovers(n: nat)
    ensures n <= BytesFromDwords(DwordsFromBytes(n)) < n + DWORD_SIZE
  {
  }

  /** DwordsFromBytes is the least covering DWORD count. */
  lemma DwordsFromBytesIsLeast(n: nat, k: nat)
    requires BytesFromDwords(k) >= n
    ensures DwordsFromBytes(n) <= k
  {
  }

  /** A whole number of DWORDs converts to bytes and back unchanged. */
  lemma DwordsBytesRoundTrip(k: nat)
    ensures DwordsFromBytes(BytesFromDwords(k)) == k
  {
  }

  /**
   * The macro as written, applied to the argument text `a + b`. The body
   * `(number * sizeof(UINT_32))` does not parenthesise `number`, so the
   * preprocessor produces `a + b * 4`.
   */
  function BytesFromDwordsOfSumAsWritten(a: nat, b: nat): (r: nat)
    ensures r + a * (DWORD_SIZE - 1) == BytesFromDwords(a + b)
    ensures a > 0 ==> r < BytesFromDwords(a + b)
  {
    a + b * DWORD_SIZE
  }

  /** The argument `k + 1` expands to `k + 1 * 4`: 5 bytes for 2 DWORDs when k is 1. */
  lemma BytesFromDwordsOfSumCounterexample()
    ensures BytesFromDwordsOfSumAsWritten(1, 1) == 5
    ensures BytesFromDwords(1 + 1) == 8
  {
  }

  /** With the argument evaluated as one value, the byte size of a sum of DWORD counts is the sum of byte sizes. */
  lemma BytesFromDwordsOfSum(a: nat, b: nat)
    ensures BytesFromDwords(a + b) == BytesFromDwords(a) + BytesFromDwords(b)
    ensures BytesFromDwords(a + b) - BytesFromDwordsOfSumAsWritten(a, b) == a * (DWORD_SIZE - 1)
  {
  }

  // ---------------------------------------------------------------------------
  // memcpy_s
  // ---------------------------------------------------------------------------

  /** The error numbers memcpy_s returns. */
  datatype Errno = NoError | EInval | ERange {
    /** The errno_t value: 0, or the Linux numbers of EINVAL and ERANGE. */
    function Code(): (r: int)
      ensures r >= 0
      ensures r == 0 <==> NoError?
    {
      match this
      case NoError => 0
      case EInval => 22
      case ERange => 34
    }
  }

  /** What memcpy_s returns, together with the destination buffer as it is afterwards. */
  datatype CopyResult = CopyResult(status: Errno, dest: Option<seq<byte>>)

  /** `after` is `before` with its first n bytes set to zero (the failure paths' memset). */
  ghost predicate ZeroedFirst(before: seq<byte>, after: seq<byte>, n: nat) {
    && |after| == |before|
    && (forall i :: 0 <= i < n && i < |after| ==> after[i] == 0)
    && (forall i :: n <= i < |after| ==> after[i] == before[i])
  }

  /** `after` is `before` with its first n bytes taken from `src` (the success path's memcpy). */
  ghost predicate CopiedFirst(before: seq<byte>, src: seq<byte>, after: seq<byte>, n: nat) {
    && |after| == |before|
    && (forall i :: 0 <= i < n && i < |after| && i < |src| ==> after[i] == src[i])
    && (forall i :: n <= i < |after| ==> after[i] == before[i])
  }

  /** memset(buf, 0, n). */
  function Memset(buf: seq<byte>, n: nat): (r: seq<byte>)
    requires n <= |buf|
    ensures ZeroedFirst(buf, r, n)
  {
    seq(n, _ => 0) + buf[n..]
  }

  /** memcpy(buf, src, n). */
  function Memcpy(buf: seq<byte>, src: seq<byte>, n: nat): (r: seq<byte>)
    requires n <= |buf| && n <= |src|
    ensures CopiedFirst(buf, src, r, n)
  {
    src[..n] + buf[n..]
  }

  /**
   * memcpy_s(dest, destSize, src, count). `None` is a null pointer. The C
   * caller must supply a dest buffer of at least destSize bytes whenever the
   * function may write it, and a src buffer of at least count bytes whenever
   * it copies.
   */
  function MemcpyS(dest: Option<seq<byte>>, destSize: nat, src: Option<seq<byte>>, count: nat): (r: CopyResult)
    requires dest.Some? && count > 0 ==> destSize <= |dest.value|
    requires dest.Some? && src.Some? && 0 < count <= destSize ==> count <= |src.value|
    // A zero-length copy succeeds and touches nothing, whatever the pointers.
    ensures count == 0 ==> r == CopyResult(NoError, dest)
    // A null destination is reported before any other check and nothing is written.
    ensures count > 0 && dest.None? ==> r == CopyResult(EInval, None)
    // A null source zeroes the first destSize bytes of the destination.
    ensures count > 0 && dest.Some? && src.None? ==>
              r.status == EInval && r.dest.Some? && ZeroedFirst(dest.value, r.dest.value, destSize)
    // A too-small destination zeroes its first destSize bytes.
    ensures count > 0 && dest.Some? && src.Some? && destSize < count ==>
              r.status == ERange && r.dest.Some? && ZeroedFirst(dest.value, r.dest.value, destSize)
    // Success exactly when nothing is to be copied or both pointers are valid and the count fits.
    ensures r.status == NoError <==> count == 0 || (dest.Some? && src.Some? && count <= destSize)
    ensures r.status == NoError && count > 0 ==>
              dest.Some? && src.Some? && r.dest.Some? && CopiedFirst(dest.value, src.value, r.dest.value, count)
  {
    if count == 0 then
      CopyResult(NoError, dest)
    else if dest.None? then
      CopyResult(EInval, dest)
    else if src.None? then
      CopyResult(EInval, Some(Memset(dest.value, destSize)))
    else if destSize < count then
      CopyResult(ERange, Some(Memset(dest.value, destSize)))
    else
      CopyResult(NoError, Some(Memcpy(dest.value, src.value, count)))
  }

  /** After a successful copy the first count bytes of the destination read back as the source's. */
  lemma MemcpySReadBack(dest: seq<byte>, destSize: nat, src: seq<byte>, count: nat)
    requires count <= destSize <= |dest| && count <= |src|
    ensures MemcpyS(Some(dest), destSize, Some(src), count).status == NoError
    ensures MemcpyS(Some(dest), destSize, Some(src), count).dest == Some(src[..count] + dest[count..])
  {
    var after := MemcpyS(Some(dest), destSize, Some(src), count).dest.value;
    assert after == src[..count] + dest[count..] by {
      if count > 0 {
        assert CopiedFirst(dest, src, after, count);
      }
    }
  }

  /** A failed copy never exposes source bytes: every destination byte is either zero or its old value. */
  lemma MemcpySFailureLeaksNothing(dest: seq<byte>, destSize: nat, src: Option<seq<byte>>, count: nat, i: nat)
    requires 0 < count && destSize <= |dest|
    requires src.Some? && count <= destSize ==> count <= |src.value|
    requires MemcpyS(Some(dest), destSize, src, count).status != NoError
    requires i < |dest|
    ensures MemcpyS(Some(dest), destSize, src, count).dest.Some?
    ensures MemcpyS(Some(dest), destSize, src, count).dest.value[i] == (if i < destSize then 0 else dest[i])
  {
  }
}
