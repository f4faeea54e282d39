/**
 * Offsets of the per-queue doorbell registers: the Submission Queue y Tail
 * doorbell sits at 0x1000 + (2y) * (4 << CAP.DSTRD) and the Completion Queue
 * y Head doorbell at 0x1000 + (2y + 1) * (4 << CAP.DSTRD), each 4 bytes wide.
 */
module Doorbells {
  import opened Wrappers
  import opened PowerOfTwo
  import opened Registers

  /** Offset of the first doorbell register from the register base, as the doorbell descriptions document it. */
  const DOORBELL_BASE: nat := 0x1000

  /** Width in bytes of one doorbell register. */
  const DOORBELL_WIDTH: nat := 4

  datatype DoorbellKind = SubmissionTail | CompletionHead

  /** One doorbell register: the tail or head doorbell of queue y. */
  datatype Doorbell = Doorbell(queue: nat, kind: DoorbellKind)

  /** Distance between consecutive doorbell registers: `4 << CAP.DSTRD`. */
  function Stride(dstrd: uint4): (r: nat)
    ensures r >= DOORBELL_WIDTH
    ensures r % DOORBELL_WIDTH == 0
  {
    ShiftLeft(4, dstrd)
  }

  /** SQyTDBL offset: the register that decodes back to queue y's tail doorbell. */
  function TailDoorbellOffset(y: nat, dstrd: uint4): (r: nat)
    ensures r >= DOORBELL_BASE
    ensures DoorbellAt(r, dstrd) == Some(Doorbell(y, SubmissionTail))
  {
    DivModUnique((2 * y) * Stride(dstrd), Stride(dstrd), 2 * y, 0);
    DOORBELL_BASE + (2 * y) * Stride(dstrd)
  }

  /** CQyHDBL offset: the register that decodes back to queue y's head doorbell. */
  function HeadDoorbellOffset(y: nat, dstrd: uint4): (r: nat)
    ensures r >= DOORBELL_BASE + DOORBELL_WIDTH
    ensures DoorbellAt(r, dstrd) == Some(Doorbell(y, CompletionHead))
  {
    DivModUnique((2 * y + 1) * Stride(dstrd), Stride(dstrd), 2 * y + 1, 0);
    DOORBELL_BASE + (2 * y + 1) * Stride(dstrd)
  }

  /** Position of a doorbell in the interleaved tail/head sequence. */
  function DoorbellIndex(db: Doorbell): nat {
    2 * db.queue + (if db.kind == SubmissionTail then 0 else 1)
  }

  /** Offset of any doorbell register. */
  function DoorbellOffset(db: Doorbell, dstrd: uint4): (r: nat)
    ensures db.kind == SubmissionTail ==> r == TailDoorbellOffset(db.queue, dstrd)
    ensures db.kind == CompletionHead ==> r == HeadDoorbellOffset(db.queue, dstrd)
  {
    DOORBELL_BASE + DoorbellIndex(db) * Stride(dstrd)
  }

  /** The doorbell register that starts at `offset`, if any. */
  function DoorbellAt(offset: nat, dstrd: uint4): Option<Doorbell> {
    if offset < DOORBELL_BASE || (offset - DOORBELL_BASE) % Stride(dstrd) != 0 then
      None
    else
      var k := (offset - DOORBELL_BASE) / Stride(dstrd);
      Some(Doorbell(k / 2, if k % 2 == 0 then SubmissionTail else CompletionHead))
  }

  /** A positive multiple of s is at least s. */
  lemma MulAtLeast(x: nat, s: nat)
    requires x >= 1
    ensures x * s >= s
  {
  }

  /** Scaling two distinct indices by s keeps them at least s apart. */
  lemma ScaledGap(ka: nat, kb: nat, s: nat)
    requires ka < kb
    ensures ka * s + s <= kb * s
  {
    assert kb * s == ka * s + (kb - ka) * s;
    MulAtLeast(kb - ka, s);
  }

  /** Quotient and remainder are the only ones that decompose a. */
  lemma DivModUnique(a: int, s: nat, q: int, r: int)
    requires s > 0 && 0 <= r < s && a == q * s + r
    ensures a / s == q && a % s == r
  {
    var q0, r0 := a / s, a % s;
    assert a == q0 * s + r0;
    if q0 < q {
      assert q * s == q0 * s + (q - q0) * s;
      MulAtLeast(q - q0, s);
      assert false;
    } else if q < q0 {
      assert q0 * s == q * s + (q0 - q) * s;
      MulAtLeast(q0 - q, s);
      assert false;
    }
  }

  /** The head doorbell of queue y follows its tail doorbell by one stride. */
  lemma HeadFollowsTail(y: nat, dstrd: uint4)
    ensures HeadDoorbellOffset(y, dstrd) == TailDoorbellOffset(y, dstrd) + Stride(dstrd)
  {
  }

  /** The tail doorbell of queue y + 1 follows the head doorbell of queue y by one stride. */
  lemma NextTailFollowsHead(y: nat, dstrd: uint4)
    ensures TailDoorbellOffset(y + 1, dstrd) == HeadDoorbellOffset(y, dstrd) + Stride(dstrd)
  {
  }

  /** With the minimum stride, queue 2's doorbells are at 0x1010 (tail) and 0x1014 (head). */
  lemma DoorbellExample()
    ensures Stride(0) == 4
    ensures TailDoorbellOffset(2, 0) == 0x1010
    ensures HeadDoorbellOffset(2, 0) == 0x1014
  {
  }

  /** Decoding the offset of a doorbell finds that doorbell. */
  lemma DoorbellAtOffset(db: Doorbell, dstrd: uint4)
    ensures DoorbellAt(DoorbellOffset(db, dstrd), dstrd) == Some(db)
  {
    DivModUnique(DoorbellIndex(db) * Stride(dstrd), Stride(dstrd), DoorbellIndex(db), 0);
  }

  /** Every offset that decodes to a doorbell is that doorbell's offset. */
  lemma OffsetOfDoorbellAt(offset: nat, dstrd: uint4)
    requires DoorbellAt(offset, dstrd).Some?
    ensures DoorbellOffset(DoorbellAt(offset, dstrd).value, dstrd) == offset
  {
  }

  /** Distinct doorbells have distinct offsets. */
  lemma DoorbellOffsetInjective(a: Doorbell, b: Doorbell, dstrd: uint4)
    requires DoorbellOffset(a, dstrd) == DoorbellOffset(b, dstrd)
    ensures a == b
  {
    DoorbellAtOffset(a, dstrd);
    DoorbellAtOffset(b, dstrd);
  }

  /** Two distinct doorbell registers never overlap: their offsets are at least one register width apart. */
  lemma DoorbellsDoNotOverlap(a: Doorbell, b: Doorbell, dstrd: uint4)
    requires DoorbellIndex(a) < DoorbellIndex(b)
    ensures DoorbellOffset(a, dstrd) + DOORBELL_WIDTH <= DoorbellOffset(b, dstrd)
  {
    ScaledGap(DoorbellIndex(a), DoorbellIndex(b), Stride(dstrd));
  }
}
