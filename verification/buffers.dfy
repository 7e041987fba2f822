/**
 * The read and write buffers of a buffered socket, reduced to their
 * positions: only how many bytes are unread and how much room is left
 * matter to the connection core, never the bytes themselves.
 */
module Buffers {

  /** Offsets from the start of a fixed region of `cap` bytes. */
  datatype Buf = Buf(rpos: nat, wpos: nat, cap: nat)

  /** The read position never passes the write position, which never passes the end. */
  type Buffer = b: Buf | b.rpos <= b.wpos <= b.cap witness Buf(0, 0, 0)

  function Min(a: nat, b: nat): nat { if a <= b then a else b }

  /** A buffer as a freshly borrowed socket has it: nothing stored. */
  function Empty(cap: nat): (b: Buffer)
    ensures RSize(b) == 0 && WSize(b) == cap
  {
    Buf(0, 0, cap)
  }

  /** Bytes stored and not yet consumed (buf_rsize). */
  function RSize(b: Buffer): nat { b.wpos - b.rpos }

  /** Room left after the write position (buf_wsize). */
  function WSize(b: Buffer): nat { b.cap - b.wpos }

  /**
   * Compaction (buf_lshift): the unread bytes move to the start of the
   * region, so every byte already consumed becomes writable room again.
   */
  function LShift(b: Buffer): (r: Buffer)
    ensures r.cap == b.cap && r.rpos == 0
    ensures RSize(r) == RSize(b) && WSize(r) == b.cap - RSize(b)
  {
    Buf(0, b.wpos - b.rpos, b.cap)
  }

  /** A producer offers `n` bytes; what does not fit in the room left is not stored. */
  function Append(b: Buffer, n: nat): (r: Buffer)
    ensures r.rpos == b.rpos && r.cap == b.cap
    ensures RSize(r) == RSize(b) + Min(n, WSize(b)) && RSize(r) <= RSize(b) + n
  {
    b.(wpos := b.wpos + Min(n, WSize(b)))
  }

  /** A consumer takes `n` bytes; it cannot take more than are unread. */
  function Consume(b: Buffer, n: nat): (r: Buffer)
    ensures r.wpos == b.wpos && r.cap == b.cap
    ensures RSize(r) == RSize(b) - Min(n, RSize(b)) && WSize(r) == WSize(b)
  {
    b.(rpos := b.rpos + Min(n, RSize(b)))
  }

  /** Compacting twice with no new data in between changes nothing more. */
  lemma LShiftIdempotent(b: Buffer)
    ensures LShift(LShift(b)) == LShift(b)
  {
  }

  /** Compaction never loses room: it only gives back what was consumed. */
  lemma LShiftReclaimsConsumed(b: Buffer)
    ensures WSize(LShift(b)) == WSize(b) + b.rpos
  {
  }
}
