/** The 4MB user page and the checked copies into and out of it (the end of lib.c). */
module UserMemory {
  import opened Machine

  const USER_PAGE_START: int := 0x0800_0000
  const USER_PAGE_END: int := 0x0840_0000
  const PAGE_SIZE: int := 0x40_0000

  /** The bytes at USER_PAGE_START .. USER_PAGE_END. */
  type Page = m: seq<Byte> | |m| == 0x40_0000 witness seq(0x40_0000, _ => 0)

  /** is_user_readable and is_user_writable, with the 32-bit overflow check. */
  predicate UserRange(start: U32, n: int) {
    0 <= n < WORD &&
    var end := Add32(start, n);
    !(end < start) && !(start < USER_PAGE_START || end >= USER_PAGE_END)
  }

  /** What the overflow check is for: the range lies in the page, short of its last byte. */
  lemma UserRangeMeans(start: U32, n: int)
    ensures UserRange(start, n) <==> 0 <= n && USER_PAGE_START <= start && start + n < USER_PAGE_END
  {
  }

  /** The last byte of the page is mapped, and refused. */
  lemma LastByteRefused()
    ensures !UserRange(USER_PAGE_END - 1, 1) && UserRange(USER_PAGE_END - 2, 1)
  {
  }

  function Read(m: seq<Byte>, off: int, n: int): (r: seq<Byte>)
    requires 0 <= off && 0 <= n && off + n <= |m|
    ensures |r| == n
  {
    m[off..off + n]
  }

  function Write(m: seq<Byte>, off: int, bs: seq<Byte>): (r: seq<Byte>)
    requires 0 <= off && off + |bs| <= |m|
    ensures |r| == |m|
    ensures Read(r, off, |bs|) == bs
    ensures forall i :: 0 <= i < |m| && !(off <= i < off + |bs|) ==> r[i] == m[i]
  {
    m[..off] + bs + m[off + |bs|..]
  }

  /** Two adjacent writes are one. */
  lemma WriteAdjacent(m: seq<Byte>, off: int, a: seq<Byte>, b: seq<Byte>)
    requires 0 <= off && off + |a| + |b| <= |m|
    ensures Write(Write(m, off + |a|, b), off, a) == Write(m, off, a + b)
  {
  }

  /** Overwriting the inside of a block just written. */
  lemma WriteInside(m: seq<Byte>, off: int, bs: seq<Byte>, k: int, v: seq<Byte>)
    requires 0 <= off && off + |bs| <= |m| && 0 <= k && k + |v| <= |bs|
    ensures Write(Write(m, off, bs), off + k, v) == Write(m, off, Write(bs, k, v))
  {
  }
}
