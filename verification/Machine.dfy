/** 32-bit unsigned arithmetic, bytes and bits. */
module Machine {
  const WORD: int := 0x1_0000_0000

  type U32 = x: int | 0 <= x < 0x1_0000_0000
  type U16 = x: int | 0 <= x < 0x1_0000
  type Byte = x: int | 0 <= x < 0x100

  /** x + y and x - y as the processor computes them. */
  function Add32(x: U32, y: U32): U32 { if x + y < WORD then x + y else x + y - WORD }

  function Sub32(x: U32, y: U32): U32 { if y <= x then x - y else x - y + WORD }

  // ---------------------------------------------------------------- little-endian words

  function Bytes4(x: U32): (r: seq<Byte>)
    ensures |r| == 4
  {
    [x % 0x100, x / 0x100 % 0x100, x / 0x1_0000 % 0x100, x / 0x100_0000]
  }

  function Word4(b: seq<Byte>): U32
    requires |b| == 4
  {
    var b0: int, b1: int, b2: int, b3: int := b[0], b[1], b[2], b[3];
    b0 + 0x100 * b1 + 0x1_0000 * b2 + 0x100_0000 * b3
  }

  lemma WordRoundTrip(x: U32)
    ensures Word4(Bytes4(x)) == x
  {
    var q := x / 0x100;
    var r := q / 0x100;
    assert x / 0x1_0000 == r;
    assert x / 0x100_0000 == r / 0x100;
    assert x == x % 0x100 + 0x100 * q;
    assert q == q % 0x100 + 0x100 * r;
  }

  /** Low byte first. */
  lemma LittleEndian(b: Byte)
    ensures Word4([b, 0, 0, 0]) == b && Word4([0, b, 0, 0]) == 0x100 * b
    ensures Word4([0, 0, b, 0]) == 0x1_0000 * b && Word4([0, 0, 0, b]) == 0x100_0000 * b
  {
  }

  /** The bytes of a list of words, and back. */
  function Pack(ws: seq<U32>): (r: seq<Byte>)
    ensures |r| == 4 * |ws|
  {
    if ws == [] then [] else Bytes4(ws[0]) + Pack(ws[1..])
  }

  function Unpack(bs: seq<Byte>): (r: seq<U32>)
    ensures |r| == |bs| / 4
  {
    if |bs| < 4 then [] else [Word4(bs[..4])] + Unpack(bs[4..])
  }

  lemma {:induction false} PackRoundTrip(ws: seq<U32>)
    ensures Unpack(Pack(ws)) == ws
  {
    if ws != [] {
      WordRoundTrip(ws[0]);
      PackRoundTrip(ws[1..]);
      assert Pack(ws)[..4] == Bytes4(ws[0]);
      assert Pack(ws)[4..] == Pack(ws[1..]);
    }
  }

  /** Word k of a list is at byte 4 * k. */
  lemma {:induction false} PackAt(ws: seq<U32>, k: nat)
    requires k < |ws|
    ensures Pack(ws)[4 * k..4 * k + 4] == Bytes4(ws[k])
  {
    if k == 0 {
      assert Pack(ws)[..4] == Bytes4(ws[0]);
    } else {
      PackAt(ws[1..], k - 1);
      assert Pack(ws)[4 * k..4 * k + 4] == Pack(ws[1..])[4 * (k - 1)..4 * (k - 1) + 4];
    }
  }

  // ---------------------------------------------------------------- bits

  predicate Bit(x: nat, i: nat) {
    if i == 0 then x % 2 == 1 else Bit(x / 2, i - 1)
  }

  function Pow2(n: nat): (r: nat)
    ensures r > 0
  {
    if n == 0 then 1 else 2 * Pow2(n - 1)
  }

  lemma PowSum(m: nat, n: nat)
    ensures Pow2(m + n) == Pow2(m) * Pow2(n)
  {
    if m > 0 { PowSum(m - 1, n); }
  }

  lemma PowWord()
    ensures Pow2(32) == WORD
  {
    assert Pow2(4) == 16;
    assert Pow2(8) == 256 by { PowSum(4, 4); }
    assert Pow2(16) == 65536 by { PowSum(8, 8); }
    PowSum(16, 16);
  }

  lemma {:induction false} NoBits(i: nat)
    ensures !Bit(0, i)
  {
    if i > 0 { NoBits(i - 1); }
  }

  /** A power of two has one bit. */
  lemma {:induction false} OneBit(k: nat, i: nat)
    ensures Bit(Pow2(k), i) <==> i == k
  {
    if k == 0 {
      if i > 0 { NoBits(i - 1); }
    } else if i > 0 {
      OneBit(k - 1, i - 1);
    }
  }

  /** The n-bit number whose bits are f of the bits of x and y. */
  function Bitwise(f: (bool, bool) -> bool, x: nat, y: nat, n: nat): (r: nat)
    ensures r < Pow2(n)
  {
    if n == 0 then 0
    else 2 * Bitwise(f, x / 2, y / 2, n - 1) + (if f(x % 2 == 1, y % 2 == 1) then 1 else 0)
  }

  lemma {:induction false} BitwiseBit(f: (bool, bool) -> bool, x: nat, y: nat, n: nat, i: nat)
    requires i < n
    ensures Bit(Bitwise(f, x, y, n), i) == f(Bit(x, i), Bit(y, i))
  {
    if i > 0 {
      BitwiseBit(f, x / 2, y / 2, n - 1, i - 1);
      assert Bitwise(f, x, y, n) / 2 == Bitwise(f, x / 2, y / 2, n - 1);
    }
  }

  function And32(x: U32, y: U32): U32 {
    PowWord();
    Bitwise((p, q) => p && q, x, y, 32)
  }

  function Or32(x: U32, y: U32): U32 {
    PowWord();
    Bitwise((p, q) => p || q, x, y, 32)
  }

  function Not32(x: U32): U32 {
    PowWord();
    Bitwise((p, _) => !p, x, 0, 32)
  }
}
