/** memcpy, memset and memmove of lib.c: their alignment, dword and tail loops against a plain copy. */
module Primitives {
  import opened Machine
  import opened UserMemory

  /** mem is m with k bytes copied, as they were, from src to dest. */
  ghost predicate Copied(mem: array<Byte>, m: seq<Byte>, dest: int, src: int, k: nat)
    reads mem
  {
    && mem.Length == |m| && 0 <= dest && 0 <= src && dest + k <= |m| && src + k <= |m|
    && (forall j :: dest <= j < dest + k ==> mem[j] == m[j - dest + src])
    && (forall j :: 0 <= j < |m| && !(dest <= j < dest + k) ==> mem[j] == m[j])
  }

  lemma CopiedIsWrite(mem: array<Byte>, m: seq<Byte>, dest: int, src: int, k: nat)
    requires Copied(mem, m, dest, src, k)
    ensures mem[..] == Write(m, dest, Read(m, src, k))
  {
  }

  predicate Disjoint(a: int, b: int, n: int) { a + n <= b || b + n <= a }

  /** movsb: one more byte. */
  method CopyByte(mem: array<Byte>, dest: nat, src: nat, k: nat, ghost n: nat, ghost m: seq<Byte>)
    requires Copied(mem, m, dest, src, k) && k < n && src + n <= |m| && dest + n <= |m| && Disjoint(dest, src, n)
    modifies mem
    ensures Copied(mem, m, dest, src, k + 1)
  {
    mem[dest + k] := mem[src + k];
  }

  /** movsl: four more. */
  method CopyDword(mem: array<Byte>, dest: nat, src: nat, k: nat, ghost n: nat, ghost m: seq<Byte>)
    requires Copied(mem, m, dest, src, k) && k + 4 <= n && src + n <= |m| && dest + n <= |m| && Disjoint(dest, src, n)
    modifies mem
    ensures Copied(mem, m, dest, src, k + 4)
  {
    var at, s := dest + k, src + k;
    var b0, b1, b2, b3 := mem[s], mem[s + 1], mem[s + 2], mem[s + 3];
    assert b0 == m[s] && b1 == m[s + 1] && b2 == m[s + 2] && b3 == m[s + 3];
    mem[at], mem[at + 1], mem[at + 2], mem[at + 3] := b0, b1, b2, b3;
  }

  /** Single bytes until the destination is aligned, dwords, then the last bytes. */
  method MemCpy(mem: array<Byte>, dest: nat, src: nat, n: nat)
    requires dest + n <= mem.Length && src + n <= mem.Length && Disjoint(dest, src, n)
    modifies mem
    ensures mem[..] == Write(old(mem[..]), dest, Read(old(mem[..]), src, n))
  {
    ghost var m := mem[..];
    var k, ecx := 0, n;
    while ecx != 0 && (dest + k) % 4 != 0
      invariant 0 <= ecx && k + ecx == n
      invariant Copied(mem, m, dest, src, k)
    {
      CopyByte(mem, dest, src, k, n, m);
      k, ecx := k + 1, ecx - 1;
    }
    var edx := ecx % 4;
    ecx := ecx / 4;
    while ecx != 0
      invariant 0 <= ecx && k + 4 * ecx + edx == n
      invariant Copied(mem, m, dest, src, k)
    {
      CopyDword(mem, dest, src, k, n, m);
      k, ecx := k + 4, ecx - 1;
    }
    while edx != 0
      invariant 0 <= edx && k + edx == n
      invariant Copied(mem, m, dest, src, k)
    {
      CopyByte(mem, dest, src, k, n, m);
      k, edx := k + 1, edx - 1;
    }
    CopiedIsWrite(mem, m, dest, src, n);
  }

  /** mem is m with k bytes set to c. */
  ghost predicate Set(mem: array<Byte>, m: seq<Byte>, dest: int, c: Byte, k: nat)
    reads mem
  {
    && mem.Length == |m| && 0 <= dest && dest + k <= |m|
    && (forall j :: dest <= j < dest + k ==> mem[j] == c)
    && (forall j :: 0 <= j < |m| && !(dest <= j < dest + k) ==> mem[j] == m[j])
  }

  function Repeated(c: Byte, n: nat): (r: seq<Byte>)
    ensures |r| == n
  {
    seq(n, _ => c)
  }

  /** stosl. */
  method SetDword(mem: array<Byte>, dest: nat, c: Byte, k: nat, ghost m: seq<Byte>)
    requires Set(mem, m, dest, c, k) && dest + k + 4 <= |m|
    modifies mem
    ensures Set(mem, m, dest, c, k + 4)
  {
    var at := dest + k;
    mem[at], mem[at + 1], mem[at + 2], mem[at + 3] := c, c, c, c;
  }

  /** The same three loops for a fill; eax holds the byte four times. */
  method MemSet(mem: array<Byte>, dest: nat, c: Byte, n: nat)
    requires dest + n <= mem.Length
    modifies mem
    ensures mem[..] == Write(old(mem[..]), dest, Repeated(c, n))
  {
    ghost var m := mem[..];
    var k, ecx := 0, n;
    while ecx != 0 && (dest + k) % 4 != 0
      invariant 0 <= ecx && k + ecx == n
      invariant Set(mem, m, dest, c, k)
    {
      mem[dest + k] := c;
      k, ecx := k + 1, ecx - 1;
    }
    var edx := ecx % 4;
    ecx := ecx / 4;
    while ecx != 0
      invariant 0 <= ecx && k + 4 * ecx + edx == n
      invariant Set(mem, m, dest, c, k)
    {
      SetDword(mem, dest, c, k, m);
      k, ecx := k + 4, ecx - 1;
    }
    while edx != 0
      invariant 0 <= edx && k + edx == n
      invariant Set(mem, m, dest, c, k)
    {
      mem[dest + k] := c;
      k, edx := k + 1, edx - 1;
    }
  }

  /** Upwards when the source is not below the destination, downwards otherwise: right for every
      overlap. */
  method MemMove(mem: array<Byte>, dest: nat, src: nat, n: nat)
    requires dest + n <= mem.Length && src + n <= mem.Length
    modifies mem
    ensures mem[..] == Write(old(mem[..]), dest, Read(old(mem[..]), src, n))
  {
    ghost var m := mem[..];
    var i := 0;
    if src >= dest {
      while i < n
        invariant 0 <= i <= n
        invariant Copied(mem, m, dest, src, i)
      {
        mem[dest + i] := mem[src + i];
        i := i + 1;
      }
    } else {
      while i < n
        invariant 0 <= i <= n
        invariant Copied(mem, m, dest + n - i, src + n - i, i)
      {
        mem[dest + n - 1 - i] := mem[src + n - 1 - i];
        i := i + 1;
      }
    }
    CopiedIsWrite(mem, m, dest, src, n);
  }
}
