/** Finding the executing process by masking the kernel stack pointer (get_executing_pcb and
    get_kernel_base_esp in process.c). */
module KernelStacks {
  import opened Machine
  import opened Arithmetic

  const PROCESS_DATA_SIZE: U32 := 8192

  function And(x: nat, y: nat, n: nat): nat { Bitwise((p, q) => p && q, x, y, n) }

  function Not(x: nat, n: nat): nat { Bitwise((p, _) => !p, x, 0, n) }

  lemma {:induction false} AndOnes(x: nat, n: nat)
    requires x < Pow2(n)
    ensures And(x, Not(0, n), n) == x
  {
    if n > 0 {
      AndOnes(x / 2, n - 1);
      HalfNot(0, n);
      HalfAnd(x, Not(0, n), n);
    }
  }

  lemma HalfNot(x: nat, n: nat)
    requires n > 0
    ensures Not(x, n) / 2 == Not(x / 2, n - 1) && Not(x, n) % 2 == 1 - x % 2
  {
  }

  lemma HalfAnd(x: nat, y: nat, n: nat)
    requires n > 0
    ensures And(x, y, n) == 2 * And(x / 2, y / 2, n - 1) + (if x % 2 == 1 && y % 2 == 1 then 1 else 0)
  {
  }

  /** Clearing the low k bits rounds down to a multiple of 2 to the k. */
  lemma {:induction false} ClearLow(x: nat, k: nat, n: nat, p: nat)
    requires k <= n && x < Pow2(n) && p == Pow2(k)
    ensures And(x, Not(p - 1, n), n) == x - x % p
    decreases k
  {
    if k == 0 {
      AndOnes(x, n);
      assert x % 1 == 0;
    } else {
      var h := Pow2(k - 1);
      ClearLow(x / 2, k - 1, n - 1, h);
      ClearStep(x, p - 1, h, n);
      Doubled(x, h);
      Rounded(x, h, And(x / 2, Not(h - 1, n - 1), n - 1));
    }
  }

  lemma Rounded(x: nat, h: nat, half: nat)
    requires h > 0 && half == x / 2 - x / 2 % h && x % (2 * h) == 2 * (x / 2 % h) + x % 2
    ensures 2 * half == x - x % (2 * h)
  {
  }

  lemma ClearStep(x: nat, low: nat, p: nat, n: nat)
    requires n > 0 && p > 0 && low == 2 * p - 1
    ensures And(x, Not(low, n), n) == 2 * And(x / 2, Not(p - 1, n - 1), n - 1)
  {
    assert low / 2 == p - 1 && low % 2 == 1;
    HalfNot(low, n);
    HalfAnd(x, Not(low, n), n);
  }

  lemma Doubled(x: nat, p: nat)
    requires p > 0
    ensures x % (2 * p) == 2 * (x / 2 % p) + x % 2
  {
    Parts(x / 2, p);
    var q, r := x / 2 / p, x / 2 % p;
    assert q * (2 * p) == 2 * (q * p);
    DivUnique(x, 2 * p, q, 2 * r + x % 2);
  }

  /** The address get_executing_pcb reads from. */
  function DataAt(esp: U32): U32 { And32(esp, Not32(PROCESS_DATA_SIZE - 1)) }

  lemma DataAtRoundsDown(esp: U32)
    ensures DataAt(esp) == esp - esp % PROCESS_DATA_SIZE
  {
    PowWord();
    assert Pow2(13) == 8192 by { assert Pow2(5) == 32; PowSum(5, 8); assert Pow2(8) == 256; }
    ClearLow(esp, 13, 32, 8192);
  }

  /** get_kernel_base_esp: the end of the stack that follows the PCB pointer. */
  function BaseEsp(data: U32, pid: nat): int { data + pid * PROCESS_DATA_SIZE + 4 + (PROCESS_DATA_SIZE - 4) }

  /** With process_data aligned to its own element size, the mask finds slot pid exactly for the stack
      pointers inside that slot: at ESP0 itself, where nothing has been pushed yet, it would find the
      next slot. */
  lemma MaskFindsSlot(data: U32, slots: nat, pid: nat, esp: U32)
    requires data % PROCESS_DATA_SIZE == 0 && pid < slots && data + slots * PROCESS_DATA_SIZE <= WORD
    ensures DataAt(esp) == data + pid * PROCESS_DATA_SIZE <==> data + pid * PROCESS_DATA_SIZE <= esp < BaseEsp(data, pid)
  {
    DataAtRoundsDown(esp);
    var d, q := data / PROCESS_DATA_SIZE, esp / PROCESS_DATA_SIZE;
    SameBlock(q, d + pid, esp % PROCESS_DATA_SIZE);
  }

  lemma SameBlock(q: int, k: int, r: int)
    requires 0 <= r < PROCESS_DATA_SIZE
    ensures q * PROCESS_DATA_SIZE == k * PROCESS_DATA_SIZE
       <==> k * PROCESS_DATA_SIZE <= q * PROCESS_DATA_SIZE + r < k * PROCESS_DATA_SIZE + PROCESS_DATA_SIZE
  {
  }
}
