/** Products and quotients with a variable divisor. */
module Arithmetic {
  lemma MulMono(a: int, b: int, p: nat)
    requires a <= b
    ensures a * p <= b * p
  {
    MulNonNegative(b - a, p);
    assert (b - a) * p == b * p - a * p;
  }

  lemma MulNonNegative(a: nat, p: nat)
    ensures a * p >= 0
  {
  }

  /** a * p lies between -p and p only for a = 0. */
  lemma SmallMultiple(a: int, p: nat)
    requires 0 - p < a * p < p
    ensures a == 0
  {
    if a >= 1 { MulMono(1, a, p); }
    if a <= -1 { MulMono(a, -1, p); }
  }

  lemma DivUnique(x: int, p: nat, q: int, r: int)
    requires p > 0 && x == q * p + r && 0 <= r < p
    ensures x / p == q && x % p == r
  {
    var d := x / p - q;
    assert x == x / p * p + x % p;
    assert d * p == x / p * p - q * p;
    SmallMultiple(d, p);
  }

  lemma MultipleDiv(q: int, p: nat)
    requires p > 0
    ensures q * p / p == q && q * p % p == 0
  {
    DivUnique(q * p, p, q, 0);
  }

  lemma DivMono(a: int, b: int, p: nat)
    requires p > 0 && a <= b
    ensures a / p <= b / p
  {
    var d := b / p - a / p;
    Parts(a, p);
    Parts(b, p);
    assert d * p == b / p * p - a / p * p;
    if d <= -1 { MulMono(d, -1, p); }
  }

  lemma Parts(x: int, p: nat)
    requires p > 0
    ensures x == x / p * p + x % p && 0 <= x % p < p
  {
  }

  /** Counting up goes round. */
  lemma ModSucc(n: nat, p: nat)
    requires p > 0
    ensures (n + 1) % p == if n % p + 1 == p then 0 else n % p + 1
    ensures (n + 1) / p == if n % p + 1 == p then n / p + 1 else n / p
  {
    Parts(n, p);
    if n % p + 1 == p {
      assert (n / p + 1) * p == n / p * p + p;
      DivUnique(n + 1, p, n / p + 1, 0);
    } else {
      DivUnique(n + 1, p, n / p, n % p + 1);
    }
  }
}
