/** Facts about multiples that the solver does not find by itself. */
module Arith {

  lemma Apart(p: int, m: nat, k: nat)
    ensures (p + 1 + m) * k == p * k + k + m * k && m * k >= 0
  {
  }

  lemma Scaled(p: int, q: int, k: int)
    requires 0 <= k
    ensures p < q ==> p * k + k <= q * k
    ensures q < p ==> q * k + k <= p * k
  {
    if p < q {
      Apart(p, q - p - 1, k);
    } else if q < p {
      Apart(q, p - q - 1, k);
    }
  }

  lemma Quotient(n: int, q: int, k: int)
    requires 1 <= k && q * k <= n < q * k + k
    ensures n / k == q && n % k == n - q * k
  {
    Scaled(n / k, q, k);
    assert n == n / k * k + n % k;
  }

  lemma Monotone(q: nat, a: int, b: int)
    requires a <= b
    ensures q * a <= q * b
  {
    assert q * (b - a) >= 0;
  }

  lemma Distributes(q: int, a: int, b: int)
    ensures q * (a + b) == q * a + q * b && (a + b) * q == q * a + q * b
  {
  }
}
