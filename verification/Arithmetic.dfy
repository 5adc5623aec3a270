/** Division twice over, which places the digits of a number to any base. */
module Arithmetic {

  lemma Quotient(n: nat, a: nat, r: nat, m: nat)
    requires r < m && n == a * m + r
    ensures n / m == a
  {
    var q: int, s: int := n / m, n % m;
    assert (q - a) * m == r - s;
    assert q - a >= 1 ==> (q - a) * m >= m;
    assert a - q >= 1 ==> (a - q) * m >= m;
  }

  lemma DivideTwice(n: nat, base: nat, p: nat)
    requires base > 0 && p > 0
    ensures base * p > 0 && n / (base * p) == n / base / p
  {
    var (q, r) := (n / base, n % base);
    var (a, b) := (q / p, q % p);
    Regrouped(n, base, p, q, r, a, b);
    Quotient(n, a, base * b + r, base * p);
  }

  lemma Regrouped(n: nat, base: nat, p: nat, q: nat, r: nat, a: nat, b: nat)
    requires n == q * base + r && r < base && q == a * p + b && b < p
    ensures n == a * (base * p) + (base * b + r) && base * b + r < base * p
  {
    assert q * base == a * (base * p) + base * b;
    assert base * b + base <= base * p by {
      assert b + 1 <= p;
      Grows(base, b + 1, p);
    }
  }

  lemma Grows(k: nat, a: nat, b: nat)
    requires a <= b
    ensures k * a <= k * b
  {}
}
