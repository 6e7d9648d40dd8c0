/** Division with remainder by a variable, from its definition. */
module Remainders {
  lemma Multiples(m: nat, a: nat, b: nat)
    requires a <= b
    ensures m * a <= m * b && m * a == m * (a - 1) + m
  {
  }

  lemma SameQuotient(m: nat, q: nat, r: nat, q': nat, r': nat)
    requires r < m && r' < m && m * q + r == m * q' + r'
    ensures q == q' && r == r'
  {
    if q < q' {
      Multiples(m, q + 1, q');
    } else if q' < q {
      Multiples(m, q' + 1, q);
    }
  }

  lemma Distributes(m: nat, a: nat, b: nat)
    ensures m * (a + b) == m * a + m * b
  {
  }

  /** Multiples of `n` do not change a remainder. */
  lemma Shift(q: nat, b: nat, n: nat)
    requires n > 0
    ensures (n * q + b) % n == b % n
  {
    var all := n * q + b;
    Distributes(n, q, b / n);
    SameQuotient(n, all / n, all % n, q + b / n, b % n);
  }

  lemma Add(a: nat, d: nat, n: nat)
    requires n > 0
    ensures (a + d) % n == (a % n + d) % n
  {
    var q, r := Euclid(a, n);
    AddTo(a, q, r, d, n);
  }

  lemma Euclid(a: nat, n: nat) returns (q: nat, r: nat)
    requires n > 0
    ensures a == n * q + r && r == a % n
  {
    q, r := a / n, a % n;
  }

  lemma AddTo(a: nat, q: nat, r: nat, d: nat, n: nat)
    requires n > 0 && a == n * q + r
    ensures (a + d) % n == (r + d) % n
  {
    Shift(q, r + d, n);
  }

  lemma Small(a: nat, n: nat)
    requires a < n
    ensures a % n == a && a / n == 0
  {
    SameQuotient(n, a / n, a % n, 0, a);
  }

  lemma Once(a: nat, n: nat)
    requires a < n
    ensures (n + a) % n == a
  {
    Shift(1, a, n);
    Small(a, n);
  }
}
