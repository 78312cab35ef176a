/** Division with remainder, as the proofs about routing need it. */
module Remainders {

  lemma Multiple(p: int, d: int)
    requires p >= 0
    ensures d > 0 ==> p * d >= p
    ensures d < 0 ==> p * d <= -p
  {
  }

  /** Quotient and remainder are unique. */
  lemma Quotient(n: int, p: nat, q: int, r: nat)
    requires p > 0 && n == p * q + r && r < p
    ensures n % p == r && n / p == q
  {
    var d := q - n / p;
    assert n == p * (n / p) + n % p;
    assert p * d == n % p - r;
    Multiple(p, d);
  }

  /** The quotient and remainder of the next number. */
  lemma NextRound(n: nat, p: nat)
    requires p > 0
    ensures (n % p + 1) % p == (n + 1) % p
    ensures if n % p + 1 == p then (n + 1) / p == n / p + 1 && (n + 1) % p == 0
            else (n + 1) / p == n / p && (n + 1) % p == n % p + 1
  {
    var q, r := n / p, n % p;
    assert n == p * q + r;
    if r + 1 == p {
      assert n + 1 == p * (q + 1);
      Quotient(n + 1, p, q + 1, 0);
      Quotient(r + 1, p, 1, 0);
    } else {
      Quotient(n + 1, p, q, r + 1);
      Quotient(r + 1, p, 0, r + 1);
    }
  }

  /** The remainder is the one number below `p` that differs by a multiple of it. */
  lemma RemainderIff(n: int, p: nat, i: nat)
    requires i < p
    ensures n % p == i <==> (n - i) % p == 0
  {
    if n % p == i {
      Quotient(n - i, p, n / p, 0);
    }
    if (n - i) % p == 0 {
      Quotient(n, p, (n - i) / p, i);
    }
  }

  lemma Negated(n: int, p: nat)
    requires p > 0
    ensures n % p == 0 <==> (-n) % p == 0
  {
    if n % p == 0 {
      assert -n == p * -(n / p);
      Quotient(-n, p, -(n / p), 0);
    }
    if (-n) % p == 0 {
      assert n == p * -((-n) / p);
      Quotient(n, p, -((-n) / p), 0);
    }
  }
}
