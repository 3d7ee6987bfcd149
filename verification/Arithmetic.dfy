/** The few facts about products and quotients the other modules need. */
module Arithmetic {

  lemma Scaled(a: int, b: int, n: int)
    requires a <= b && n >= 0
    ensures a * n <= b * n
    ensures a < b && n > 0 ==> a * n < b * n
  {
  }

  lemma ByProduct(a: int, b: int, n: int)
    requires n >= 0 && a * n < b * n
    ensures a < b
  {
    if b <= a {
      Scaled(b, a, n);
    }
  }

  /** A quotient and remainder in range are the quotient and remainder. */
  lemma DivisionIs(x: nat, n: nat, q: nat, r: nat)
    requires n > 0 && x == q * n + r && r < n
    ensures x / n == q && x % n == r
  {
    var q', r' := x / n, x % n;
    assert x == q' * n + r';
    assert q * n < (q' + 1) * n;
    assert q' * n < (q + 1) * n;
    ByProduct(q, q' + 1, n);
    ByProduct(q', q + 1, n);
  }

  /** Go's quotient of two non-negative durations. */
  function Quotient(x: nat, n: nat): (q: int)
    requires n > 0
    ensures q * n <= x < (q + 1) * n && q >= 0
  {
    var q := x / n;
    assert x == q * n + x % n;
    assert (q + 1) * n == q * n + n;
    assert q >= 0 by {
      if q < 0 {
        Scaled(q, -1, n);
      }
    }
    q
  }

  lemma QuotientAtMost(x: nat, n: nat, m: nat)
    requires n > 0
    ensures Quotient(x, n) <= m <==> x < (m + 1) * n
  {
    var q := Quotient(x, n);
    if q <= m {
      Scaled(q + 1, m + 1, n);
    } else {
      Scaled(m + 1, q, n);
    }
  }

  lemma QuotientGrows(x: nat, y: nat, n: nat)
    requires n > 0 && x <= y
    ensures Quotient(x, n) <= Quotient(y, n)
  {
    ByProduct(Quotient(x, n), Quotient(y, n) + 1, n);
  }
}
