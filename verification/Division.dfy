/** Rounding down: what adding to the dividend does to a quotient. */
module Division {

  lemma MulMonotone(x: int, y: int, k: nat)
    requires x <= y
    ensures x * k <= y * k
  {
    assert 0 <= (y - x) * k == y * k - x * k;
  }

  /** a / k as repeated subtraction. */
  ghost function Quotient(a: nat, k: nat): (q: nat)
    requires k > 0
    ensures q * k <= a < q * k + k
  {
    if a < k then 0 else 1 + Quotient(a - k, k)
  }

  lemma QuotientIs(a: nat, k: nat, q: nat)
    requires k > 0 && q * k <= a < q * k + k
    ensures Quotient(a, k) == q
  {
    var d := Quotient(a, k);
    if d < q {
      MulMonotone(d + 1, q, k);
    } else if q < d {
      MulMonotone(q + 1, d, k);
    }
  }

  lemma QuotientIsDivision(a: nat, k: nat)
    requires k > 0
    ensures Quotient(a, k) == a / k
  {
    assert a / k * k <= a < a / k * k + k;
    QuotientIs(a, k, a / k);
  }

  lemma Between(a: nat, n: nat, k: nat, p: nat, q: nat, u: nat, v: nat)
    requires k > 0
    requires p * k <= a < p * k + k && q * k <= n <= v * k && u * k <= a + n < u * k + k
    ensures p + q <= u <= p + v
  {
    assert (p + q) * k == p * k + q * k;
    assert (p + v) * k == p * k + v * k;
    if u < p + q {
      MulMonotone(u + 1, p + q, k);
    }
    if p + v < u {
      MulMonotone(p + v + 1, u, k);
    }
  }

  /** Adding n to the dividend adds n / k to the quotient, rounded down or up. */
  lemma QuotientOfSum(a: nat, n: nat, k: nat)
    requires k > 0
    ensures a / k + n / k <= (a + n) / k <= a / k + (n + k - 1) / k
  {
    QuotientIsDivision(a, k);
    QuotientIsDivision(n, k);
    QuotientIsDivision(a + n, k);
    QuotientIsDivision(n + k - 1, k);
    Between(a, n, k, Quotient(a, k), Quotient(n, k), Quotient(a + n, k), Quotient(n + k - 1, k));
  }

  /** Dividing a smaller multiple gives a smaller quotient. */
  lemma QuotientBound(a: nat, k: nat, n: nat)
    requires k > 0 && a <= n * k
    ensures a / k <= n
    ensures a == n * k ==> a / k == n
  {
    QuotientIsDivision(a, k);
    var q := Quotient(a, k);
    if n < q {
      MulMonotone(n + 1, q, k);
    }
    if a == n * k {
      QuotientIs(a, k, n);
    }
  }
}
