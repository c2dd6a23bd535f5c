/** Small shared vocabulary: an optional value (JavaScript's `null`) and the
    integer arithmetic facts the tour engine relies on. */
module Common {

  /** A value that may be absent; `None` stands for JavaScript's `null`. */
  datatype Option<+T> = None | Some(value: T)

  function Min(a: int, b: int): int
  {
    if a <= b then a else b
  }

  /** Multiplying both sides of `a <= b` by the same non-negative factor. */
  lemma {:induction false} MulMonotone(a: int, b: int, m: nat)
    requires a <= b
    ensures a * m <= b * m
  {
    var d := b - a;
    assert b * m == a * m + d * m;
  }

  /** One more factor of `m`. */
  lemma {:induction false} MulSucc(k: int, m: int)
    ensures (k + 1) * m == k * m + m
  {
  }

  /** Integer division is pinned down by the quotient's defining bounds. */
  lemma {:induction false} DivIsQuotient(n: int, m: int, q: int)
    requires m > 0
    requires q * m <= n < q * m + m
    ensures n / m == q
  {
    var q' := n / m;
    var r := n % m;
    assert n == q' * m + r && 0 <= r < m;
    if q' < q {
      MulMonotone(q' + 1, q, m);
    } else if q' > q {
      MulMonotone(q + 1, q', m);
    }
  }

  /** Comparing against a floored quotient is the same as comparing the
      product: `k > floor(total / per)` exactly when `k * per > total`. */
  lemma {:induction false} AboveQuotient(k: int, total: int, per: int)
    requires per > 0
    ensures k > total / per <==> k * per > total
  {
    var q := total / per;
    var r := total % per;
    assert total == q * per + r && 0 <= r < per;
    if k > q {
      MulMonotone(q + 1, k, per);
    } else {
      MulMonotone(k, q, per);
    }
  }
}
