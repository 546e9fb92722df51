/** Integer division that rounds half away from zero, over JavaScript's truncating BigInt division. */
module Rounding {

  function Abs(x: int): nat {
    if x < 0 then -x else x
  }

  /** BigInt division: towards zero. */
  function Trunc(n: int, d: int): int
    requires d != 0
  {
    if (n < 0) == (d < 0) then Abs(n) / Abs(d) else -(Abs(n) / Abs(d))
  }

  function Divide(n: int, d: int): int
    requires d != 0
  {
    var quotient := Trunc(n, d);
    var remainder := n - d * quotient;
    if Abs(remainder * 2) >= d then quotient + (if n < 0 then -1 else 1) else quotient
  }

  /** `q` is the integer nearest to n/d, the one farther from zero on a tie. */
  predicate Nearest(n: int, d: int, q: int) {
    var error := 2 * Abs(n - d * q);
    error < Abs(d) || (error == Abs(d) && if n < 0 then d * q < n else n < d * q)
  }

  // ---------- truncation ----------

  lemma EuclidParts(a: nat, b: nat)
    requires b > 0
    ensures 0 <= a - b * (a / b) < b
  {
  }

  /** Division by -b and by b differ in sign only. */
  lemma NegatedProduct(d: int, q: int)
    ensures d * -q == -(d * q) && -d * q == -(d * q)
  {
  }

  lemma TruncParts(n: int, d: int)
    requires d != 0
    ensures
      var r := n - d * Trunc(n, d);
      && Abs(r) < Abs(d)
      && (n >= 0 ==> r >= 0) && (n <= 0 ==> r <= 0)
      && (n == 0 ==> Trunc(n, d) == 0)
  {
    var q := Abs(n) / Abs(d);
    EuclidParts(Abs(n), Abs(d));
    NegatedProduct(d, q);
    assert n == 0 ==> q == 0;
  }

  // ---------- what Divide computes ----------

  lemma MultiplesAreApart(d: int, p: int, q: int)
    requires d != 0 && p < q
    ensures if d > 0 then d * q >= d * p + d else d * q <= d * p + d
  {
    var k: nat := q - p - 1;
    assert d * q == d * p + d + d * k by {
      assert q == p + 1 + k;
    }
    MultipleSign(d, k);
  }

  lemma MultipleSign(d: int, k: nat)
    ensures if d > 0 then d * k >= 0 else d * k <= 0
  {
  }

  lemma NearestIsUnique(n: int, d: int, p: int, q: int)
    requires d != 0 && Nearest(n, d, p) && Nearest(n, d, q)
    ensures p == q
  {
    if p < q {
      MultiplesAreApart(d, p, q);
    } else if q < p {
      MultiplesAreApart(d, q, p);
    }
  }

  lemma DivideIsNearest(n: int, d: int)
    requires d > 0
    ensures Nearest(n, d, Divide(n, d))
  {
    TruncParts(n, d);
    var q := Trunc(n, d);
    assert d * (q + 1) == d * q + d && d * (q - 1) == d * q - d;
  }

  /** With a negative denominator the test on the remainder always holds and the correction goes the wrong way. */
  lemma DivideMisses(n: int, d: int)
    requires d < 0
    ensures !Nearest(n, d, Divide(n, d))
  {
    TruncParts(n, d);
    var q := Trunc(n, d);
    assert d * (q + 1) == d * q + d && d * (q - 1) == d * q - d;
  }

  /** The helper rounds half away from zero exactly when its denominator is positive. */
  lemma DivideIsNearestIff(n: int, d: int)
    requires d != 0
    ensures Nearest(n, d, Divide(n, d)) <==> d > 0
  {
    if d > 0 {
      DivideIsNearest(n, d);
    } else {
      DivideMisses(n, d);
    }
  }

  lemma DivideIs(n: int, d: int, q: int)
    requires d > 0 && Nearest(n, d, q)
    ensures Divide(n, d) == q
  {
    DivideIsNearest(n, d);
    NearestIsUnique(n, d, Divide(n, d), q);
  }

  lemma NearestIsOdd(n: int, d: int, q: int)
    requires d > 0 && n != 0 && Nearest(n, d, q)
    ensures Nearest(-n, d, -q)
  {
    assert d * -q == -(d * q);
  }

  lemma DivideIsOdd(n: int, d: int)
    requires d > 0
    ensures Divide(-n, d) == -Divide(n, d)
  {
    if n != 0 {
      DivideIsNearest(n, d);
      NearestIsOdd(n, d, Divide(n, d));
      DivideIs(-n, d, -Divide(n, d));
    } else {
      TruncParts(0, d);
    }
  }

  lemma DivideIsMonotone(m: int, n: int, d: int)
    requires d > 0 && m <= n
    ensures Divide(m, d) <= Divide(n, d)
  {
    DivideIsNearest(m, d);
    DivideIsNearest(n, d);
    if Divide(n, d) < Divide(m, d) {
      MultiplesAreApart(d, Divide(n, d), Divide(m, d));
    }
  }
}
