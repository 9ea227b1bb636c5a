/** The scalar helpers the drive code takes from java.lang.Math, over the reals
    (so without NaN, infinities or a signed zero). */
module Numeric {

  /** Math.abs */
  function Abs(v: real): (r: real)
    ensures 0.0 <= r
    ensures r == v || r == -v
  {
    if v < 0.0 then -v else v
  }

  /** Math.max */
  function Max(a: real, b: real): (r: real)
    ensures a <= r && b <= r
    ensures r == a || r == b
  {
    if a >= b then a else b
  }

  /** Math.min */
  function Min(a: real, b: real): (r: real)
    ensures r <= a && r <= b
    ensures r == a || r == b
  {
    if a <= b then a else b
  }

  /** Arithmetic facts about products and quotients by a positive factor `q`,
      proved once. Callers pass each factor as a single term (a variable or a
      function application) so that the products they reason about are the
      products these facts speak of. */
  lemma MulPositive(a: real, q: real)
    requires 0.0 < a && 0.0 < q
    ensures 0.0 < a * q
  {
  }

  lemma MulNegative(a: real, q: real)
    requires a < 0.0 && 0.0 < q
    ensures a * q < 0.0
  {
  }

  /** Scaling by a positive factor keeps the sign. */
  lemma SignKept(a: real, q: real)
    requires 0.0 < q
    ensures 0.0 < a * q <==> 0.0 < a
    ensures a * q < 0.0 <==> a < 0.0
  {
    if 0.0 < a {
      MulPositive(a, q);
    } else if a < 0.0 {
      MulNegative(a, q);
    }
  }

  /** A product vanishes exactly when one of its factors does. */
  lemma MulZero(a: real, q: real)
    ensures a * q == 0.0 <==> a == 0.0 || q == 0.0
  {
  }

  lemma MulMonotone(a: real, b: real, q: real)
    requires a <= b && 0.0 <= q
    ensures a * q <= b * q
  {
  }

  lemma MulStrict(a: real, b: real, q: real)
    requires a < b && 0.0 < q
    ensures a * q < b * q
  {
  }

  lemma MulAtMost(t: real, q: real)
    requires t <= 1.0 && 0.0 <= q
    ensures t * q <= q
  {
    assert t * q <= 1.0 * q;
  }

  lemma MulCancel(a: real, b: real, q: real)
    requires 0.0 < q
    requires a * q == b * q
    ensures a == b
  {
    if a < b {
      MulStrict(a, b, q);
    } else if b < a {
      MulStrict(b, a, q);
    }
  }

  lemma DivFacts(n: real, q: real)
    requires 0.0 < q
    ensures (n / q) * q == n
    ensures 0.0 < n / q <==> 0.0 < n
    ensures n / q < 0.0 <==> n < 0.0
    ensures n / q == 0.0 <==> n == 0.0
  {
    var t := n / q;
    assert t * q == n;
    if 0.0 < t {
      MulPositive(t, q);
    } else if t < 0.0 {
      MulNegative(t, q);
    }
  }

  /** A quotient is the unique factor that multiplies back to the dividend. */
  lemma DivUnique(n: real, q: real, t: real)
    requires 0.0 < q
    requires t * q == n
    ensures n / q == t
  {
    DivFacts(n, q);
    MulCancel(n / q, t, q);
  }

  /** Dividing by a positive factor keeps order. */
  lemma DivMonotone(m: real, n: real, q: real)
    requires m <= n && 0.0 < q
    ensures m / q <= n / q
  {
    DivFacts(m, q);
    DivFacts(n, q);
    if n / q < m / q {
      MulStrict(n / q, m / q, q);
    }
  }
}
