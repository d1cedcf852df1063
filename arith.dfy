/** Small facts about Euclidean division and powers of two that the codec and coordinate proofs share. */
module Arith {
  lemma MulNonNeg(a: int, b: int)
    requires a >= 0 && b >= 0
    ensures a * b >= 0
  {
  }

  lemma MulAssoc(a: int, b: int, c: int)
    ensures a * (b * c) == (a * b) * c == b * (a * c)
  {
  }

  lemma MulNegRight(a: int, b: int)
    ensures a * (-b) == -(a * b)
  {
  }

  lemma Distrib(a: int, b: int, c: int)
    ensures a * (b + c) == a * b + a * c
  {
  }

  lemma MulLe(p: int, q: int)
    requires p >= 1 && q >= 0
    ensures q <= p * q
  {
  }

  lemma MulLeMono(a: int, c: int, b: int)
    requires a <= c && b >= 0
    ensures a * b <= c * b
  {
  }


  lemma MulStrictBound(d: int, k: int)
    requires d > 0
    requires -d < d * k < d
    ensures k == 0
  {
    if k >= 1 {
      MulNonNeg(d, k - 1);
    } else if k <= -1 {
      MulNonNeg(d, -k - 1);
    }
  }

  /** Quotient and remainder are determined by the division identity. */
  lemma DivModUnique(v: int, d: int, q: int, r: int)
    requires d > 0 && 0 <= r < d && v == d * q + r
    ensures v / d == q && v % d == r
  {
    var q0, r0 := v / d, v % d;
    assert v == d * q0 + r0;
    assert d * (q - q0) == r0 - r;
    MulStrictBound(d, q - q0);
  }

  lemma DivDiv(v: int, a: int, b: int)
    requires a > 0 && b > 0
    ensures (v / a) / b == v / (a * b)
  {
    var q := v / a;
    var q2 := q / b;
    var r2 := q % b;
    assert v == a * q + v % a;
    assert q == b * q2 + r2;
    assert a * q == a * (b * q2 + r2);
    assert a * (b * q2 + r2) == (a * b) * q2 + a * r2;
    MulNonNeg(a, r2);
    MulNonNeg(a, b - 1 - r2);
    assert a * r2 + a * (b - 1 - r2) == a * b - a;
    MulNonNeg(a, b);
    DivModUnique(v, a * b, q2, a * r2 + v % a);
  }

  lemma MulDivCancel(v: int, m: int)
    requires m > 0
    ensures (v * m) / m == v && (v * m) % m == 0
  {
    DivModUnique(v * m, m, v, 0);
  }

  /** Adding a multiple of the divisor shifts the quotient and keeps the remainder. */
  lemma DivModAddMultiple(v: int, d: int, k: int)
    requires d > 0
    ensures (v + d * k) / d == v / d + k && (v + d * k) % d == v % d
  {
    assert v == d * (v / d) + v % d;
    assert v + d * k == d * (v / d + k) + v % d;
    DivModUnique(v + d * k, d, v / d + k, v % d);
  }

  function Pow2(n: nat): (r: nat)
    ensures r >= 1
  {
    if n == 0 then 1 else 2 * Pow2(n - 1)
  }

  lemma {:induction false} Pow2Add(a: nat, b: nat)
    ensures Pow2(a + b) == Pow2(a) * Pow2(b)
    decreases a
  {
    if a > 0 {
      Pow2Add(a - 1, b);
      assert Pow2(a + b) == 2 * Pow2(a - 1 + b);
      MulAssoc(2, Pow2(a - 1), Pow2(b));
    }
  }

  lemma {:induction false} Pow2Monotone(a: nat, b: nat)
    requires a <= b
    ensures Pow2(a) <= Pow2(b)
    decreases b - a
  {
    if a < b {
      Pow2Monotone(a, b - 1);
    }
  }

  /** A bound on a digit-shifted sum: staying below `m * n` after scaling. */
  lemma MulAddBound(x: int, m: int, y: int, n: int)
    requires 0 <= x < m && 0 <= y < n
    ensures 0 <= x + m * y < m * n
  {
    MulNonNeg(m, y);
    MulNonNeg(m, n - 1 - y);
    assert m * y + m * (n - 1 - y) == m * n - m;
  }
}
