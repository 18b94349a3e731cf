/** Facts about Dafny's Euclidean `%` that the group and field models rely on.
    Every lemma is stated for an arbitrary positive modulus. */
module Modular {

  /** Euclidean division is unique: any decomposition y == m*q + r with
      0 <= r < m is the one `/` and `%` produce. */
  lemma DivModUnique(y: int, m: int, q: int, r: int)
    requires m > 0 && y == m * q + r && 0 <= r < m
    ensures y % m == r && y / m == q
  {
    var q', r' := y / m, y % m;
    assert y == m * q' + r' && 0 <= r' < m;
    assert m * (q - q') == r' - r;
    MulSign(m, q - q');
  }

  /** A nonzero multiple of m is at least m away from zero. */
  lemma MulSign(m: int, d: int)
    requires m > 0
    ensures d >= 1 ==> m * d >= m
    ensures d <= -1 ==> m * d <= -m
  {
    if d >= 1 {
      MulMonotone(m, 1, d);
    } else if d <= -1 {
      MulMonotone(m, d, -1);
    }
  }

  lemma MulMonotone(m: int, a: int, b: int)
    requires m >= 0 && a <= b
    ensures m * a <= m * b
  {
    assert m * b - m * a == m * (b - a);
  }

  /** Adding a multiple of the modulus does not change the residue. */
  lemma ModAddMultiple(x: int, k: int, m: int)
    requires m > 0
    ensures (x + m * k) % m == x % m
  {
    assert x + m * k == m * (x / m + k) + x % m;
    DivModUnique(x + m * k, m, x / m + k, x % m);
  }

  lemma ModOfResidue(x: int, m: int)
    requires m > 0
    ensures (x % m) % m == x % m
  {
    DivModUnique(x % m, m, 0, x % m);
  }

  lemma ModOfSmall(x: int, m: int)
    requires 0 <= x < m
    ensures x % m == x
  {
    DivModUnique(x, m, 0, x);
  }

  lemma ModAtMost(x: int, m: int)
    requires x >= 0 && m > 0
    ensures x % m <= x
  {
    if x < m {
      ModOfSmall(x, m);
    }
  }

  /** A value in [m, 2m) wraps around exactly once. */
  lemma ModOfWrapped(x: int, m: int)
    requires m > 0 && m <= x < 2 * m
    ensures x % m == x - m
  {
    DivModUnique(x, m, 1, x - m);
  }

  lemma ModAdd(a: int, b: int, m: int)
    requires m > 0
    ensures (a + b) % m == (a % m + b % m) % m
  {
    assert a + b == (a % m + b % m) + m * (a / m + b / m);
    ModAddMultiple(a % m + b % m, a / m + b / m, m);
  }

  lemma ModSub(a: int, b: int, m: int)
    requires m > 0
    ensures (a - b) % m == (a % m - b % m) % m
  {
    assert a - b == (a % m - b % m) + m * (a / m - b / m);
    ModAddMultiple(a % m - b % m, a / m - b / m, m);
  }

  lemma ModMul(a: int, b: int, m: int)
    requires m > 0
    ensures (a * b) % m == ((a % m) * (b % m)) % m
  {
    var qa, ra := a / m, a % m;
    var qb, rb := b / m, b % m;
    assert a == m * qa + ra;
    assert b == m * qb + rb;
    calc {
      a * b;
      (m * qa + ra) * (m * qb + rb);
      { Expand(m, qa, ra, qb, rb); }
      ra * rb + m * (m * qa * qb + qa * rb + ra * qb);
    }
    ModAddMultiple(ra * rb, m * qa * qb + qa * rb + ra * qb, m);
  }

  lemma Expand(m: int, qa: int, ra: int, qb: int, rb: int)
    ensures (m * qa + ra) * (m * qb + rb) == ra * rb + m * (m * qa * qb + qa * rb + ra * qb)
  {
  }

  /** Reducing only the left (resp. right) factor or summand first. */
  lemma ModMulLeft(a: int, b: int, m: int)
    requires m > 0
    ensures (a * b) % m == ((a % m) * b) % m
  {
    ModMul(a, b, m);
    ModMul(a % m, b, m);
    ModOfResidue(a, m);
  }

  lemma ModAddLeft(a: int, b: int, m: int)
    requires m > 0
    ensures (a + b) % m == ((a % m) + b) % m
  {
    ModAdd(a, b, m);
    ModAdd(a % m, b, m);
    ModOfResidue(a, m);
  }
}
