/** Squares among the reals. There is no square root here, but squares come as close to a number as one likes: steps of
    one size climb to the last square below it. Where a model needs the root of some number in an interval, a square in
    the interval and its root do. Products are compared by the sign of their difference. */
module Roots {
  import opened Arithmetic

  /** A factor above zero keeps the sign. */
  lemma SameSign(m: real, x: real)
    requires m > 0.0
    ensures Times(m, x) > 0.0 <==> x > 0.0
    ensures Times(m, x) < 0.0 <==> x < 0.0
  {
  }

  lemma PositiveProduct(x: real, y: real)
    requires x > 0.0 && y > 0.0
    ensures Times(x, y) > 0.0
  {
  }

  lemma PositiveQuotient(x: real, a: real)
    requires 0.0 < x && 0.0 < a
    ensures 0.0 < x / a
  {
    assert (x / a) * a == x;
  }

  lemma RootsCompare(x: real, y: real)
    requires x >= 0.0 && y > 0.0
    ensures x * x < y * y <==> x < y
    ensures x * x == y * y <==> x == y
  {
    var s := x + y;
    SameSign(s, y - x);
    assert Times(s, y - x) == y * y - x * x;
  }

  /** The square of `k` steps. */
  function Square(k: nat, eps: real): real { Times(Times(k as real, eps), Times(k as real, eps)) }

  /** The last square below `q`. */
  lemma Climb(q: real, eps: real, k: nat, n: nat) returns (last: nat)
    requires k < n && Square(k, eps) < q <= Square(n, eps)
    ensures k <= last && Square(last, eps) < q <= Square(last + 1, eps)
    decreases n - k
  {
    hide Square;
    if Square(k + 1, eps) >= q {
      last := k;
    } else {
      last := Climb(q, eps, k + 1, n);
    }
  }

  lemma BelowOneMore(x: real, q: real)
    requires 0.0 <= x && Times(x, x) < q
    ensures x < q + 1.0
  {
    if x >= 1.0 {
      TimesMono(x, 1.0, x);
    }
  }

  /** So many steps go beyond any number. */
  lemma StepsBeyond(q: real, eps: real) returns (n: nat)
    requires 0.0 < eps && 0.0 < q
    ensures n >= 2 && q <= Square(n, eps)
  {
    var y := (q + 1.0) / eps;
    PositiveQuotient(q + 1.0, eps);
    n := y.Floor + 2;
    var x := Times(n as real, eps);
    assert y * eps == q + 1.0;
    TimesMono(eps, y, n as real);
    assert x >= q + 1.0;
    TimesMono(x, 1.0, x);
    hide Times;
  }

  /** Squares come as close to a number from below as one likes. */
  lemma SquareBelow(q: real, gap: real) returns (r: real)
    requires 0.0 < q && 0.0 < gap
    ensures 0.0 < r && q - gap < r * r < q
  {
    hide Times, Square;
    var eps := StepSize(q, gap);
    var n := StepsBeyond(q, eps);
    StepsAdd(1, eps);
    var k := Climb(q, eps, 1, n);
    StepsAdd(k, eps);
    StepsAdd(k + 1, eps);
    r := Times(k as real, eps);
    PositiveProduct(k as real, eps);
    BelowOneMore(r, q);
    StepSquare(r, eps, q);
    SquareIs(r);
  }

  lemma StepsAdd(k: nat, eps: real)
    ensures Times((k + 1) as real, eps) == Times(k as real, eps) + eps && Times(1 as real, eps) == eps
    ensures Square(k, eps) == Times(Times(k as real, eps), Times(k as real, eps))
  {
  }

  lemma SquareIs(x: real)
    ensures x * x == Times(x, x)
  {
  }

  /** A step so small that one of them changes a square below `q` by less than the gap. */
  lemma StepSize(q: real, gap: real) returns (eps: real)
    requires 0.0 < q && 0.0 < gap
    ensures 0.0 < eps <= 1.0 && Times(eps, eps) < q && Times(2.0 * q + 4.0, eps) <= gap
  {
    var k := 2.0 * q + 4.0;
    var a, b := Min(1.0, q) / 2.0, gap / k;
    PositiveQuotient(gap, k);
    assert b * k == gap;
    eps := Min(a, b);
    TimesMono(eps, eps, 1.0);
    TimesMono(k, eps, b);
    assert Times(eps, 1.0) == eps && Times(k, b) == gap;
    hide Times;
  }

  lemma StepSquare(r: real, eps: real, q: real)
    requires 0.0 < eps <= 1.0 && 0.0 <= r < q + 1.0
    ensures Times(r + eps, r + eps) - Times(r, r) < Times(2.0 * q + 4.0, eps)
  {
    var k := 2.0 * q + 4.0 - 2.0 * r - eps;
    PositiveProduct(eps, k);
    assert Times(r + eps, r + eps) - Times(r, r) == eps * (2.0 * r + eps);
    assert Times(2.0 * q + 4.0, eps) - eps * (2.0 * r + eps) == Times(eps, k);
  }

  /** Between the square of `a` and `b` lies a square. */
  lemma SquareBetween(a: real, b: real) returns (r: real)
    requires 0.0 < a && a * a < b
    ensures a < r && r * r <= b
  {
    r := SquareBelow(b, b - a * a);
    RootsCompare(a, r);
  }
}
