/** Points of a fixed dimension with exact real coordinates, and the vector algebra
    that the clustering proofs rest on. */
module Points {

  type Point = seq<real>

  ghost predicate AllOfDimension(ps: seq<Point>, d: nat) {
    forall i :: 0 <= i < |ps| ==> |ps[i]| == d
  }

  function Zero(d: nat): (r: Point)
    ensures |r| == d
  {
    seq(d, _ => 0.0)
  }

  function Add(a: Point, b: Point): (r: Point)
    requires |a| == |b|
    ensures |r| == |a|
  {
    seq(|a|, i requires 0 <= i < |a| => a[i] + b[i])
  }

  function Sub(a: Point, b: Point): (r: Point)
    requires |a| == |b|
    ensures |r| == |a|
  {
    seq(|a|, i requires 0 <= i < |a| => a[i] - b[i])
  }

  function Div(a: Point, s: real): (r: Point)
    requires s != 0.0
    ensures |r| == |a|
  {
    seq(|a|, i requires 0 <= i < |a| => a[i] / s)
  }

  // A real product, named so that proofs can refer to it as one term.
  function Mul(x: real, y: real): real {
    x * y
  }

  // Scalar product of the first n coordinates.
  function DotTo(a: Point, b: Point, n: nat): real
    requires n <= |a| == |b|
  {
    if n == 0 then 0.0 else DotTo(a, b, n - 1) + Mul(a[n-1], b[n-1])
  }

  function Dot(a: Point, b: Point): real
    requires |a| == |b|
  {
    DotTo(a, b, |a|)
  }

  // Squared Euclidean distance.
  function Dist2(a: Point, b: Point): real
    requires |a| == |b|
  {
    Dot(Sub(a, b), Sub(a, b))
  }

  lemma MulDistributes(x: real, y: real, w: real)
    ensures Mul(x + y, w) == Mul(x, w) + Mul(y, w)
  {
  }

  lemma MulPositive(x: real, y: real)
    requires x > 0.0 && y > 0.0
    ensures Mul(x, y) > 0.0
  {
  }

  lemma MulSquare(x: real)
    ensures Mul(x, x) >= 0.0
    ensures x != 0.0 ==> Mul(x, x) > 0.0
    ensures Mul(-x, -x) == Mul(x, x)
  {
    if x > 0.0 {
      MulPositive(x, x);
    } else if x < 0.0 {
      MulPositive(-x, -x);
    }
  }

  lemma MulSquareSum(x: real, y: real)
    ensures Mul(x + y, x + y) == Mul(x, x) + 2.0 * Mul(x, y) + Mul(y, y)
  {
    MulDistributes(x, y, x + y);
  }

  lemma {:induction false} DotAdditive(a: Point, b: Point, c: Point, w: Point, n: nat)
    requires n <= |a| == |b| == |c| == |w|
    requires forall i :: 0 <= i < n ==> c[i] == a[i] + b[i]
    ensures DotTo(c, w, n) == DotTo(a, w, n) + DotTo(b, w, n)
  {
    if n > 0 {
      DotAdditive(a, b, c, w, n - 1);
      MulDistributes(a[n-1], b[n-1], w[n-1]);
    }
  }

  lemma {:induction false} DotOfZero(z: Point, w: Point, n: nat)
    requires n <= |z| == |w|
    requires forall i :: 0 <= i < n ==> z[i] == 0.0
    ensures DotTo(z, w, n) == 0.0
  {
    if n > 0 {
      DotOfZero(z, w, n - 1);
    }
  }

  lemma {:induction false} SquareNonNegative(v: Point, n: nat)
    requires n <= |v|
    ensures DotTo(v, v, n) >= 0.0
    ensures DotTo(v, v, n) == 0.0 ==> forall i :: 0 <= i < n ==> v[i] == 0.0
  {
    if n > 0 {
      SquareNonNegative(v, n - 1);
      MulSquare(v[n-1]);
    }
  }

  // A squared distance is never negative and vanishes exactly on equal points.
  lemma Dist2Definite(a: Point, b: Point)
    requires |a| == |b|
    ensures Dist2(a, b) >= 0.0
    ensures Dist2(a, b) == 0.0 <==> a == b
  {
    SquareNonNegative(Sub(a, b), |a|);
    if a == b {
      DotOfZero(Sub(a, b), Sub(a, b), |a|);
    } else if Dist2(a, b) == 0.0 {
      forall i | 0 <= i < |a| ensures a[i] == b[i] {
        assert Sub(a, b)[i] == 0.0;
      }
    }
  }

  lemma {:induction false} SquarePrefix(u: Point, v: Point, n: nat)
    requires n <= |u| && n <= |v| && forall i :: 0 <= i < n ==> u[i] == v[i]
    ensures DotTo(u, u, n) == DotTo(v, v, n)
  {
    if n > 0 {
      SquarePrefix(u, v, n - 1);
    }
  }

  lemma {:induction false} SquareConcat(u: Point, v: Point, n: nat)
    requires n <= |v|
    ensures DotTo(u + v, u + v, |u| + n) == DotTo(u, u, |u|) + DotTo(v, v, n)
  {
    if n > 0 {
      SquareConcat(u, v, n - 1);
    } else {
      SquarePrefix(u + v, u, |u|);
    }
  }

  // Coordinates add up: each contributes to a squared distance on its own, all with the same weight.
  lemma Dist2Concat(a: Point, b: Point, x: Point, y: Point)
    requires |a| == |b| && |x| == |y|
    ensures Dist2(a + x, b + y) == Dist2(a, b) + Dist2(x, y)
  {
    assert Sub(a + x, b + y) == Sub(a, b) + Sub(x, y);
    SquareConcat(Sub(a, b), Sub(x, y), |x|);
  }

  // One coordinate contributes the square of its difference.
  lemma Dist2OnLine(x: real, y: real)
    ensures Dist2([x], [y]) == (x - y) * (x - y)
  {
    assert Sub([x], [y]) == [x - y];
    assert DotTo([x - y], [x - y], 0) == 0.0;
    assert DotTo([x - y], [x - y], 1) == Mul(x - y, x - y);
  }

  lemma {:induction false} SquareOfNegation(u: Point, v: Point, n: nat)
    requires n <= |u| == |v|
    requires forall i :: 0 <= i < n ==> u[i] == -v[i]
    ensures DotTo(u, u, n) == DotTo(v, v, n)
  {
    if n > 0 {
      SquareOfNegation(u, v, n - 1);
      MulSquare(v[n-1]);
    }
  }

  lemma Dist2Symmetric(a: Point, b: Point)
    requires |a| == |b|
    ensures Dist2(a, b) == Dist2(b, a)
  {
    SquareOfNegation(Sub(a, b), Sub(b, a), |a|);
  }

  lemma {:induction false} SquareSplit(p: Point, q: Point, s: Point, n: nat)
    requires n <= |p| == |q| == |s|
    requires forall i :: 0 <= i < n ==> s[i] == p[i] + q[i]
    ensures DotTo(s, s, n) == DotTo(p, p, n) + 2.0 * DotTo(p, q, n) + DotTo(q, q, n)
  {
    if n > 0 {
      SquareSplit(p, q, s, n - 1);
      MulSquareSum(p[n-1], q[n-1]);
    }
  }

  // Moving the reference point from c to m changes a squared distance by this much.
  lemma Dist2Shift(x: Point, m: Point, c: Point)
    requires |x| == |m| == |c|
    ensures Dist2(x, c) == Dist2(x, m) + 2.0 * Dot(Sub(x, m), Sub(m, c)) + Dist2(m, c)
  {
    SquareSplit(Sub(x, m), Sub(m, c), Sub(x, c), |x|);
  }
}
