/** When the single-threaded loop, which resets empty clusters to the origin, returns a fixed point
    of the iteration: a condition on the points that guarantees it, and inputs the seeding can
    produce for which it fails, or holds although the guarantee does not apply. */
module ResetExits {
  import opened Points
  import opened Lloyd
  import opened LloydLoop
  import opened Seeding
  import KmeansPP
  import KmeansSingleThread

  // ----- points in general position -----

  // In no assignment to k clusters that leaves one of lower number empty is a point exactly as
  // near to the origin as to the mean of its own cluster.
  ghost predicate NoMeanTie(points: seq<Point>, k: nat, d: nat)
    requires AllOfDimension(points, d)
  {
    forall idx: Assignment, i: nat, j: nat ::
      Assigns(idx, |points|, k) && i < |points| && j < idx[i] && Count(idx, j) == 0 && Count(idx, idx[i]) > 0 ==>
        Dist2(points[i], Zero(d)) != Dist2(points[i], Mean(points, idx, idx[i], d))
  }

  lemma NoMeanTieNoResetTie(points: seq<Point>, q: seq<Point>, d: nat)
    requires Clusters(points, q, d) && CostOf(points, StepReset(points, q, d), d) == CostOf(points, q, d)
    requires NoMeanTie(points, |q|, d)
    ensures KmeansSingleThread.NoResetTie(points, q, d)
  {
    hide Dist2, CostTo, CountTo, Mean, Nearest;
    KmeansSingleThread.StallFacts(points, q, d);
    var idx := Assign(points, q, d);
    forall i: nat, j: nat | i < |points| && j < idx[i] && Count(idx, j) == 0
      ensures Dist2(points[i], Zero(d)) != Dist2(points[i], q[idx[i]])
    {
      assert q[idx[i]] == StepReset(points, q, d)[idx[i]] == Mean(points, idx, idx[i], d);
    }
  }

  /** Whatever the first centres, the loop returns a fixed point, empty clusters or not, if the
      points have no such tie. */
  lemma WithoutMeanTiesEndsFixed(points: seq<Point>, c: seq<Point>, n: nat, d: nat)
    requires Clusters(points, c, d) && StopsAfter(Reset, points, c, n, d) && NoMeanTie(points, |c|, d)
    ensures FixedPoint(points, Iterate(Reset, points, c, n, d),
                       Assign(points, Iterate(Reset, points, c, n - 1, d), d), d)
  {
    hide NoMeanTie, FixedPoint, Iterate, CostOf, StepReset;
    KmeansSingleThread.StallCosts(points, c, n, d);
    NoMeanTieNoResetTie(points, KmeansSingleThread.StallAt(points, c, n, d), d);
    KmeansSingleThread.ExitWithoutTies(points, c, n, d);
  }

  // ----- points far from the origin -----

  // Every point is nearer to every other point than to the origin.
  ghost predicate FarFromOrigin(points: seq<Point>, d: nat)
    requires AllOfDimension(points, d)
  {
    forall i, k :: 0 <= i < |points| && 0 <= k < |points| ==>
      Dist2(points[k], points[i]) < Dist2(points[i], Zero(d))
  }

  // What replacing the mean by x costs is less than bound per point, if every point is nearer to x.
  lemma {:induction false} ExchangeBound(points: seq<Point>, idx: Assignment, c: seq<Point>, j: nat, m: Point, x: Point,
                                         bound: real, n: nat, d: nat)
    requires Clusters(points, c, d) && Assigns(idx, |points|, |c|) && n <= |points|
    requires j < |c| && |m| == |x| == d
    requires forall k :: 0 <= k < |points| ==> Dist2(points[k], x) < bound
    ensures CostTo(points, idx, c[j := x], n, d) - CostTo(points, idx, c[j := m], n, d)
            <= Mul(CountTo(idx, j, n) as real, bound)
    ensures CountTo(idx, j, n) > 0 ==>
              CostTo(points, idx, c[j := x], n, d) - CostTo(points, idx, c[j := m], n, d)
              < Mul(CountTo(idx, j, n) as real, bound)
  {
    hide Dist2;
    if n > 0 {
      ExchangeBound(points, idx, c, j, m, x, bound, n - 1, d);
      Dist2Definite(points[n-1], m);
      OneMore(CountTo(idx, j, n - 1), bound);
    }
  }

  lemma LargerFactor(n: nat, x: real, y: real)
    requires n > 0 && x >= y
    ensures Mul(n as real, x) >= Mul(n as real, y)
  {
    if x > y {
      MulPositive(n as real, x - y);
      assert Mul(n as real, x - y) == Mul(n as real, x) - Mul(n as real, y);
    }
  }

  // A mean of points that are all within bound of x is within bound of x.
  lemma MeanIsClose(points: seq<Point>, idx: Assignment, c: seq<Point>, j: nat, x: Point, bound: real, d: nat)
    requires Clusters(points, c, d) && Assigns(idx, |points|, |c|) && j < |c| && Count(idx, j) > 0 && |x| == d
    requires forall k :: 0 <= k < |points| ==> Dist2(points[k], x) < bound
    ensures Dist2(Mean(points, idx, j, d), x) < bound
  {
    hide Dist2, CostTo, Mean;
    var m := Mean(points, idx, j, d);
    var e := c[j := x];
    MeanDecomposition(points, idx, e, j, d);
    assert e[j := m] == c[j := m];
    ExchangeBound(points, idx, c, j, m, x, bound, |points|, d);
    if Dist2(m, x) >= bound {
      LargerFactor(Count(idx, j), Dist2(m, x), bound);
    }
  }

  lemma FarMeansDoNotTie(points: seq<Point>, k: nat, d: nat)
    requires AllOfDimension(points, d) && FarFromOrigin(points, d)
    ensures NoMeanTie(points, k, d)
  {
    hide Dist2, Mean, CountTo, FarFromOrigin;
    forall idx: Assignment, i: nat | Assigns(idx, |points|, k) && i < |points| && Count(idx, idx[i]) > 0
      ensures Dist2(points[i], Zero(d)) != Dist2(points[i], Mean(points, idx, idx[i], d))
    {
      FarIsCloser(points, idx, k, i, d);
    }
  }

  lemma FarIsCloser(points: seq<Point>, idx: Assignment, k: nat, i: nat, d: nat)
    requires AllOfDimension(points, d) && FarFromOrigin(points, d)
    requires Assigns(idx, |points|, k) && i < |points| && Count(idx, idx[i]) > 0
    ensures Dist2(points[i], Mean(points, idx, idx[i], d)) < Dist2(points[i], Zero(d))
  {
    hide Dist2, Mean, CountTo;
    MeanIsClose(points, idx, seq(k, _ => Zero(d)), idx[i], points[i], Dist2(points[i], Zero(d)), d);
    Dist2Symmetric(points[i], Mean(points, idx, idx[i], d));
  }

  // For instance when every point is nearer to every other point than to the origin.
  lemma FarPointsEndFixed(points: seq<Point>, c: seq<Point>, n: nat, d: nat)
    requires Clusters(points, c, d) && StopsAfter(Reset, points, c, n, d) && FarFromOrigin(points, d)
    ensures FixedPoint(points, Iterate(Reset, points, c, n, d),
                       Assign(points, Iterate(Reset, points, c, n - 1, d), d), d)
  {
    hide NoMeanTie, FixedPoint, StopsAfter, Iterate;
    FarMeansDoNotTie(points, |c|, d);
    WithoutMeanTiesEndsFixed(points, c, n, d);
  }

  // ----- points on a line -----

  function Line(xs: seq<real>): (ps: seq<Point>)
    ensures |ps| == |xs| && AllOfDimension(ps, 1)
    ensures forall i :: 0 <= i < |xs| ==> ps[i] == [xs[i]]
  {
    seq(|xs|, i requires 0 <= i < |xs| => [xs[i]])
  }

  function Square(x: real): real {
    x * x
  }

  lemma LineDistance(x: real, y: real)
    ensures Dist2([x], [y]) == Square(x - y)
  {
    Dist2OnLine(x, y);
  }

  function Abs(x: real): real {
    if x < 0.0 then -x else x
  }

  lemma SquareGrows(x: real, y: real)
    ensures Abs(x) <= Abs(y) ==> Square(x) <= Square(y)
    ensures Abs(x) < Abs(y) ==> Square(x) < Square(y)
  {
    var less, sum := Abs(y) - Abs(x), Abs(y) + Abs(x);
    assert Square(y) - Square(x) == less * sum;
    assert less > 0.0 ==> less * sum > 0.0;
  }

  // k is the first of cs nearest to x.
  predicate FirstOnLine(x: real, cs: seq<real>, k: nat) {
    && k < |cs|
    && (forall i :: 0 <= i < |cs| ==> Abs(x - cs[k]) <= Abs(x - cs[i]))
    && (forall i :: 0 <= i < k ==> Abs(x - cs[k]) < Abs(x - cs[i]))
  }

  lemma NearestOnLine(x: real, cs: seq<real>, k: nat)
    requires FirstOnLine(x, cs, k)
    ensures Nearest([x], Line(cs)) == k
  {
    hide Dist2, Nearest, Square, Abs;
    forall i | 0 <= i < |cs|
      ensures Dist2([x], Line(cs)[i]) == Square(x - cs[i])
      ensures Abs(x - cs[k]) <= Abs(x - cs[i]) ==> Square(x - cs[k]) <= Square(x - cs[i])
      ensures Abs(x - cs[k]) < Abs(x - cs[i]) ==> Square(x - cs[k]) < Square(x - cs[i])
    {
      LineDistance(x, cs[i]);
      SquareGrows(x - cs[k], x - cs[i]);
    }
    FirstNearestIsUnique([x], Line(cs), k);
  }

  function SumOnLine(xs: seq<real>, idx: Assignment, j: nat, n: nat): real
    requires n <= |xs| && n <= |idx|
  {
    if n == 0 then 0.0 else SumOnLine(xs, idx, j, n - 1) + if idx[n-1] == j then xs[n-1] else 0.0
  }

  function CostOnLine(xs: seq<real>, idx: Assignment, cs: seq<real>, n: nat): real
    requires n <= |xs| && Assigns(idx, |xs|, |cs|)
  {
    if n == 0 then 0.0 else CostOnLine(xs, idx, cs, n - 1) + Square(xs[n-1] - cs[idx[n-1]])
  }

  lemma {:induction false} SumLine(xs: seq<real>, idx: Assignment, j: nat, n: nat)
    requires n <= |xs| && n <= |idx|
    ensures SumTo(Line(xs), idx, j, n, 1) == [SumOnLine(xs, idx, j, n)]
  {
    if n > 0 {
      SumLine(xs, idx, j, n - 1);
    }
  }

  lemma {:induction false} CostLine(xs: seq<real>, idx: Assignment, cs: seq<real>, n: nat)
    requires cs != [] && n <= |xs| && Assigns(idx, |xs|, |cs|)
    ensures CostTo(Line(xs), idx, Line(cs), n, 1) == CostOnLine(xs, idx, cs, n)
  {
    hide Dist2, Square;
    if n > 0 {
      CostLine(xs, idx, cs, n - 1);
      LineDistance(xs[n-1], cs[idx[n-1]]);
    }
  }

  // One pass on a line: idx assigns the points xs to the centres cs, next are the new centres.
  ghost predicate PassOnLine(xs: seq<real>, cs: seq<real>, idx: Assignment, next: seq<real>) {
    && cs != [] && |next| == |cs| && Assigns(idx, |xs|, |cs|)
    && (forall i :: 0 <= i < |xs| ==> FirstOnLine(xs[i], cs, idx[i]))
    && (forall j :: 0 <= j < |cs| ==> MeanOnLine(xs, idx, j, next[j]))
  }

  predicate MeanOnLine(xs: seq<real>, idx: Assignment, j: nat, m: real)
    requires |idx| == |xs|
  {
    var n := Count(idx, j);
    m == if n > 0 then SumOnLine(xs, idx, j, |xs|) / n as real else 0.0
  }

  lemma LinePass(xs: seq<real>, cs: seq<real>, idx: Assignment, next: seq<real>)
    requires PassOnLine(xs, cs, idx, next)
    ensures Assign(Line(xs), Line(cs), 1) == idx
    ensures StepReset(Line(xs), Line(cs), 1) == Line(next)
    ensures CostOf(Line(xs), Line(cs), 1) == CostOnLine(xs, idx, cs, |xs|)
  {
    hide FirstOnLine, Nearest, CostTo, SumTo, CountTo;
    var ps, c := Line(xs), Line(cs);
    forall i | 0 <= i < |xs| ensures Assign(ps, c, 1)[i] == idx[i] {
      NearestOnLine(xs[i], cs, idx[i]);
    }
    assert Assign(ps, c, 1) == idx;
    forall j | 0 <= j < |cs| ensures StepReset(ps, c, 1)[j] == Line(next)[j] {
      SumLine(xs, idx, j, |xs|);
      assert MeanOnLine(xs, idx, j, next[j]);
    }
    CostLine(xs, idx, cs, |xs|);
  }

  lemma StopsAfterTwo(points: seq<Point>, c: seq<Point>, d: nat)
    requires Clusters(points, c, d) && CostOf(points, c, d) != 0.0
    requires CostOf(points, StepReset(points, c, d), d) == CostOf(points, c, d)
    ensures StopsAfter(Reset, points, c, 2, d)
    ensures Iterate(Reset, points, c, 1, d) == StepReset(points, c, d)
    ensures Iterate(Reset, points, c, 2, d) == StepReset(points, StepReset(points, c, d), d)
  {
    hide CostOf, StepReset;
    assert Iterate(Reset, points, c, 0, d) == c;
    assert Iterate(Reset, points, c, 1, d) == StepReset(points, c, d);
    assert Iterate(Reset, points, c, 2, d) == StepReset(points, Iterate(Reset, points, c, 1, d), d);
  }

  // Two passes on a line that cost the same: the loop stops after them.
  lemma TwoPassesOnLine(xs: seq<real>, c0: seq<real>, c1: seq<real>, c2: seq<real>, a: Assignment, b: Assignment)
    requires PassOnLine(xs, c0, a, c1) && PassOnLine(xs, c1, b, c2)
    requires CostOnLine(xs, a, c0, |xs|) == CostOnLine(xs, b, c1, |xs|) != 0.0
    ensures StopsAfter(Reset, Line(xs), Line(c0), 2, 1)
    ensures Iterate(Reset, Line(xs), Line(c0), 2, 1) == Line(c2)
    ensures Assign(Line(xs), Iterate(Reset, Line(xs), Line(c0), 1, 1), 1) == b
  {
    hide FirstOnLine, MeanOnLine, CostOf, StepReset, Assign, StopsAfter, Iterate;
    LinePass(xs, c0, a, c1);
    LinePass(xs, c1, b, c2);
    StopsAfterTwo(Line(xs), Line(c0), 1);
  }

  // ----- what the seeding can produce on a line -----

  lemma {:induction false} PrefixOnLine(xs: seq<real>, idx: Assignment, cs: seq<real>, n: nat)
    requires cs != [] && n <= |xs| && Assigns(idx, |xs|, |cs|)
    requires forall i :: 0 <= i < |xs| ==> FirstOnLine(xs[i], cs, idx[i])
    ensures Prefix(Line(xs), Line(cs), n, 1) == CostOnLine(xs, idx, cs, n)
  {
    hide Dist2, Square, FirstOnLine, Nearest;
    if n > 0 {
      PrefixOnLine(xs, idx, cs, n - 1);
      NearestOnLine(xs[n-1], cs, idx[n-1]);
      LineDistance(xs[n-1], cs[idx[n-1]]);
    }
  }

  // Fraction u of the sum picks point k.
  ghost predicate PickOnLine(xs: seq<real>, idx: Assignment, cs: seq<real>, u: real, k: nat) {
    && cs != [] && k < |xs| && Assigns(idx, |xs|, |cs|)
    && (forall i :: 0 <= i < |xs| ==> FirstOnLine(xs[i], cs, idx[i]))
    && var r := CostOnLine(xs, idx, cs, |xs|) * u;
       (forall i :: 0 < i <= k ==> CostOnLine(xs, idx, cs, i) < r) && CostOnLine(xs, idx, cs, k + 1) >= r
  }

  lemma PicksOnLine(xs: seq<real>, idx: Assignment, cs: seq<real>, u: real, k: nat, was: Point)
    requires PickOnLine(xs, idx, cs, u, k)
    ensures IsNext(Line(xs), Line(cs), u, was, [xs[k]], 1)
  {
    hide FirstOnLine, CostOnLine, Prefix;
    forall n | 0 <= n <= |xs| ensures Prefix(Line(xs), Line(cs), n, 1) == CostOnLine(xs, idx, cs, n) {
      PrefixOnLine(xs, idx, cs, n);
    }
    NextBy(Line(xs), Line(cs), u, was, [xs[k]], k, 1);
  }

  // Seeding three centres: the first is x, later ones are picked from the whole vector, the
  // entries still waiting being at the origin.
  lemma SeedsOnLine(xs: seq<real>, x: real, y: real, z: real, u: real, w: real, j: nat, k: nat, a: Assignment,
                    b: Assignment)
    requires xs != [] && xs[0] == x && j < |xs| && k < |xs| && xs[j] == y && xs[k] == z
    requires PickOnLine(xs, a, [x, 0.0, 0.0], u, j) && PickOnLine(xs, b, [x, y, 0.0], w, k)
    ensures var start := KmeansPP.Resized([], 3, 1);
            KmeansPP.ChosenUpTo(Line(xs), Line([x, y, z]), start, [u, w], 3, 1)
  {
    hide PickOnLine, IsNext;
    var start, c := KmeansPP.Resized([], 3, 1), Line([x, y, z]);
    assert Zero(1) == [0.0] && start == [[0.0], [0.0], [0.0]];
    assert KmeansPP.At(c, start, 1) == Line([x, 0.0, 0.0]);
    assert KmeansPP.At(c, start, 2) == Line([x, y, 0.0]);
    PicksOnLine(xs, a, [x, 0.0, 0.0], u, j, start[1]);
    PicksOnLine(xs, b, [x, y, 0.0], w, k, start[2]);
    assert c[0] == Line(xs)[0];
  }

  // ----- a clustering that is not a fixed point -----

  const EARLY: seq<real> := [-10.0, 1.0, 1.1, 2.0, 3.9]
  const EARLY_END: seq<real> := [-10.0, 1.0, 7.0 / 3.0]

  lemma EarlyNearest()
    ensures forall i :: 0 <= i < 5 ==> FirstOnLine(EARLY[i], [-10.0, 0.0, 0.0], [0, 1, 1, 1, 1][i])
    ensures forall i :: 0 <= i < 5 ==> FirstOnLine(EARLY[i], [-10.0, -10.0, 0.0], [0, 2, 2, 2, 2][i])
  {
  }

  lemma EarlyDistances()
    ensures var a, c := [0, 2, 2, 2, 2], [-10.0, -10.0, 0.0];
            && CostOnLine(EARLY, a, c, 1) == 0.0 && CostOnLine(EARLY, a, c, 2) == 1.0
            && CostOnLine(EARLY, a, c, 3) == 2.21 && CostOnLine(EARLY, a, c, 4) == 6.21
            && CostOnLine(EARLY, a, c, 5) == 21.42
  {
    var a, c := [0, 2, 2, 2, 2], [-10.0, -10.0, 0.0];
    assert CostOnLine(EARLY, a, c, 0) == 0.0;
    assert CostOnLine(EARLY, a, c, 1) == 0.0;
    assert CostOnLine(EARLY, a, c, 2) == 1.0;
    assert CostOnLine(EARLY, a, c, 3) == 2.21;
    assert CostOnLine(EARLY, a, c, 4) == 6.21;
  }

  // The draws 0 and a fifth of the sum choose -10 again and then 2.
  lemma EarlySeeds()
    ensures KmeansPP.ChosenUpTo(Line(EARLY), Line([-10.0, -10.0, 2.0]), KmeansPP.Resized([], 3, 1), [0.0, 0.2], 3, 1)
  {
    hide FirstOnLine, CostOnLine;
    EarlyNearest();
    FirstIsFree(EARLY, [0, 1, 1, 1, 1], [-10.0, 0.0, 0.0]);
    EarlyDistances();
    SeedsOnLine(EARLY, -10.0, -10.0, 2.0, 0.0, 0.2, 0, 3, [0, 1, 1, 1, 1], [0, 2, 2, 2, 2]);
  }

  // A draw of 0 picks the first point.
  lemma FirstIsFree(xs: seq<real>, idx: Assignment, cs: seq<real>)
    requires cs != [] && xs != [] && Assigns(idx, |xs|, |cs|)
    requires forall i :: 0 <= i < |xs| ==> FirstOnLine(xs[i], cs, idx[i])
    ensures PickOnLine(xs, idx, cs, 0.0, 0)
  {
    hide FirstOnLine;
    SquarePositive(xs[0] - cs[idx[0]]);
    assert CostOnLine(xs, idx, cs, 1) == CostOnLine(xs, idx, cs, 0) + Square(xs[0] - cs[idx[0]]);
  }

  lemma SquarePositive(x: real)
    ensures Square(x) >= 0.0
  {
    MulSquare(x);
    assert Square(x) == Mul(x, x);
  }

  lemma EarlyAssigned()
    ensures forall i :: 0 <= i < 5 ==> FirstOnLine(EARLY[i], [-10.0, -10.0, 2.0], [0, 2, 2, 2, 2][i])
    ensures forall i :: 0 <= i < 5 ==> FirstOnLine(EARLY[i], [-10.0, 0.0, 2.0], [0, 1, 2, 2, 2][i])
  {
  }

  lemma EarlyFirstMeans()
    ensures forall j :: 0 <= j < 3 ==> MeanOnLine(EARLY, [0, 2, 2, 2, 2], j, [-10.0, 0.0, 2.0][j])
  {
    var a := [0, 2, 2, 2, 2];
    assert CountTo(a, 0, 1) == CountTo(a, 0, 2) == CountTo(a, 0, 3) == CountTo(a, 0, 4) == Count(a, 0) == 1;
    assert CountTo(a, 1, 1) == CountTo(a, 1, 2) == CountTo(a, 1, 3) == CountTo(a, 1, 4) == Count(a, 1) == 0;
    assert CountTo(a, 2, 1) == 0 && CountTo(a, 2, 2) == 1 && CountTo(a, 2, 3) == 2 && CountTo(a, 2, 4) == 3
           && Count(a, 2) == 4;
    assert SumOnLine(EARLY, a, 0, 1) == SumOnLine(EARLY, a, 0, 3) == SumOnLine(EARLY, a, 0, 5) == -10.0;
    assert SumOnLine(EARLY, a, 2, 1) == 0.0 && SumOnLine(EARLY, a, 2, 3) == 2.1 && SumOnLine(EARLY, a, 2, 5) == 8.0;
  }

  lemma EarlySecondMeans()
    ensures forall j :: 0 <= j < 3 ==> MeanOnLine(EARLY, [0, 1, 2, 2, 2], j, EARLY_END[j])
  {
    var b := [0, 1, 2, 2, 2];
    assert CountTo(b, 0, 1) == CountTo(b, 0, 2) == CountTo(b, 0, 3) == CountTo(b, 0, 4) == Count(b, 0) == 1;
    assert CountTo(b, 1, 1) == 0 && CountTo(b, 1, 2) == CountTo(b, 1, 3) == CountTo(b, 1, 4) == Count(b, 1) == 1;
    assert CountTo(b, 2, 1) == CountTo(b, 2, 2) == 0 && CountTo(b, 2, 3) == 1 && CountTo(b, 2, 4) == 2
           && Count(b, 2) == 3;
    assert SumOnLine(EARLY, b, 0, 1) == SumOnLine(EARLY, b, 0, 3) == SumOnLine(EARLY, b, 0, 5) == -10.0;
    assert SumOnLine(EARLY, b, 1, 1) == 0.0 && SumOnLine(EARLY, b, 1, 3) == SumOnLine(EARLY, b, 1, 5) == 1.0;
    assert SumOnLine(EARLY, b, 2, 2) == 0.0 && SumOnLine(EARLY, b, 2, 4) == 3.1 && SumOnLine(EARLY, b, 2, 5) == 7.0;
  }

  lemma EarlyCosts()
    ensures CostOnLine(EARLY, [0, 2, 2, 2, 2], [-10.0, -10.0, 2.0], 5) == 5.42
    ensures CostOnLine(EARLY, [0, 1, 2, 2, 2], [-10.0, 0.0, 2.0], 5) == 5.42
  {
    var a, b, c, e := [0, 2, 2, 2, 2], [0, 1, 2, 2, 2], [-10.0, -10.0, 2.0], [-10.0, 0.0, 2.0];
    assert CostOnLine(EARLY, a, c, 1) == 0.0 && CostOnLine(EARLY, b, e, 1) == 0.0;
    assert CostOnLine(EARLY, a, c, 2) == 1.0 && CostOnLine(EARLY, b, e, 2) == 1.0;
    assert CostOnLine(EARLY, a, c, 3) == 1.81 && CostOnLine(EARLY, b, e, 3) == 1.81;
    assert CostOnLine(EARLY, a, c, 4) == 1.81 && CostOnLine(EARLY, b, e, 4) == 1.81;
  }

  /** The points -10, 1, 1.1, 2 and 3.9: the seeding can choose -10, -10 and 2; from there the loop
      stops after two passes at -10, 1 and 7/3, where 1.1 is assigned to the farther centre. */
  lemma ResetCanStopEarly()
    ensures var ps, c := Line(EARLY), Line([-10.0, -10.0, 2.0]);
            && KmeansPP.ChosenUpTo(ps, c, KmeansPP.Resized([], 3, 1), [0.0, 0.2], 3, 1)
            && StopsAfter(Reset, ps, c, 2, 1)
            && Iterate(Reset, ps, c, 2, 1) == Line(EARLY_END)
            && !FixedPoint(ps, Iterate(Reset, ps, c, 2, 1), Assign(ps, Iterate(Reset, ps, c, 1, 1), 1), 1)
  {
    hide FirstOnLine, MeanOnLine, CostOnLine, StopsAfter, Iterate, Assign, FixedPoint;
    EarlySeeds();
    EarlyAssigned();
    EarlyFirstMeans();
    EarlySecondMeans();
    EarlyCosts();
    TwoPassesOnLine(EARLY, [-10.0, -10.0, 2.0], [-10.0, 0.0, 2.0], EARLY_END, [0, 2, 2, 2, 2], [0, 1, 2, 2, 2]);
    EarlyNotFixed();
  }

  lemma EarlyNotFixed()
    ensures !FixedPoint(Line(EARLY), Line(EARLY_END), [0, 1, 2, 2, 2], 1)
  {
    assert FirstOnLine(EARLY[2], EARLY_END, 1);
    hide FirstOnLine;
    NearestOnLine(EARLY[2], EARLY_END, 1);
    assert Line(EARLY)[2] == [EARLY[2]];
    FixedPointIffUnmoved(Line(EARLY), Line(EARLY_END), [0, 1, 2, 2, 2], 1);
  }

  // ----- a tie that does no harm -----

  const LATE: seq<real> := [-10.0, 1.0, 2.0, 3.0]

  lemma LateNearest()
    ensures forall i :: 0 <= i < 4 ==> FirstOnLine(LATE[i], [-10.0, 0.0, 0.0], [0, 1, 1, 1][i])
    ensures forall i :: 0 <= i < 4 ==> FirstOnLine(LATE[i], [-10.0, -10.0, 0.0], [0, 2, 2, 2][i])
  {
  }

  lemma LateAssigned()
    ensures forall i :: 0 <= i < 4 ==> FirstOnLine(LATE[i], [-10.0, -10.0, 2.0], [0, 2, 2, 2][i])
    ensures forall i :: 0 <= i < 4 ==> FirstOnLine(LATE[i], [-10.0, 0.0, 2.0], [0, 1, 2, 2][i])
  {
  }

  lemma LateStays()
    ensures forall i :: 0 <= i < 4 ==> FirstOnLine(LATE[i], [-10.0, 1.0, 2.5], [0, 1, 2, 2][i])
  {
  }

  lemma LateMeans()
    ensures forall j :: 0 <= j < 3 ==> MeanOnLine(LATE, [0, 2, 2, 2], j, [-10.0, 0.0, 2.0][j])
    ensures forall j :: 0 <= j < 3 ==> MeanOnLine(LATE, [0, 1, 2, 2], j, [-10.0, 1.0, 2.5][j])
  {
    var a, b := [0, 2, 2, 2], [0, 1, 2, 2];
    assert CountTo(a, 0, 1) == CountTo(a, 0, 2) == CountTo(a, 0, 3) == Count(a, 0) == 1;
    assert CountTo(a, 1, 1) == CountTo(a, 1, 2) == CountTo(a, 1, 3) == Count(a, 1) == 0;
    assert CountTo(a, 2, 1) == 0 && CountTo(a, 2, 2) == 1 && CountTo(a, 2, 3) == 2 && Count(a, 2) == 3;
    assert CountTo(b, 0, 1) == CountTo(b, 0, 2) == CountTo(b, 0, 3) == Count(b, 0) == 1;
    assert CountTo(b, 1, 1) == 0 && CountTo(b, 1, 2) == CountTo(b, 1, 3) == Count(b, 1) == 1;
    assert CountTo(b, 2, 1) == CountTo(b, 2, 2) == 0 && CountTo(b, 2, 3) == 1 && Count(b, 2) == 2;
    assert SumOnLine(LATE, a, 0, 2) == SumOnLine(LATE, a, 0, 4) == -10.0;
    assert SumOnLine(LATE, a, 2, 2) == 1.0 && SumOnLine(LATE, a, 2, 4) == 6.0;
    assert SumOnLine(LATE, b, 0, 2) == SumOnLine(LATE, b, 0, 4) == -10.0;
    assert SumOnLine(LATE, b, 1, 2) == SumOnLine(LATE, b, 1, 4) == 1.0;
    assert SumOnLine(LATE, b, 2, 2) == 0.0 && SumOnLine(LATE, b, 2, 4) == 5.0;
  }

  lemma LateCosts()
    ensures var a, c := [0, 2, 2, 2], [-10.0, -10.0, 0.0];
            && CostOnLine(LATE, a, c, 1) == 0.0 && CostOnLine(LATE, a, c, 2) == 1.0
            && CostOnLine(LATE, a, c, 3) == 5.0 && CostOnLine(LATE, a, c, 4) == 14.0
    ensures CostOnLine(LATE, [0, 2, 2, 2], [-10.0, -10.0, 2.0], 4) == 2.0
    ensures CostOnLine(LATE, [0, 1, 2, 2], [-10.0, 0.0, 2.0], 4) == 2.0
  {
    var a, b, c, e := [0, 2, 2, 2], [0, 1, 2, 2], [-10.0, -10.0, 0.0], [-10.0, -10.0, 2.0];
    assert CostOnLine(LATE, a, c, 1) == 0.0 && CostOnLine(LATE, a, c, 2) == 1.0 && CostOnLine(LATE, a, c, 3) == 5.0;
    assert CostOnLine(LATE, a, e, 1) == 0.0 && CostOnLine(LATE, a, e, 2) == 1.0 && CostOnLine(LATE, a, e, 3) == 1.0;
    assert CostOnLine(LATE, b, [-10.0, 0.0, 2.0], 2) == 1.0 && CostOnLine(LATE, b, [-10.0, 0.0, 2.0], 3) == 1.0;
  }

  lemma LateSeeds()
    ensures KmeansPP.ChosenUpTo(Line(LATE), Line([-10.0, -10.0, 2.0]), KmeansPP.Resized([], 3, 1), [0.0, 0.2], 3, 1)
  {
    hide FirstOnLine, CostOnLine;
    LateNearest();
    LateCosts();
    FirstIsFree(LATE, [0, 1, 1, 1], [-10.0, 0.0, 0.0]);
    SeedsOnLine(LATE, -10.0, -10.0, 2.0, 0.0, 0.2, 0, 2, [0, 1, 1, 1], [0, 2, 2, 2]);
  }

  lemma LatePasses()
    ensures PassOnLine(LATE, [-10.0, -10.0, 2.0], [0, 2, 2, 2], [-10.0, 0.0, 2.0])
    ensures PassOnLine(LATE, [-10.0, 0.0, 2.0], [0, 1, 2, 2], [-10.0, 1.0, 2.5])
  {
    hide FirstOnLine, MeanOnLine;
    LateAssigned();
    LateMeans();
  }

  // A point as near to the origin as to its own centre, while a cluster of lower number is empty.
  lemma TieOnLine(xs: seq<real>, cs: seq<real>, idx: Assignment, next: seq<real>, i: nat, j: nat)
    requires PassOnLine(xs, cs, idx, next) && i < |xs| && j < idx[i] && Count(idx, j) == 0
    requires Square(xs[i] - 0.0) == Square(xs[i] - cs[idx[i]])
    ensures !KmeansSingleThread.NoResetTie(Line(xs), Line(cs), 1)
  {
    hide FirstOnLine, MeanOnLine, Assign, StepReset, CostOf, Dist2, Square, CountTo;
    LinePass(xs, cs, idx, next);
    LineDistance(xs[i], 0.0);
    LineDistance(xs[i], cs[idx[i]]);
    assert Zero(1) == [0.0];
  }

  lemma LateHasTie()
    ensures !KmeansSingleThread.NoResetTie(Line(LATE), Line([-10.0, -10.0, 2.0]), 1)
  {
    var a := [0, 2, 2, 2];
    hide PassOnLine, KmeansSingleThread.NoResetTie;
    LatePasses();
    assert CountTo(a, 1, 1) == CountTo(a, 1, 2) == CountTo(a, 1, 3) == Count(a, 1) == 0;
    TieOnLine(LATE, [-10.0, -10.0, 2.0], a, [-10.0, 0.0, 2.0], 1, 1);
  }

  lemma LateIsFixed()
    ensures FixedPoint(Line(LATE), Line([-10.0, 1.0, 2.5]), [0, 1, 2, 2], 1)
  {
    var ps, q, b := Line(LATE), Line([-10.0, 0.0, 2.0]), [0, 1, 2, 2];
    hide FirstOnLine, MeanOnLine, Nearest, StepReset, CostOf, FixedPoint;
    LatePasses();
    LinePass(LATE, [-10.0, 0.0, 2.0], b, [-10.0, 1.0, 2.5]);
    LateStays();
    forall i | 0 <= i < 4 ensures Nearest(ps[i], Line([-10.0, 1.0, 2.5])) == b[i] {
      NearestOnLine(LATE[i], [-10.0, 1.0, 2.5], b[i]);
    }
    assert Assign(ps, Line([-10.0, 1.0, 2.5]), 1) == b;
    KmeansSingleThread.SettledIsFixed(ps, q, 1);
  }

  lemma MeanTieFollows(points: seq<Point>, c: seq<Point>, n: nat, d: nat)
    requires Clusters(points, c, d) && StopsAfter(Reset, points, c, n, d)
    requires !KmeansSingleThread.NoResetTie(points, KmeansSingleThread.StallAt(points, c, n, d), d)
    ensures !NoMeanTie(points, |c|, d)
  {
    hide NoMeanTie, Iterate, CostOf, StepReset, KmeansSingleThread.NoResetTie;
    KmeansSingleThread.StallCosts(points, c, n, d);
    if NoMeanTie(points, |c|, d) {
      NoMeanTieNoResetTie(points, KmeansSingleThread.StallAt(points, c, n, d), d);
    }
  }

  /** The points -10, 1, 2 and 3 with seeds -10, -10 and 2 have such a tie as well, at the point 1;
      the loop nevertheless stops at a fixed point. */
  lemma TieCanBeHarmless()
    ensures var ps, c := Line(LATE), Line([-10.0, -10.0, 2.0]);
            && KmeansPP.ChosenUpTo(ps, c, KmeansPP.Resized([], 3, 1), [0.0, 0.2], 3, 1)
            && StopsAfter(Reset, ps, c, 2, 1)
            && !NoMeanTie(ps, 3, 1) && !KmeansSingleThread.NoResetTie(ps, KmeansSingleThread.StallAt(ps, c, 2, 1), 1)
            && FixedPoint(ps, Iterate(Reset, ps, c, 2, 1), Assign(ps, Iterate(Reset, ps, c, 1, 1), 1), 1)
  {
    hide PassOnLine, CostOnLine, StopsAfter, Assign, FixedPoint, NoMeanTie, KmeansSingleThread.NoResetTie;
    LateSeeds();
    LatePasses();
    LateCosts();
    TwoPassesOnLine(LATE, [-10.0, -10.0, 2.0], [-10.0, 0.0, 2.0], [-10.0, 1.0, 2.5], [0, 2, 2, 2], [0, 1, 2, 2]);
    LateHasTie();
    MeanTieFollows(Line(LATE), Line([-10.0, -10.0, 2.0]), 2, 1);
    LateIsFixed();
  }
}
