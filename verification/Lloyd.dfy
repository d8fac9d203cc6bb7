/** Lloyd iteration over exact reals: what one pass of the k-means loop computes, that it
    never raises the clustering cost, and that only finitely many passes can change it. */
module Lloyd {
  import opened Collections
  import opened Points

  // ----- nearest centre -----

  // j is the first centre at the least distance from x.
  ghost predicate IsFirstNearest(x: Point, c: seq<Point>, j: nat)
    requires AllOfDimension(c, |x|)
  {
    && j < |c|
    && (forall i :: 0 <= i < |c| ==> Dist2(x, c[j]) <= Dist2(x, c[i]))
    && (forall i :: 0 <= i < j ==> Dist2(x, c[j]) < Dist2(x, c[i]))
  }

  // First nearest among the first n centres.
  function NearestTo(x: Point, c: seq<Point>, n: nat): (j: nat)
    requires 0 < n <= |c| && AllOfDimension(c, |x|)
    ensures j < n
    ensures forall i :: 0 <= i < n ==> Dist2(x, c[j]) <= Dist2(x, c[i])
    ensures forall i :: 0 <= i < j ==> Dist2(x, c[j]) < Dist2(x, c[i])
  {
    if n == 1 then 0
    else
      var j := NearestTo(x, c, n - 1);
      if Dist2(x, c[j]) > Dist2(x, c[n-1]) then n - 1 else j
  }

  function Nearest(x: Point, c: seq<Point>): (j: nat)
    requires c != [] && AllOfDimension(c, |x|)
    ensures IsFirstNearest(x, c, j)
  {
    NearestTo(x, c, |c|)
  }

  lemma FirstNearestIsUnique(x: Point, c: seq<Point>, j: nat)
    requires c != [] && AllOfDimension(c, |x|) && IsFirstNearest(x, c, j)
    ensures j == Nearest(x, c)
  {
    var k := Nearest(x, c);
    assert !(j < k) && !(k < j);
  }

  // ----- assignments -----

  type Assignment = seq<nat>

  ghost predicate Clusters(points: seq<Point>, c: seq<Point>, d: nat) {
    c != [] && AllOfDimension(points, d) && AllOfDimension(c, d)
  }

  ghost predicate Assigns(idx: Assignment, n: nat, k: nat) {
    |idx| == n && forall i :: 0 <= i < n ==> idx[i] < k
  }

  // The assignment of every point to its first nearest centre.
  function Assign(points: seq<Point>, c: seq<Point>, ghost d: nat): (idx: Assignment)
    requires Clusters(points, c, d)
    ensures Assigns(idx, |points|, |c|)
    ensures forall i :: 0 <= i < |points| ==> idx[i] == Nearest(points[i], c)
  {
    seq(|points|, i requires 0 <= i < |points| => Nearest(points[i], c))
  }

  // ----- accumulated quantities, over the first n points -----

  function CountTo(idx: Assignment, j: nat, n: nat): nat
    requires n <= |idx|
  {
    if n == 0 then 0 else CountTo(idx, j, n - 1) + if idx[n-1] == j then 1 else 0
  }

  function SumTo(points: seq<Point>, idx: Assignment, j: nat, n: nat, d: nat): (s: Point)
    requires n <= |points| && n <= |idx| && AllOfDimension(points, d)
    ensures |s| == d
  {
    if n == 0 then Zero(d)
    else
      var s := SumTo(points, idx, j, n - 1, d);
      if idx[n-1] == j then Add(s, points[n-1]) else s
  }

  function CostTo(points: seq<Point>, idx: Assignment, c: seq<Point>, n: nat, ghost d: nat): real
    requires n <= |points| && Clusters(points, c, d) && Assigns(idx, |points|, |c|)
  {
    if n == 0 then 0.0
    else CostTo(points, idx, c, n - 1, d) + Dist2(points[n-1], c[idx[n-1]])
  }

  // The clustering cost V: squared distances of all points to the centres they are assigned to.
  function Cost(points: seq<Point>, idx: Assignment, c: seq<Point>, ghost d: nat): real
    requires Clusters(points, c, d) && Assigns(idx, |points|, |c|)
  {
    CostTo(points, idx, c, |points|, d)
  }

  function Count(idx: Assignment, j: nat): nat {
    CountTo(idx, j, |idx|)
  }

  // The mean of cluster j when it is not empty.
  function Mean(points: seq<Point>, idx: Assignment, j: nat, d: nat): (m: Point)
    requires AllOfDimension(points, d) && |idx| == |points| && Count(idx, j) > 0
    ensures |m| == d
  {
    Div(SumTo(points, idx, j, |points|, d), Count(idx, j) as real)
  }

  // New centres where an empty cluster keeps its old centre.
  function MeansOr(points: seq<Point>, idx: Assignment, c: seq<Point>, d: nat): (r: seq<Point>)
    requires Clusters(points, c, d) && Assigns(idx, |points|, |c|)
    ensures |r| == |c| && Clusters(points, r, d)
  {
    seq(|c|, j requires 0 <= j < |c| =>
      if Count(idx, j) > 0 then Mean(points, idx, j, d) else c[j])
  }

  // New centres where an empty cluster is reset to the origin.
  function MeansOrZero(points: seq<Point>, idx: Assignment, k: nat, d: nat): (r: seq<Point>)
    requires k > 0 && AllOfDimension(points, d) && Assigns(idx, |points|, k)
    ensures |r| == k && Clusters(points, r, d)
  {
    MeansOr(points, idx, seq(k, _ => Zero(d)), d)
  }

  // The centres after one pass, in the two versions of the program, and the cost seen by that pass.
  function StepKeep(points: seq<Point>, c: seq<Point>, d: nat): (r: seq<Point>)
    requires Clusters(points, c, d)
    ensures |r| == |c| && Clusters(points, r, d)
  {
    MeansOr(points, Assign(points, c, d), c, d)
  }

  function StepReset(points: seq<Point>, c: seq<Point>, d: nat): (r: seq<Point>)
    requires Clusters(points, c, d)
    ensures |r| == |c| && Clusters(points, r, d)
  {
    MeansOrZero(points, Assign(points, c, d), |c|, d)
  }

  function CostOf(points: seq<Point>, c: seq<Point>, ghost d: nat): real
    requires Clusters(points, c, d)
  {
    Cost(points, Assign(points, c, d), c, d)
  }

  // ----- mean / variance decomposition -----

  // n copies of m subtracted from a vector sum.
  function Residual(s: Point, n: nat, m: Point): (w: Point)
    requires |s| == |m|
    ensures |w| == |s|
  {
    seq(|s|, i requires 0 <= i < |s| => s[i] - Mul(n as real, m[i]))
  }

  // Replacing one centre by m changes the cost by a cross term and the cluster size times
  // the squared distance between the two centres.
  lemma {:induction false} ReplaceCentre(points: seq<Point>, idx: Assignment, c: seq<Point>, j: nat, m: Point, n: nat,
                                         d: nat)
    requires Clusters(points, c, d) && Assigns(idx, |points|, |c|)
    requires n <= |points| && j < |c| && |m| == d
    ensures CostTo(points, idx, c, n, d) == CostTo(points, idx, c[j := m], n, d) + Gain(points, idx, c, j, m, n, d)
  {
    if n == 0 {
      DotOfZero(Residual(SumTo(points, idx, j, n, d), CountTo(idx, j, n), m), Sub(m, c[j]), d);
    } else {
      ReplaceCentre(points, idx, c, j, m, n - 1, d);
      if idx[n-1] == j {
        ReplaceCentreHit(points, idx, c, j, m, n, d);
      } else {
        assert CostTo(points, idx, c, n, d) - CostTo(points, idx, c[j := m], n, d)
            == CostTo(points, idx, c, n - 1, d) - CostTo(points, idx, c[j := m], n - 1, d);
        assert SumTo(points, idx, j, n, d) == SumTo(points, idx, j, n - 1, d);
      }
    }
  }

  // What replacing centre j gains on the first n points.
  function Gain(points: seq<Point>, idx: Assignment, c: seq<Point>, j: nat, m: Point, n: nat, d: nat): real
    requires Clusters(points, c, d) && Assigns(idx, |points|, |c|)
    requires n <= |points| && j < |c| && |m| == d
  {
    2.0 * Dot(Residual(SumTo(points, idx, j, n, d), CountTo(idx, j, n), m), Sub(m, c[j]))
      + Mul(CountTo(idx, j, n) as real, Dist2(m, c[j]))
  }

  lemma ReplaceCentreHit(points: seq<Point>, idx: Assignment, c: seq<Point>, j: nat, m: Point, n: nat, d: nat)
    requires Clusters(points, c, d) && Assigns(idx, |points|, |c|)
    requires 0 < n <= |points| && j < |c| && |m| == d && idx[n-1] == j
    requires CostTo(points, idx, c, n - 1, d) == CostTo(points, idx, c[j := m], n - 1, d)
             + Gain(points, idx, c, j, m, n - 1, d)
    ensures CostTo(points, idx, c, n, d) == CostTo(points, idx, c[j := m], n, d) + Gain(points, idx, c, j, m, n, d)
  {
    var x := points[n-1];
    CrossStep(SumTo(points, idx, j, n - 1, d), CountTo(idx, j, n - 1), m, x, c[j]);
    assert CostTo(points, idx, c, n, d) == CostTo(points, idx, c, n - 1, d) + Dist2(x, c[j]);
    assert CostTo(points, idx, c[j := m], n, d) == CostTo(points, idx, c[j := m], n - 1, d) + Dist2(x, m);
    assert SumTo(points, idx, j, n, d) == Add(SumTo(points, idx, j, n - 1, d), x);
    assert CountTo(idx, j, n) == CountTo(idx, j, n - 1) + 1;
  }

  // One more point in the cluster: its part of the cross term and of the square term.
  lemma CrossStep(s: Point, n: nat, m: Point, x: Point, y: Point)
    requires |s| == |m| == |x| == |y|
    ensures 2.0 * Dot(Residual(Add(s, x), n + 1, m), Sub(m, y)) + Mul((n + 1) as real, Dist2(m, y))
         == 2.0 * Dot(Residual(s, n, m), Sub(m, y)) + Mul(n as real, Dist2(m, y)) + Dist2(x, y) - Dist2(x, m)
  {
    Dist2Shift(x, m, y);
    ResidualStep(s, n, m, x);
    DotAdditive(Residual(s, n, m), Sub(x, m), Residual(Add(s, x), n + 1, m), Sub(m, y), |s|);
    OneMore(n, Dist2(m, y));
  }

  lemma OneMore(n: nat, x: real)
    ensures Mul((n + 1) as real, x) == Mul(n as real, x) + x
  {
    MulDistributes(n as real, 1.0, x);
  }

  lemma ResidualStep(s: Point, n: nat, m: Point, x: Point)
    requires |s| == |m| == |x|
    ensures forall i :: 0 <= i < |s| ==> Residual(Add(s, x), n + 1, m)[i] == Residual(s, n, m)[i] + Sub(x, m)[i]
  {
    forall i | 0 <= i < |s|
      ensures Residual(Add(s, x), n + 1, m)[i] == Residual(s, n, m)[i] + Sub(x, m)[i]
    {
      OneMore(n, m[i]);
    }
  }

  // cost(c) = cost(mean) + n * |c - mean|^2, cluster by cluster.
  lemma MeanDecomposition(points: seq<Point>, idx: Assignment, c: seq<Point>, j: nat, d: nat)
    requires Clusters(points, c, d) && Assigns(idx, |points|, |c|)
    requires j < |c| && Count(idx, j) > 0
    ensures Cost(points, idx, c, d)
         == Cost(points, idx, c[j := Mean(points, idx, j, d)], d)
          + Mul(Count(idx, j) as real, Dist2(Mean(points, idx, j, d), c[j]))
  {
    var m := Mean(points, idx, j, d);
    var n := Count(idx, j);
    var s := SumTo(points, idx, j, |points|, d);
    ReplaceCentre(points, idx, c, j, m, |points|, d);
    forall i | 0 <= i < d
      ensures Residual(s, n, m)[i] == 0.0
    {
      assert Mul(n as real, s[i] / n as real) == s[i];
    }
    DotOfZero(Residual(s, n, m), Sub(m, c[j]), d);
  }

  lemma {:induction false} CountPositive(idx: Assignment, i: nat, n: nat)
    requires i < n <= |idx|
    ensures CountTo(idx, idx[i], n) > 0
  {
    if i < n - 1 {
      CountPositive(idx, i, n - 1);
    }
  }

  // The cost does not see the centres of empty clusters.
  lemma {:induction false} CostAgrees(points: seq<Point>, idx: Assignment, c: seq<Point>, c': seq<Point>, n: nat,
                                      d: nat)
    requires Clusters(points, c, d) && Clusters(points, c', d) && |c| == |c'|
    requires Assigns(idx, |points|, |c|) && n <= |points|
    requires forall j :: 0 <= j < |c| && Count(idx, j) > 0 ==> c[j] == c'[j]
    ensures CostTo(points, idx, c, n, d) == CostTo(points, idx, c', n, d)
  {
    if n > 0 {
      CostAgrees(points, idx, c, c', n - 1, d);
      CountPositive(idx, n - 1, |idx|);
    }
  }

  // The means of the first n clusters, the given centres elsewhere.
  function MeansUpTo(points: seq<Point>, idx: Assignment, c: seq<Point>, n: nat, d: nat): (r: seq<Point>)
    requires Clusters(points, c, d) && Assigns(idx, |points|, |c|) && n <= |c|
    ensures |r| == |c| && Clusters(points, r, d)
  {
    seq(|c|, j requires 0 <= j < |c| =>
      if j < n && Count(idx, j) > 0 then Mean(points, idx, j, d) else c[j])
  }

  lemma {:induction false} MeansUpToCost(points: seq<Point>, idx: Assignment, c: seq<Point>, n: nat, d: nat)
    requires Clusters(points, c, d) && Assigns(idx, |points|, |c|) && n <= |c|
    ensures Cost(points, idx, MeansUpTo(points, idx, c, n, d), d) <= Cost(points, idx, c, d)
    ensures Cost(points, idx, MeansUpTo(points, idx, c, n, d), d) == Cost(points, idx, c, d) ==>
              forall j :: 0 <= j < n && Count(idx, j) > 0 ==> c[j] == Mean(points, idx, j, d)
  {
    if n == 0 {
      assert MeansUpTo(points, idx, c, 0, d) == c;
    } else {
      MeansUpToCost(points, idx, c, n - 1, d);
      var c0 := MeansUpTo(points, idx, c, n - 1, d);
      var c1 := MeansUpTo(points, idx, c, n, d);
      if Count(idx, n - 1) > 0 {
        var m := Mean(points, idx, n - 1, d);
        assert c1 == c0[n - 1 := m];
        MeanDecomposition(points, idx, c0, n - 1, d);
        Dist2Definite(m, c0[n-1]);
        ScaledNonNegative(Count(idx, n - 1), Dist2(m, c0[n-1]));
      } else {
        assert c1 == c0;
      }
    }
  }

  lemma ScaledNonNegative(n: nat, x: real)
    requires n > 0 && x >= 0.0
    ensures Mul(n as real, x) >= 0.0
    ensures Mul(n as real, x) == 0.0 ==> x == 0.0
  {
    if x > 0.0 {
      MulPositive(n as real, x);
    }
  }

  // The means are the best centres for an assignment, and the only best ones up to empty clusters.
  lemma MeansAreOptimal(points: seq<Point>, idx: Assignment, c: seq<Point>, c': seq<Point>, d: nat)
    requires Clusters(points, c, d) && Clusters(points, c', d) && |c| == |c'|
    requires Assigns(idx, |points|, |c|)
    ensures Cost(points, idx, MeansOr(points, idx, c', d), d) <= Cost(points, idx, c, d)
    ensures Cost(points, idx, MeansOr(points, idx, c', d), d) == Cost(points, idx, c, d) <==>
              (forall j :: 0 <= j < |c| && Count(idx, j) > 0 ==> c[j] == Mean(points, idx, j, d))
  {
    MeansUpToCost(points, idx, c, |c|, d);
    CostAgrees(points, idx, MeansUpTo(points, idx, c, |c|, d), MeansOr(points, idx, c', d), |points|, d);
    if forall j :: 0 <= j < |c| && Count(idx, j) > 0 ==> c[j] == Mean(points, idx, j, d) {
      CostAgrees(points, idx, c, MeansOr(points, idx, c', d), |points|, d);
    }
  }

  lemma {:induction false} PointwiseCheaper(points: seq<Point>, best: Assignment, idx: Assignment, c: seq<Point>,
                                            n: nat, d: nat)
    requires Clusters(points, c, d) && Assigns(best, |points|, |c|) && Assigns(idx, |points|, |c|)
    requires n <= |points|
    requires forall i :: 0 <= i < n ==> Dist2(points[i], c[best[i]]) <= Dist2(points[i], c[idx[i]])
    ensures CostTo(points, best, c, n, d) <= CostTo(points, idx, c, n, d)
  {
    if n > 0 {
      PointwiseCheaper(points, best, idx, c, n - 1, d);
    }
  }

  // Assigning every point to its nearest centre is the cheapest assignment.
  lemma NearestIsCheapest(points: seq<Point>, idx: Assignment, c: seq<Point>, d: nat)
    requires Clusters(points, c, d) && Assigns(idx, |points|, |c|)
    ensures Cost(points, Assign(points, c, d), c, d) <= Cost(points, idx, c, d)
  {
    var best := Assign(points, c, d);
    forall i | 0 <= i < |points|
      ensures Dist2(points[i], c[best[i]]) <= Dist2(points[i], c[idx[i]])
    {
      assert best[i] == Nearest(points[i], c);
    }
    PointwiseCheaper(points, best, idx, c, |points|, d);
  }

  // ----- descent -----

  // The least cost reachable with a given assignment.
  function MeanCost(points: seq<Point>, idx: Assignment, k: nat, d: nat): real
    requires k > 0 && AllOfDimension(points, d) && Assigns(idx, |points|, k)
  {
    Cost(points, idx, MeansOrZero(points, idx, k, d), d)
  }

  // One pass from centres c leads to centres c' that are the means of the assignment it made.
  ghost predicate Follows(points: seq<Point>, c: seq<Point>, c': seq<Point>, d: nat)
    requires Clusters(points, c, d)
  {
    && |c'| == |c| && AllOfDimension(c', d)
    && var idx := Assign(points, c, d);
       forall j :: 0 <= j < |c| && Count(idx, j) > 0 ==> c'[j] == Mean(points, idx, j, d)
  }

  // The next cost lies between the mean cost of the next assignment and that of this one,
  // whatever is done with the centres of empty clusters.
  lemma Sandwich(points: seq<Point>, c: seq<Point>, c': seq<Point>, d: nat)
    requires Clusters(points, c, d) && Follows(points, c, c', d)
    ensures CostOf(points, c', d) <= MeanCost(points, Assign(points, c, d), |c|, d) <= CostOf(points, c, d)
    ensures MeanCost(points, Assign(points, c, d), |c|, d) == CostOf(points, c, d) ==>
              (forall j :: 0 <= j < |c| && Count(Assign(points, c, d), j) > 0 ==> c[j] == c'[j])
  {
    var idx := Assign(points, c, d);
    var zeros := seq(|c|, _ => Zero(d));
    MeansAreOptimal(points, idx, c, zeros, d);
    CostAgrees(points, idx, c', MeansOrZero(points, idx, |c|, d), |points|, d);
    NearestIsCheapest(points, idx, c', d);
  }

  // Descent: no pass of either version raises the cost.
  lemma KeepDescends(points: seq<Point>, c: seq<Point>, d: nat)
    requires Clusters(points, c, d)
    ensures CostOf(points, StepKeep(points, c, d), d) <= CostOf(points, c, d)
  {
    Sandwich(points, c, StepKeep(points, c, d), d);
  }

  lemma ResetDescends(points: seq<Point>, c: seq<Point>, d: nat)
    requires Clusters(points, c, d)
    ensures CostOf(points, StepReset(points, c, d), d) <= CostOf(points, c, d)
  {
    Sandwich(points, c, StepReset(points, c, d), d);
  }

  // When empty clusters keep their centre, the cost stands still exactly at a fixed point of the iteration.
  lemma KeepStalls(points: seq<Point>, c: seq<Point>, d: nat)
    requires Clusters(points, c, d)
    ensures CostOf(points, StepKeep(points, c, d), d) == CostOf(points, c, d) <==> StepKeep(points, c, d) == c
  {
    Sandwich(points, c, StepKeep(points, c, d), d);
  }

  // ----- finitely many assignments -----

  ghost function Assignments(n: nat, k: nat): set<Assignment> {
    if n == 0 then {[]}
    else set s, j | s in Assignments(n - 1, k) && 0 <= j < k :: s + [j]
  }

  lemma {:induction false} AllAssignments(idx: Assignment, n: nat, k: nat)
    ensures idx in Assignments(n, k) <==> Assigns(idx, n, k)
    decreases n
  {
    if n > 0 {
      if |idx| == n {
        var s, j := idx[..n-1], idx[n-1];
        assert idx == s + [j];
        AllAssignments(s, n - 1, k);
      }
      if idx in Assignments(n, k) {
        var s, j :| s in Assignments(n - 1, k) && 0 <= j < k && idx == s + [j];
        AllAssignments(s, n - 1, k);
      }
    }
  }

  ghost function Below(points: seq<Point>, k: nat, d: nat, v: real): set<Assignment>
    requires k > 0 && AllOfDimension(points, d)
  {
    set a | a in Assignments(|points|, k) && Assigns(a, |points|, k) && MeanCost(points, a, k, d) < v
  }

  ghost function AtMost(points: seq<Point>, k: nat, d: nat, v: real): set<Assignment>
    requires k > 0 && AllOfDimension(points, d)
  {
    set a | a in Assignments(|points|, k) && Assigns(a, |points|, k) && MeanCost(points, a, k, d) <= v
  }

  // How many strict decreases of the cost can still happen.
  ghost function Measure(points: seq<Point>, k: nat, d: nat, v: real): nat
    requires k > 0 && AllOfDimension(points, d)
  {
    |Below(points, k, d, v)| + |AtMost(points, k, d, v)|
  }

  lemma MeasureDecreases(points: seq<Point>, c: seq<Point>, c': seq<Point>, d: nat)
    requires Clusters(points, c, d) && Follows(points, c, c', d)
    requires CostOf(points, c', d) != CostOf(points, c, d)
    ensures Measure(points, |c|, d, CostOf(points, c', d)) < Measure(points, |c|, d, CostOf(points, c, d))
  {
    var v, v' := CostOf(points, c, d), CostOf(points, c', d);
    var idx := Assign(points, c, d);
    Sandwich(points, c, c', d);
    AllAssignments(idx, |points|, |c|);
    SubsetSize(Below(points, |c|, d, v'), Below(points, |c|, d, v));
    SubsetSize(AtMost(points, |c|, d, v'), AtMost(points, |c|, d, v));
    if v' < MeanCost(points, idx, |c|, d) {
      assert idx in AtMost(points, |c|, d, v) && idx !in AtMost(points, |c|, d, v');
    } else {
      assert idx in Below(points, |c|, d, v) && idx !in Below(points, |c|, d, v');
    }
  }

  lemma MeasureBound(points: seq<Point>, k: nat, d: nat, v: real)
    requires k > 0 && AllOfDimension(points, d)
    ensures Measure(points, k, d, v) <= 2 * |Assignments(|points|, k)|
  {
    SubsetSize(Below(points, k, d, v), Assignments(|points|, k));
    SubsetSize(AtMost(points, k, d, v), Assignments(|points|, k));
  }

  // ----- the loop `while V != oldV` -----

  // What the loop knows when the passes so far have cost `costs`, V is v and oldV is w.
  ghost predicate Progress(costs: seq<real>, v: real, w: real) {
    && (costs == [] ==> v == 0.0 && w == -1.0)
    && (costs != [] ==> v == costs[|costs|-1] && w == if |costs| == 1 then 0.0 else costs[|costs|-2])
    && (|costs| > 1 ==> costs[0] != 0.0)
    && (forall t :: 1 <= t < |costs| ==> costs[t] <= costs[t-1])
    && (forall t :: 1 <= t < |costs| - 1 ==> costs[t] < costs[t-1])
  }

  // A bound on the passes still to come.
  ghost function PassesLeft(points: seq<Point>, k: nat, d: nat, costs: seq<real>, v: real, w: real): nat
    requires k > 0 && AllOfDimension(points, d)
  {
    if costs == [] then 2 + 2 * |Assignments(|points|, k)|
    else if v == w then 0
    else 1 + Measure(points, k, d, v)
  }

  lemma ProgressStep(points: seq<Point>, c: seq<Point>, c': seq<Point>, d: nat, costs: seq<real>, v: real, w: real,
                     v': real)
    requires Progress(costs, v, w) && v != w
    requires Clusters(points, c', d) && v' == CostOf(points, c', d)
    requires costs != [] ==>
               Clusters(points, c, d) && |c| == |c'| && Follows(points, c, c', d) && v == CostOf(points, c, d)
    ensures Progress(costs + [v'], v', v)
    ensures PassesLeft(points, |c'|, d, costs + [v'], v', v) < PassesLeft(points, |c'|, d, costs, v, w)
  {
    hide CostTo, Below, AtMost;
    if costs == [] {
      MeasureBound(points, |c'|, d, v');
    } else {
      Sandwich(points, c, c', d);
      if v' != v {
        MeasureDecreases(points, c, c', d);
      }
    }
  }

  // ----- fixed points -----

  // Every index is the first nearest of the centres and every non-empty cluster's centre is its mean.
  ghost predicate FixedPoint(points: seq<Point>, c: seq<Point>, idx: Assignment, d: nat)
    requires Clusters(points, c, d)
  {
    && Assigns(idx, |points|, |c|)
    && (forall i :: 0 <= i < |points| ==> IsFirstNearest(points[i], c, idx[i]))
    && (forall j :: 0 <= j < |c| && Count(idx, j) > 0 ==> c[j] == Mean(points, idx, j, d))
  }

  lemma FixedPointIffUnmoved(points: seq<Point>, c: seq<Point>, idx: Assignment, d: nat)
    requires Clusters(points, c, d)
    ensures FixedPoint(points, c, idx, d) <==> idx == Assign(points, c, d) && StepKeep(points, c, d) == c
  {
    if FixedPoint(points, c, idx, d) {
      forall i | 0 <= i < |points| ensures idx[i] == Nearest(points[i], c) {
        FirstNearestIsUnique(points[i], c, idx[i]);
      }
      assert idx == Assign(points, c, d);
      assert StepKeep(points, c, d) == c;
    }
    if idx == Assign(points, c, d) && StepKeep(points, c, d) == c {
      forall j | 0 <= j < |c| && Count(idx, j) > 0 ensures c[j] == Mean(points, idx, j, d) {
        assert StepKeep(points, c, d)[j] == c[j];
      }
    }
  }

  lemma {:induction false} CostNonNegative(points: seq<Point>, idx: Assignment, c: seq<Point>, n: nat, d: nat)
    requires Clusters(points, c, d) && Assigns(idx, |points|, |c|) && n <= |points|
    ensures CostTo(points, idx, c, n, d) >= 0.0
  {
    if n > 0 {
      CostNonNegative(points, idx, c, n - 1, d);
      Dist2Definite(points[n-1], c[idx[n-1]]);
    }
  }

  // A clustering of cost zero cannot be improved: its centres are its means.
  lemma ZeroCostIsFixed(points: seq<Point>, c: seq<Point>, d: nat)
    requires Clusters(points, c, d) && CostOf(points, c, d) == 0.0
    ensures StepKeep(points, c, d) == c
  {
    var c' := StepKeep(points, c, d);
    Sandwich(points, c, c', d);
    CostNonNegative(points, Assign(points, c', d), c', |points|, d);
    KeepStalls(points, c, d);
  }
}
