/** The single-threaded clustering loop: two centre buffers swapped after every pass,
    empty clusters reset to the origin. */
module KmeansSingleThread {
  import opened Points
  import opened Lloyd
  import opened LloydLoop

  method FindNearest(pnt: Point, centers: array<Point>) returns (minI: nat, dist2: real)
    requires centers.Length > 0 && AllOfDimension(centers[..], |pnt|)
    ensures IsFirstNearest(pnt, centers[..], minI)
    ensures dist2 == Dist2(pnt, centers[minI])
  {
    dist2 := Dist2(centers[0], pnt);
    minI := 0;
    Dist2Symmetric(pnt, centers[..][0]);
    for i := 1 to centers.Length
      invariant minI < i
      invariant dist2 == Dist2(pnt, centers[..][minI])
      invariant forall j :: 0 <= j < i ==> dist2 <= Dist2(pnt, centers[..][j])
      invariant forall j :: 0 <= j < minI ==> dist2 < Dist2(pnt, centers[..][j])
    {
      var d2 := Dist2(centers[i], pnt);
      Dist2Symmetric(pnt, centers[..][i]);
      if dist2 > d2 {
        dist2 := d2;
        minI := i;
      }
    }
  }

  method MakeClusters(vpnts: seq<Point>, centers: array<Point>, indexes0: seq<nat>, ghost d: nat)
    returns (indexes: seq<nat>)
    requires Clusters(vpnts, centers[..], d)
    ensures |indexes| == if |indexes0| < |vpnts| then |vpnts| else |indexes0|
    ensures indexes[..|vpnts|] == Assign(vpnts, centers[..], d)
    ensures forall i :: |vpnts| <= i < |indexes| ==> indexes[i] == indexes0[i]
  {
    indexes := indexes0;
    if |indexes| < |vpnts| {
      indexes := indexes + seq(|vpnts| - |indexes|, _ => 0);
    }
    for i := 0 to |vpnts|
      invariant |indexes| == if |indexes0| < |vpnts| then |vpnts| else |indexes0|
      invariant forall j :: 0 <= j < i ==> indexes[j] == Nearest(vpnts[j], centers[..])
      invariant forall j :: |vpnts| <= j < |indexes| ==> indexes[j] == indexes0[j]
    {
      var near, _ := FindNearest(vpnts[i], centers);
      FirstNearestIsUnique(vpnts[i], centers[..], near);
      indexes := indexes[i := near];
    }
  }

  // One pass over the points: cluster sums into centNew, cluster sizes into numPoints, cost into v.
  method Accumulate(vpnts: seq<Point>, indexes: Assignment, centOld: array<Point>, centNew: array<Point>,
                    numPoints: array<nat>, d: nat)
    returns (v: real)
    requires Clusters(vpnts, centOld[..], d) && Assigns(indexes, |vpnts|, centOld.Length)
    requires centOld != centNew && centNew.Length == numPoints.Length == centOld.Length
    requires forall j :: 0 <= j < centNew.Length ==> centNew[j] == Zero(d) && numPoints[j] == 0
    modifies centNew, numPoints
    ensures v == Cost(vpnts, indexes, centOld[..], d)
    ensures forall j :: 0 <= j < centNew.Length ==> centNew[j] == SumTo(vpnts, indexes, j, |vpnts|, d)
    ensures forall j :: 0 <= j < centNew.Length ==> numPoints[j] == Count(indexes, j)
  {
    v := 0.0;
    for i := 0 to |vpnts|
      invariant v == CostTo(vpnts, indexes, centOld[..], i, d)
      invariant forall j :: 0 <= j < centNew.Length ==> centNew[j] == SumTo(vpnts, indexes, j, i, d)
      invariant forall j :: 0 <= j < centNew.Length ==> numPoints[j] == CountTo(indexes, j, i)
    {
      var ind := indexes[i];
      assert centOld[..][ind] == centOld[ind];
      v := v + Dist2(vpnts[i], centOld[ind]);
      centNew[ind] := Add(centNew[ind], vpnts[i]);
      numPoints[ind] := numPoints[ind] + 1;
    }
  }

  // Divides the sums, clears the old buffer and the counters.
  method Divide(vpnts: seq<Point>, indexes: Assignment, centOld: array<Point>, centNew: array<Point>,
                numPoints: array<nat>, d: nat)
    requires centOld.Length > 0 && AllOfDimension(vpnts, d) && Assigns(indexes, |vpnts|, centOld.Length)
    requires centOld != centNew && centNew.Length == numPoints.Length == centOld.Length
    requires forall j :: 0 <= j < centNew.Length ==> centNew[j] == SumTo(vpnts, indexes, j, |vpnts|, d)
    requires forall j :: 0 <= j < centNew.Length ==> numPoints[j] == Count(indexes, j)
    modifies centOld, centNew, numPoints
    ensures centNew[..] == MeansOrZero(vpnts, indexes, centNew.Length, d)
    ensures forall j :: 0 <= j < centOld.Length ==> centOld[j] == Zero(d) && numPoints[j] == 0
  {
    for i := 0 to centNew.Length
      invariant forall j :: 0 <= j < i ==> centOld[j] == Zero(d) && numPoints[j] == 0
      invariant forall j :: 0 <= j < i ==> centNew[j] == MeansOrZero(vpnts, indexes, centNew.Length, d)[j]
      invariant forall j :: i <= j < centNew.Length ==> centNew[j] == SumTo(vpnts, indexes, j, |vpnts|, d)
      invariant forall j :: i <= j < centNew.Length ==> numPoints[j] == Count(indexes, j)
    {
      centOld[i] := Zero(d);
      if numPoints[i] > 0 {
        centNew[i] := Div(centNew[i], numPoints[i] as real);
      } else {
        EmptySum(vpnts, indexes, i, |vpnts|, d);
      }
      numPoints[i] := 0;
    }
  }

  lemma {:induction false} EmptySum(points: seq<Point>, idx: Assignment, j: nat, n: nat, d: nat)
    requires n <= |points| && n <= |idx| && AllOfDimension(points, d)
    requires CountTo(idx, j, n) == 0
    ensures SumTo(points, idx, j, n, d) == Zero(d)
  {
    if n > 0 {
      EmptySum(points, idx, j, n - 1, d);
    }
  }

  // The body of the loop up to the swap: the new centres are left in centNew, centOld and numPoints are cleared.
  method Pass(vpnts: seq<Point>, indexes0: seq<nat>, centOld: array<Point>, centNew: array<Point>,
              numPoints: array<nat>, d: nat)
    returns (indexes: seq<nat>, v: real)
    requires Clusters(vpnts, centOld[..], d) && |indexes0| <= |vpnts|
    requires centOld != centNew && centNew.Length == numPoints.Length == centOld.Length
    requires forall j :: 0 <= j < centNew.Length ==> centNew[j] == Zero(d) && numPoints[j] == 0
    modifies centOld, centNew, numPoints
    ensures indexes == Assign(vpnts, old(centOld[..]), d)
    ensures v == CostOf(vpnts, old(centOld[..]), d)
    ensures centNew[..] == StepReset(vpnts, old(centOld[..]), d)
    ensures forall j :: 0 <= j < centOld.Length ==> centOld[j] == Zero(d) && numPoints[j] == 0
  {
    indexes := MakeClusters(vpnts, centOld, indexes0, d);
    assert indexes == indexes[..|vpnts|];
    v := Accumulate(vpnts, indexes, centOld, centNew, numPoints, d);
    Divide(vpnts, indexes, centOld, centNew, numPoints, d);
  }

  // The whole loop. It ends for every input; it returns the centres and the assignment of the
  // pass at which the cost first repeated.
  method Kmeans(vpnts: seq<Point>, centers: array<Point>, d: nat)
    returns (result: seq<Point>, indexes: seq<nat>, numIterations: nat)
    requires Clusters(vpnts, centers[..], d)
    modifies centers
    ensures StopsAfter(Reset, vpnts, old(centers[..]), numIterations, d)
    ensures result == Iterate(Reset, vpnts, old(centers[..]), numIterations, d)
    ensures indexes == Assign(vpnts, Iterate(Reset, vpnts, old(centers[..]), numIterations - 1, d), d)
    ensures numIterations <= 2 + 2 * |Assignments(|vpnts|, centers.Length)|
  {
    hide Iterate, PassCost, Progress, PassesLeft, CostOf, StepReset, Assign;
    ghost var c0 := centers[..];
    LoopStart(Reset, vpnts, c0, d);
    var k := centers.Length;
    var centOld, centNew := centers, new Point[k](_ => Zero(d));
    var numPoints := new nat[k](_ => 0);
    var v, oldV := 0.0, -1.0;
    indexes := [];
    numIterations := 0;
    ghost var costs: seq<real> := [];
    ghost var left := PassesLeft(vpnts, k, d, costs, v, oldV);
    while v != oldV
      invariant centOld != centNew && centOld.Length == centNew.Length == numPoints.Length == k
      invariant centOld == centers || fresh(centOld)
      invariant centNew == centers || fresh(centNew)
      invariant fresh(numPoints)
      invariant centOld[..] == Iterate(Reset, vpnts, c0, numIterations, d)
      invariant forall j :: 0 <= j < k ==> centNew[j] == Zero(d) && numPoints[j] == 0
      invariant |indexes| <= |vpnts|
      invariant numIterations > 0 ==> indexes == Assign(vpnts, Iterate(Reset, vpnts, c0, numIterations - 1, d), d)
      invariant IsCosts(Reset, vpnts, c0, costs, d) && |costs| == numIterations
      invariant Progress(costs, v, oldV)
      invariant left == PassesLeft(vpnts, k, d, costs, v, oldV)
      invariant numIterations + left <= 2 + 2 * |Assignments(|vpnts|, k)|
      decreases left
    {
      ghost var w := oldV;
      oldV := v;
      indexes, v := Pass(vpnts, indexes, centOld, centNew, numPoints, d);
      centOld, centNew := centNew, centOld;
      LoopStep(Reset, vpnts, c0, costs, oldV, w, v, d);
      costs := costs + [v];
      numIterations := numIterations + 1;
      left := PassesLeft(vpnts, k, d, costs, v, oldV);
    }
    result := centOld[..];
    LoopEnd(Reset, vpnts, c0, costs, v, d);
  }

  // ----- what the returned clustering is -----

  // No point is as near to the origin, as the new centre of an empty cluster of lower number, as
  // to its own centre.
  ghost predicate NoResetTie(points: seq<Point>, q: seq<Point>, d: nat)
    requires Clusters(points, q, d)
  {
    var idx := Assign(points, q, d);
    forall i, j :: 0 <= i < |points| && 0 <= j < idx[i] && Count(idx, j) == 0 ==>
      Dist2(points[i], Zero(d)) != Dist2(points[i], q[idx[i]])
  }

  lemma {:induction false} PointwiseEqual(points: seq<Point>, best: Assignment, idx: Assignment, c: seq<Point>, n: nat,
                                          d: nat)
    requires Clusters(points, c, d) && Assigns(best, |points|, |c|) && Assigns(idx, |points|, |c|) && n <= |points|
    requires forall i :: 0 <= i < n ==> Dist2(points[i], c[best[i]]) <= Dist2(points[i], c[idx[i]])
    requires CostTo(points, best, c, n, d) == CostTo(points, idx, c, n, d)
    ensures forall i :: 0 <= i < n ==> Dist2(points[i], c[best[i]]) == Dist2(points[i], c[idx[i]])
  {
    hide Dist2;
    if n > 0 {
      PointwiseCheaper(points, best, idx, c, n - 1, d);
      PointwiseEqual(points, best, idx, c, n - 1, d);
    }
  }

  // When a pass leaves the cost where it was, it leaves the centres of the clusters that are not
  // empty where they were, and every point as near to its old centre as to its nearest one.
  lemma StallFacts(points: seq<Point>, q: seq<Point>, d: nat)
    requires Clusters(points, q, d) && CostOf(points, StepReset(points, q, d), d) == CostOf(points, q, d)
    ensures var idx, q' := Assign(points, q, d), StepReset(points, q, d);
            && (forall j :: 0 <= j < |q| ==> q'[j] == if Count(idx, j) > 0 then q[j] else Zero(d))
            && forall i :: 0 <= i < |points| ==>
                 Count(idx, idx[i]) > 0
                 && Dist2(points[i], q'[Assign(points, q', d)[i]]) == Dist2(points[i], q'[idx[i]])
  {
    hide Dist2, Nearest, CostTo;
    var idx, q' := Assign(points, q, d), StepReset(points, q, d);
    Sandwich(points, q, q', d);
    var best := Assign(points, q', d);
    forall i | 0 <= i < |points|
      ensures Dist2(points[i], q'[best[i]]) <= Dist2(points[i], q'[idx[i]]) && Count(idx, idx[i]) > 0
    {
      assert best[i] == Nearest(points[i], q');
      CountPositive(idx, i, |points|);
    }
    PointwiseEqual(points, best, idx, q', |points|, d);
  }

  // Some centres, those in e, move to z and the others stay. A point whose nearest one, w, stays
  // and stays a nearest one keeps it as the first exactly if none before w has moved as near.
  lemma FirstNearestStays(x: Point, q: seq<Point>, q': seq<Point>, w: nat, w': nat, e: set<nat>, z: Point)
    requires AllOfDimension(q, |x|) && AllOfDimension(q', |x|) && |q'| == |q| && |z| == |x|
    requires IsFirstNearest(x, q, w) && IsFirstNearest(x, q', w') && w !in e
    requires forall j :: 0 <= j < |q| ==> q'[j] == if j in e then z else q[j]
    requires Dist2(x, q'[w']) == Dist2(x, q'[w])
    ensures w' == w <==> forall j :: 0 <= j < w && j in e ==> Dist2(x, z) != Dist2(x, q[w])
  {
    hide Dist2;
    if w' < w {
      assert q'[w] == q[w] && Dist2(x, q[w]) < Dist2(x, q[w']);
      assert w' in e;
    }
    forall j | 0 <= j < w && j in e && Dist2(x, z) == Dist2(x, q[w]) ensures w' < w {
      assert q'[j] == z && q'[w] == q[w];
    }
  }

  lemma SettledPoint(points: seq<Point>, q: seq<Point>, d: nat, i: nat)
    requires Clusters(points, q, d) && CostOf(points, StepReset(points, q, d), d) == CostOf(points, q, d)
    requires i < |points|
    ensures var idx := Assign(points, q, d);
            Nearest(points[i], StepReset(points, q, d)) == idx[i] <==>
            forall j :: 0 <= j < idx[i] && Count(idx, j) == 0 ==>
              Dist2(points[i], Zero(d)) != Dist2(points[i], q[idx[i]])
  {
    hide Dist2, CostTo, CountTo, Nearest, StepReset, IsFirstNearest, Assign;
    StallFacts(points, q, d);
    var x, idx, q' := points[i], Assign(points, q, d), StepReset(points, q, d);
    assert idx[i] == Nearest(x, q) && Assign(points, q', d)[i] == Nearest(x, q');
    var empty := set j: nat | j < |q| && Count(idx, j) == 0;
    FirstNearestStays(x, q, q', idx[i], Nearest(x, q'), empty, Zero(d));
  }

  // The loop stops when the cost stands still. The assignment stands still as well, so that a
  // further pass would change nothing, exactly if there is no such tie.
  lemma StallSettles(points: seq<Point>, q: seq<Point>, d: nat)
    requires Clusters(points, q, d) && CostOf(points, StepReset(points, q, d), d) == CostOf(points, q, d)
    ensures Assign(points, StepReset(points, q, d), d) == Assign(points, q, d) <==> NoResetTie(points, q, d)
  {
    var idx, idx' := Assign(points, q, d), Assign(points, StepReset(points, q, d), d);
    forall i | 0 <= i < |points|
      ensures idx'[i] == idx[i] <==>
              forall j :: 0 <= j < idx[i] && Count(idx, j) == 0 ==>
                Dist2(points[i], Zero(d)) != Dist2(points[i], q[idx[i]])
    {
      assert idx'[i] == Nearest(points[i], StepReset(points, q, d));
      SettledPoint(points, q, d, i);
    }
    hide Dist2, CostTo, CountTo, Nearest, StepReset;
    if NoResetTie(points, q, d) {
      assert idx' == idx;
    }
  }

  lemma SettledIsFixed(points: seq<Point>, q: seq<Point>, d: nat)
    requires Clusters(points, q, d) && Assign(points, StepReset(points, q, d), d) == Assign(points, q, d)
    ensures StepReset(points, StepReset(points, q, d), d) == StepReset(points, q, d)
    ensures FixedPoint(points, StepReset(points, q, d), Assign(points, q, d), d)
  {
    var q', idx := StepReset(points, q, d), Assign(points, q, d);
    forall i | 0 <= i < |points| ensures IsFirstNearest(points[i], q', idx[i]) {
      assert Assign(points, q', d)[i] == Nearest(points[i], q');
    }
  }

  // The centres at whose cost the loop noticed that it stands still.
  function StallAt(points: seq<Point>, c: seq<Point>, n: nat, d: nat): seq<Point>
    requires Clusters(points, c, d) && n > 0
  {
    Iterate(Reset, points, c, if n == 1 then 0 else n - 2, d)
  }

  lemma StallCosts(points: seq<Point>, c: seq<Point>, n: nat, d: nat)
    requires Clusters(points, c, d) && StopsAfter(Reset, points, c, n, d)
    ensures var q := StallAt(points, c, n, d); CostOf(points, StepReset(points, q, d), d) == CostOf(points, q, d)
  {
    var q := StallAt(points, c, n, d);
    hide Dist2, CostTo, Nearest;
    if n == 1 {
      ResetDescends(points, q, d);
      CostNonNegative(points, Assign(points, StepReset(points, q, d), d), StepReset(points, q, d), |points|, d);
    }
  }

  // Without such a tie the returned clustering is a fixed point of the iteration, empty clusters or not.
  lemma ExitWithoutTies(points: seq<Point>, c: seq<Point>, n: nat, d: nat)
    requires Clusters(points, c, d) && StopsAfter(Reset, points, c, n, d)
    requires NoResetTie(points, StallAt(points, c, n, d), d)
    ensures FixedPoint(points, Iterate(Reset, points, c, n, d),
                       Assign(points, Iterate(Reset, points, c, n - 1, d), d), d)
  {
    var q := StallAt(points, c, n, d);
    hide Dist2, CostTo, NoResetTie, FixedPoint, Nearest;
    StallCosts(points, c, n, d);
    StallSettles(points, q, d);
    SettledIsFixed(points, q, d);
  }

  // For every input: the returned clustering is a fixed point exactly if assigning the points to
  // the returned centres once more would change no index.
  lemma ExitFixedIff(points: seq<Point>, c: seq<Point>, n: nat, d: nat)
    requires Clusters(points, c, d) && n > 0
    ensures var idx := Assign(points, Iterate(Reset, points, c, n - 1, d), d);
            FixedPoint(points, Iterate(Reset, points, c, n, d), idx, d) <==>
            Assign(points, Iterate(Reset, points, c, n, d), d) == idx
  {
    hide Nearest, CountTo, SumTo;
    var p := Iterate(Reset, points, c, n - 1, d);
    var q, idx := Iterate(Reset, points, c, n, d), Assign(points, p, d);
    assert q == StepReset(points, p, d);
    if FixedPoint(points, q, idx, d) {
      FixedPointIffUnmoved(points, q, idx, d);
    }
    if Assign(points, q, d) == idx {
      SettledIsFixed(points, p, d);
    }
  }
}
