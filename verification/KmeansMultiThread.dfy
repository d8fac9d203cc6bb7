/** The task-parallel clustering loop: nearest centres found by range tasks, empty clusters
    keep their centre. The tasks' interleaving is the subject of module ThreadPool. */
module KmeansMultiThread {
  import opened Points
  import opened Lloyd
  import opened LloydLoop
  import opened TaskRanges

  // Leaving the loop, by a repeated cost or by a first cost of 0, means the centres have stopped moving.
  lemma ExitIsFixed(points: seq<Point>, c: seq<Point>, n: nat, costs: seq<real>, v: real, d: nat)
    requires Clusters(points, c, d) && IsCosts(Keep, points, c, costs, d) && |costs| == n && Progress(costs, v, v)
    ensures n > 0
    ensures Iterate(Keep, points, c, n, d) == Iterate(Keep, points, c, n - 1, d)
    ensures FixedPoint(points, Iterate(Keep, points, c, n, d), Assign(points, Iterate(Keep, points, c, n - 1, d), d), d)
  {
    var p := Iterate(Keep, points, c, n - 1, d);
    if n == 1 {
      ZeroCostIsFixed(points, p, d);
    } else {
      KeepStalls(points, Iterate(Keep, points, c, n - 2, d), d);
    }
    assert StepKeep(points, p, d) == p;
    FixedPointIffUnmoved(points, p, Assign(points, p, d), d);
  }

  method FindNearest(pnt: Point, centers: seq<Point>) returns (minI: nat, dist2: real)
    requires centers != [] && AllOfDimension(centers, |pnt|)
    ensures IsFirstNearest(pnt, centers, minI)
    ensures dist2 == Dist2(pnt, centers[minI])
  {
    dist2 := Dist2(centers[0], pnt);
    minI := 0;
    Dist2Symmetric(pnt, centers[0]);
    for i := 1 to |centers|
      invariant minI < i
      invariant dist2 == Dist2(pnt, centers[minI])
      invariant forall j :: 0 <= j < i ==> dist2 <= Dist2(pnt, centers[j])
      invariant forall j :: 0 <= j < minI ==> dist2 < Dist2(pnt, centers[j])
    {
      var d2 := Dist2(centers[i], pnt);
      Dist2Symmetric(pnt, centers[i]);
      if dist2 > d2 {
        dist2 := d2;
        minI := i;
      }
    }
  }

  class CKmeans {
    const vpnts: seq<Point>
    ghost const dim: nat
    var centers: seq<Point>
    var indexes: seq<nat>

    // The points are given; the seeding step supplies the first centres.
    constructor (vpnts: seq<Point>, centers: seq<Point>, ghost d: nat)
      requires Clusters(vpnts, centers, d)
      ensures Valid() && this.vpnts == vpnts && this.centers == centers && indexes == [] && dim == d
    {
      this.vpnts := vpnts;
      this.centers := centers;
      this.indexes := [];
      dim := d;
    }

    ghost predicate Valid()
      reads this
    {
      Clusters(vpnts, centers, dim) && |indexes| <= |vpnts|
    }

    // One task: the points of its range and no others get their nearest centre.
    method Execute(task: Range)
      requires Valid() && task.end <= |indexes| == |vpnts|
      modifies this`indexes
      ensures |indexes| == |vpnts|
      ensures forall i :: 0 <= i < |vpnts| ==>
                indexes[i] == if InRange(task, i) then Nearest(vpnts[i], centers) else old(indexes)[i]
    {
      var i := task.begin;
      while i < task.end
        invariant |indexes| == |vpnts| && task.begin <= i
        invariant i <= task.end || task.end < task.begin
        invariant forall j :: 0 <= j < |vpnts| ==>
                    indexes[j] == if InRange(task, j) && j < i then Nearest(vpnts[j], centers) else old(indexes)[j]
      {
        var near, _ := FindNearest(vpnts[i], centers);
        FirstNearestIsUnique(vpnts[i], centers, near);
        indexes := indexes[i := near];
        i := i + 1;
      }
    }

    // The twelve tasks, executed in the order they were queued.
    method MakeClusters(tasks: seq<Range>)
      requires Valid() && tasks == Tasks(|vpnts|)
      modifies this`indexes
      ensures indexes == Assign(vpnts, centers, dim)
    {
      if |indexes| < |vpnts| {
        indexes := indexes + seq(|vpnts| - |indexes|, _ => 0);
      }
      for t := 0 to |tasks|
        invariant |indexes| == |vpnts|
        invariant forall i :: 0 <= i < |vpnts| && OwnerTask(|vpnts|, i) < t ==> indexes[i] == Nearest(vpnts[i], centers)
      {
        TaskFits(|vpnts|, t);
        label before:
        Execute(tasks[t]);
        forall i | 0 <= i < |vpnts| && OwnerTask(|vpnts|, i) < t + 1
          ensures indexes[i] == Nearest(vpnts[i], centers)
        {
          RangesPartition(|vpnts|, t, i);
        }
      }
    }

    // Cluster sums, cluster sizes and the cost, all with the centres the points were assigned to.
    method Accumulate(numPoints: array<nat>, accumulator: array<Point>) returns (v: real)
      requires Valid() && Assigns(indexes, |vpnts|, |centers|)
      requires numPoints.Length == accumulator.Length == |centers|
      requires forall j :: 0 <= j < |centers| ==> accumulator[j] == Zero(dim) && numPoints[j] == 0
      modifies numPoints, accumulator
      ensures v == Cost(vpnts, indexes, centers, dim)
      ensures forall j :: 0 <= j < |centers| ==> accumulator[j] == SumTo(vpnts, indexes, j, |vpnts|, dim)
      ensures forall j :: 0 <= j < |centers| ==> numPoints[j] == Count(indexes, j)
    {
      v := 0.0;
      for i := 0 to |vpnts|
        invariant v == CostTo(vpnts, indexes, centers, i, dim)
        invariant forall j :: 0 <= j < |centers| ==> accumulator[j] == SumTo(vpnts, indexes, j, i, dim)
        invariant forall j :: 0 <= j < |centers| ==> numPoints[j] == CountTo(indexes, j, i)
      {
        var ind := indexes[i];
        v := v + Dist2(vpnts[i], centers[ind]);
        accumulator[ind] := Add(accumulator[ind], vpnts[i]);
        numPoints[ind] := numPoints[ind] + 1;
      }
    }

    // The new centres; an empty cluster keeps its old one.
    method Recentre(numPoints: array<nat>, accumulator: array<Point>, d: nat)
      requires Valid() && Assigns(indexes, |vpnts|, |centers|) && d == dim
      requires numPoints.Length == accumulator.Length == |centers|
      requires forall j :: 0 <= j < |centers| ==> accumulator[j] == SumTo(vpnts, indexes, j, |vpnts|, dim)
      requires forall j :: 0 <= j < |centers| ==> numPoints[j] == Count(indexes, j)
      modifies this`centers, numPoints, accumulator
      ensures centers == MeansOr(vpnts, indexes, old(centers), dim)
      ensures forall j :: 0 <= j < |centers| ==> accumulator[j] == Zero(dim) && numPoints[j] == 0
    {
      for i := 0 to |centers|
        invariant |centers| == |old(centers)|
        invariant forall j :: 0 <= j < |centers| ==>
                    centers[j] == if j < i then MeansOr(vpnts, indexes, old(centers), dim)[j] else old(centers)[j]
        invariant forall j :: 0 <= j < i ==> accumulator[j] == Zero(dim) && numPoints[j] == 0
        invariant forall j :: i <= j < |centers| ==> accumulator[j] == SumTo(vpnts, indexes, j, |vpnts|, dim)
        invariant forall j :: i <= j < |centers| ==> numPoints[j] == Count(indexes, j)
      {
        if numPoints[i] > 0 {
          centers := centers[i := Div(accumulator[i], numPoints[i] as real)];
        }
        numPoints[i] := 0;
        accumulator[i] := Zero(d);
      }
    }

    // The body of the loop.
    method Pass(numPoints: array<nat>, accumulator: array<Point>, d: nat) returns (v: real)
      requires Valid() && d == dim
      requires numPoints.Length == accumulator.Length == |centers|
      requires forall j :: 0 <= j < |centers| ==> accumulator[j] == Zero(dim) && numPoints[j] == 0
      modifies this`centers, this`indexes, numPoints, accumulator
      ensures Valid()
      ensures indexes == Assign(vpnts, old(centers), dim)
      ensures v == CostOf(vpnts, old(centers), dim)
      ensures centers == StepKeep(vpnts, old(centers), dim)
      ensures forall j :: 0 <= j < |centers| ==> accumulator[j] == Zero(dim) && numPoints[j] == 0
    {
      MakeClusters(Tasks(|vpnts|));
      v := Accumulate(numPoints, accumulator);
      Recentre(numPoints, accumulator, d);
    }

    // The whole loop ends for every input, and at its exit the centres and the assignment are a
    // fixed point of the iteration.
    method Kmeans(d: nat) returns (numIterations: nat)
      requires Valid() && d == dim
      modifies this`centers, this`indexes
      ensures Valid() && numIterations > 0
      ensures FixedPoint(vpnts, centers, indexes, dim)
      ensures centers == Iterate(Keep, vpnts, old(centers), numIterations, dim)
      ensures StopsAfter(Keep, vpnts, old(centers), numIterations, dim)
      ensures CostOf(vpnts, centers, dim) <= CostOf(vpnts, old(centers), dim)
      ensures numIterations <= 2 + 2 * |Assignments(|vpnts|, |centers|)|
    {
      hide Iterate, PassCost, Progress, PassesLeft, CostOf, StepKeep, Assign, FixedPoint, StopsAfter;
      ghost var c0 := centers;
      LoopStart(Keep, vpnts, c0, dim);
      var numPoints := new nat[|centers|](_ => 0);
      var accumulator := new Point[|centers|](_ => Zero(d));
      var v, oldV := 0.0, -1.0;
      numIterations := 0;
      ghost var costs: seq<real> := [];
      ghost var left := PassesLeft(vpnts, |c0|, dim, costs, v, oldV);
      while v != oldV
        invariant Valid() && fresh(numPoints) && fresh(accumulator)
        invariant numPoints.Length == accumulator.Length == |centers| == |c0|
        invariant forall j :: 0 <= j < |centers| ==> accumulator[j] == Zero(dim) && numPoints[j] == 0
        invariant centers == Iterate(Keep, vpnts, c0, numIterations, dim)
        invariant numIterations > 0 ==> indexes == Assign(vpnts, Iterate(Keep, vpnts, c0, numIterations - 1, dim), dim)
        invariant IsCosts(Keep, vpnts, c0, costs, dim) && |costs| == numIterations
        invariant Progress(costs, v, oldV)
        invariant left == PassesLeft(vpnts, |c0|, dim, costs, v, oldV)
        invariant numIterations + left <= 2 + 2 * |Assignments(|vpnts|, |c0|)|
        decreases left
      {
        ghost var w := oldV;
        oldV := v;
        v := Pass(numPoints, accumulator, d);
        LoopStep(Keep, vpnts, c0, costs, oldV, w, v, dim);
        costs := costs + [v];
        numIterations := numIterations + 1;
        left := PassesLeft(vpnts, |c0|, dim, costs, v, oldV);
      }
      ExitIsFixed(vpnts, c0, numIterations, costs, v, dim);
      NeverDearer(Keep, vpnts, c0, numIterations, dim);
      LoopEnd(Keep, vpnts, c0, costs, v, dim);
    }
  }

  lemma TaskFits(n: nat, t: nat)
    requires t < NUM_TASKS
    ensures TaskRange(n, t).begin <= TaskRange(n, t).end <= n
  {
    var r := TaskRange(n, t);
    if r.begin < r.end {
      RangesPartition(n, t, r.end - 1);
    } else {
      var q := n / (NUM_TASKS - 1);
      assert n == (NUM_TASKS - 1) * q + n % (NUM_TASKS - 1);
      if t < NUM_TASKS - 1 {
        ProductOrder(t, NUM_TASKS - 1, q);
      }
    }
  }
}
