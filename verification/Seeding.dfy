/** Choosing the first centres at random, a point being the more likely the farther it is from the
    centres chosen so far. The random draws are inputs. */
module Seeding {
  import opened Collections
  import opened Wrappers
  import opened Points
  import opened Lloyd

  // Squared distance to the nearest centre.
  function DistTo(x: Point, c: seq<Point>): real
    requires c != [] && AllOfDimension(c, |x|)
  {
    Dist2(x, c[Nearest(x, c)])
  }

  // The summed distances of the first n points.
  function Prefix(pts: seq<Point>, c: seq<Point>, n: nat, ghost d: nat): real
    requires n <= |pts| && Clusters(pts, c, d)
  {
    if n == 0 then 0.0 else Prefix(pts, c, n - 1, d) + DistTo(pts[n-1], c)
  }

  function Total(pts: seq<Point>, c: seq<Point>, ghost d: nat): real
    requires Clusters(pts, c, d)
  {
    Prefix(pts, c, |pts|, d)
  }

  // j is the first index whose inclusive sum reaches r; |pts| if there is none.
  ghost predicate IsPick(pts: seq<Point>, c: seq<Point>, r: real, j: nat, d: nat)
    requires Clusters(pts, c, d)
  {
    && j <= |pts|
    && (forall i :: 0 < i <= j ==> Prefix(pts, c, i, d) < r)
    && (j < |pts| ==> Prefix(pts, c, j + 1, d) >= r)
  }

  // The centre chosen next for draw u: the picked point, or what stood in its place before.
  ghost predicate IsNext(pts: seq<Point>, c: seq<Point>, u: real, was: Point, next: Point, d: nat)
    requires Clusters(pts, c, d)
  {
    exists j ::
      0 <= j <= |pts| && IsPick(pts, c, Mul(Total(pts, c, d), u), j, d) && next == if j < |pts| then pts[j] else was
  }

  // ----- what a good draw picks -----

  lemma DistIsZero(x: Point, c: seq<Point>)
    requires c != [] && AllOfDimension(c, |x|)
    ensures DistTo(x, c) >= 0.0 && (DistTo(x, c) == 0.0 <==> x in c)
  {
    var j := Nearest(x, c);
    Dist2Definite(x, c[j]);
    if x in c {
      var i :| 0 <= i < |c| && c[i] == x;
      Dist2Definite(x, c[i]);
    }
  }

  lemma {:induction false} PrefixGrows(pts: seq<Point>, c: seq<Point>, m: nat, n: nat, d: nat)
    requires m <= n <= |pts| && Clusters(pts, c, d)
    ensures Prefix(pts, c, m, d) <= Prefix(pts, c, n, d)
  {
    hide DistTo;
    if m < n {
      PrefixGrows(pts, c, m, n - 1, d);
      DistIsZero(pts[n-1], c);
    }
  }

  // A draw above 0 and at most the sum picks a point, and one that is not a centre yet.
  lemma PickIsNew(pts: seq<Point>, c: seq<Point>, r: real, j: nat, d: nat)
    requires Clusters(pts, c, d) && IsPick(pts, c, r, j, d) && 0.0 < r <= Total(pts, c, d)
    ensures j < |pts| && pts[j] !in c
  {
    assert j > 0 ==> Prefix(pts, c, j, d) < r;
    hide DistTo;
    if j < |pts| {
      assert Prefix(pts, c, j + 1, d) == Prefix(pts, c, j, d) + DistTo(pts[j], c);
      DistIsZero(pts[j], c);
    }
  }

  // The sum is positive exactly while some point is not a centre.
  lemma TotalPositive(pts: seq<Point>, c: seq<Point>, d: nat)
    requires Clusters(pts, c, d)
    ensures Total(pts, c, d) > 0.0 <==> exists j :: 0 <= j < |pts| && pts[j] !in c
  {
    if j :| 0 <= j < |pts| && pts[j] !in c {
      DistIsZero(pts[j], c);
      PrefixGrows(pts, c, 0, j, d);
      PrefixGrows(pts, c, j + 1, |pts|, d);
    } else {
      AllCentres(pts, c, |pts|, d);
    }
  }

  lemma {:induction false} AllCentres(pts: seq<Point>, c: seq<Point>, n: nat, d: nat)
    requires n <= |pts| && Clusters(pts, c, d) && forall j :: 0 <= j < |pts| ==> pts[j] in c
    ensures Prefix(pts, c, n, d) == 0.0
  {
    hide DistTo;
    if n > 0 {
      AllCentres(pts, c, n - 1, d);
      DistIsZero(pts[n-1], c);
    }
  }

  // Each centre from the second on was chosen by its draw, given the centres before it.
  ghost predicate Chosen(pts: seq<Point>, c: seq<Point>, was: seq<Point>, u: seq<real>, d: nat) {
    && c != [] && |was| == |c| == |u| + 1 && AllOfDimension(pts, d) && AllOfDimension(c, d)
    && c[0] in pts
    && forall n :: 1 <= n < |c| ==> Clusters(pts, c[..n], d) && IsNext(pts, c[..n], u[n-1], was[n], c[n], d)
  }

  ghost predicate GoodDraw(pts: seq<Point>, c: seq<Point>, u: real, d: nat)
    requires Clusters(pts, c, d)
  {
    0.0 < Mul(Total(pts, c, d), u) <= Total(pts, c, d)
  }

  lemma NextIsNew(pts: seq<Point>, c: seq<Point>, u: real, was: Point, next: Point, d: nat)
    requires Clusters(pts, c, d) && IsNext(pts, c, u, was, next, d) && GoodDraw(pts, c, u, d)
    ensures next in pts && next !in c
  {
    var r := Mul(Total(pts, c, d), u);
    var j :| 0 <= j <= |pts| && IsPick(pts, c, r, j, d) && next == if j < |pts| then pts[j] else was;
    PickIsNew(pts, c, r, j, d);
  }

  // With good draws the centres are points of the input, no two alike.
  lemma {:induction false} SeedsAreDistinct(pts: seq<Point>, c: seq<Point>, was: seq<Point>, u: seq<real>, d: nat,
                                            n: nat)
    requires Chosen(pts, c, was, u, d) && 1 <= n <= |c|
    requires forall k :: 1 <= k < |c| ==> GoodDraw(pts, c[..k], u[k-1], d)
    ensures Distinct(c[..n]) && forall i :: 0 <= i < n ==> c[i] in pts
  {
    hide GoodDraw, IsNext, Clusters;
    if n > 1 {
      SeedsAreDistinct(pts, c, was, u, d, n - 1);
      var prev := c[..n-1];
      assert GoodDraw(pts, prev, u[n-2], d) && IsNext(pts, prev, u[n-2], was[n-1], c[n-1], d);
      NextIsNew(pts, prev, u[n-2], was[n-1], c[n-1], d);
      assert forall i :: 0 <= i < n - 1 ==> c[i] == prev[i] && c[i] in prev;
    }
  }

  // Every centre that is an input point has that point in its cluster, if the centres are distinct.
  lemma ClustersNotEmpty(pts: seq<Point>, c: seq<Point>, d: nat, m: nat)
    requires Clusters(pts, c, d) && Distinct(c) && m < |c| && c[m] in pts
    ensures exists j :: 0 <= j < |pts| && Nearest(pts[j], c) == m
  {
    var j :| 0 <= j < |pts| && pts[j] == c[m];
    var k := Nearest(pts[j], c);
    Dist2Definite(pts[j], c[m]);
    Dist2Definite(pts[j], c[k]);
    assert c[k] == c[m];
  }

  // Fractions above 0 and at most 1 are good draws as long as there are more distinct points than centres.
  lemma FractionIsGood(pts: seq<Point>, c: seq<Point>, u: real, d: nat)
    requires Clusters(pts, c, d) && 0.0 < u <= 1.0
    requires |c| < |set p | p in pts|
    ensures GoodDraw(pts, c, u, d)
  {
    var ps := set p | p in pts;
    var cs := set p | p in c;
    ElementsBound(c, cs);
    if ps <= cs {
      SubsetSize(ps, cs);
    }
    var p :| p in ps && p !in cs;
    var j :| 0 <= j < |pts| && pts[j] == p;
    TotalPositive(pts, c, d);
    Fraction(Total(pts, c, d), u);
  }

  lemma Fraction(s: real, u: real)
    requires s > 0.0 && 0.0 < u <= 1.0
    ensures 0.0 < Mul(s, u) <= s
  {
    MulPositive(s, u);
    if u < 1.0 {
      MulPositive(s, 1.0 - u);
      assert Mul(s, 1.0 - u) == s - Mul(s, u);
    }
  }

  // ----- the seeding of kmeansRosettaCode.cpp -----

  // Two nested loops over the same counter: the inner one uses it up, so the outer one runs once.
  // group is what the search would start from; it never survives the first comparison.
  method NearestShared(pt: Point, group: nat, cent: array<Point>, nCluster: nat) returns (minI: nat, d2: real)
    requires 0 < nCluster <= cent.Length && AllOfDimension(cent[..], |pt|)
    ensures minI == Nearest(pt, cent[..nCluster]) && d2 == DistTo(pt, cent[..nCluster])
  {
    ghost var c := cent[..nCluster];
    var i := 0;
    minI := group;
    var minD: Option<real> := None;
    while i < nCluster
      invariant i == 0 || i == nCluster + 1
      invariant i > 0 ==> IsFirstNearest(pt, c, minI) && minD == Some(Dist2(pt, c[minI]))
      decreases nCluster - i
    {
      minD := None;
      minI := group;
      i := 0;
      while i < nCluster
        invariant i <= nCluster && (i == 0 ==> minD == None)
        invariant i > 0 ==> IsFirstNearest(pt, c[..i], minI) && minD == Some(Dist2(pt, c[minI]))
      {
        assert cent[i] == c[i];
        Dist2Symmetric(cent[i], pt);
        var d := Dist2(cent[i], pt);
        assert c[..i+1] == c[..i] + [c[i]];
        if minD == None || minD.value > d {
          minD := Some(d);
          minI := i;
        }
        i := i + 1;
      }
      assert c[..nCluster] == c;
      i := i + 1;
    }
    FirstNearestIsUnique(pt, c, minI);
    d2 := minD.value;
  }

  // Sums up the distances to the first n centres.
  method SumDistances(pts: seq<Point>, cent: array<Point>, n: nat, group: array<nat>, ghost dim: nat)
    returns (d: seq<real>, sum: real)
    requires 0 < n <= cent.Length && AllOfDimension(cent[..], dim) && AllOfDimension(pts, dim) && group.Length == |pts|
    ensures Clusters(pts, cent[..n], dim)
    ensures |d| == |pts| && forall j :: 0 <= j < |pts| ==> d[j] == DistTo(pts[j], cent[..n])
    ensures sum == Total(pts, cent[..n], dim)
  {
    hide Nearest, NearestTo, DistTo;
    d, sum := [], 0.0;
    for j := 0 to |pts|
      invariant |d| == j && forall i :: 0 <= i < j ==> d[i] == DistTo(pts[i], cent[..n])
      invariant sum == Prefix(pts, cent[..n], j, dim)
    {
      var near, dj := NearestShared(pts[j], group[j], cent, n);
      d := d + [dj];
      sum := sum + dj;
    }
  }

  // Takes one distance after the other off the draw, until nothing is left of it.
  method PickBy(pts: seq<Point>, d: seq<real>, draw: real, ghost c: seq<Point>, ghost dim: nat) returns (j: nat)
    requires Clusters(pts, c, dim) && |d| == |pts| && forall i :: 0 <= i < |pts| ==> d[i] == DistTo(pts[i], c)
    ensures IsPick(pts, c, draw, j, dim)
  {
    hide Nearest, NearestTo, DistTo;
    var sum := draw;
    j := 0;
    while j < |pts|
      invariant j <= |pts| && sum == draw - Prefix(pts, c, j, dim)
      invariant forall i :: 0 < i <= j ==> Prefix(pts, c, i, dim) < draw
    {
      sum := sum - d[j];
      assert Prefix(pts, c, j + 1, dim) == Prefix(pts, c, j, dim) + d[j];
      if sum <= 0.0 {
        return;
      }
      j := j + 1;
    }
  }

  // The centres one by one; u are the random fractions, one per further centre.
  method ChooseCentres(pts: seq<Point>, first: nat, u: seq<real>, cent: array<Point>, nCent: nat, group: array<nat>,
                       ghost dim: nat)
    requires first < |pts| && 1 <= nCent <= cent.Length && |u| == nCent - 1 && group.Length == |pts|
    requires AllOfDimension(pts, dim) && AllOfDimension(cent[..], dim)
    modifies cent
    ensures AllOfDimension(cent[..], dim)
    ensures cent[0] == pts[first] && Chosen(pts, cent[..nCent], old(cent[..nCent]), u, dim)
    ensures forall n :: nCent <= n < cent.Length ==> cent[n] == old(cent[n])
  {
    hide IsNext, IsPick, Prefix, Total, Nearest, NearestTo;
    ghost var was := cent[..nCent];
    cent[0] := pts[first];
    for n := 1 to nCent
      invariant AllOfDimension(cent[..], dim) && cent[0] == pts[first]
      invariant forall k :: n <= k < cent.Length ==> cent[k] == old(cent[k])
      invariant NextUpTo(pts, cent[..n], was, u, dim)
    {
      ghost var c := cent[..n];
      var d, sum := SumDistances(pts, cent, n, group, dim);
      var j := PickBy(pts, d, Mul(sum, u[n-1]), c, dim);
      if j < |pts| {
        cent[n] := pts[j];
      }
      assert cent[..n+1] == c + [cent[n]];
      NextBy(pts, c, u[n-1], was[n], cent[n], j, dim);
      NextOneMore(pts, c, cent[n], was, u, dim);
    }
  }

  // The part of Chosen that the first centres of c make true.
  ghost predicate NextUpTo(pts: seq<Point>, c: seq<Point>, was: seq<Point>, u: seq<real>, d: nat) {
    && c != [] && |c| <= |was| == |u| + 1
    && forall n :: 1 <= n < |c| ==> Clusters(pts, c[..n], d) && IsNext(pts, c[..n], u[n-1], was[n], c[n], d)
  }

  lemma NextOneMore(pts: seq<Point>, c: seq<Point>, next: Point, was: seq<Point>, u: seq<real>, d: nat)
    requires NextUpTo(pts, c, was, u, d) && Clusters(pts, c, d) && |c| < |was|
    requires IsNext(pts, c, u[|c|-1], was[|c|], next, d)
    ensures NextUpTo(pts, c + [next], was, u, d)
  {
    hide IsNext, Clusters;
    var e := c + [next];
    forall n | 1 <= n < |e| ensures Clusters(pts, e[..n], d) && IsNext(pts, e[..n], u[n-1], was[n], e[n], d) {
      assert e[..n] == c[..n];
      assert c[..|c|] == c;
    }
  }

  // kpp: the centres, then the group of every point.
  method Kpp(pts: seq<Point>, first: nat, u: seq<real>, cent: array<Point>, nCent: nat, group: array<nat>,
             ghost dim: nat)
    requires first < |pts| && 1 <= nCent <= cent.Length && |u| == nCent - 1 && group.Length == |pts|
    requires AllOfDimension(pts, dim) && AllOfDimension(cent[..], dim)
    modifies cent, group
    ensures AllOfDimension(cent[..], dim)
    ensures cent[0] == pts[first] && Chosen(pts, cent[..nCent], old(cent[..nCent]), u, dim)
    ensures forall j :: 0 <= j < |pts| ==> group[j] == Nearest(pts[j], cent[..nCent])
    ensures forall n :: nCent <= n < cent.Length ==> cent[n] == old(cent[n])
  {
    hide IsNext, Nearest, NearestTo, Chosen;
    ChooseCentres(pts, first, u, cent, nCent, group, dim);
    ghost var c := cent[..nCent];
    for j := 0 to |pts|
      modifies group
      invariant forall i :: 0 <= i < j ==> group[i] == Nearest(pts[i], cent[..nCent])
    {
      var near, d2 := NearestShared(pts[j], group[j], cent, nCent);
      group[j] := near;
    }
    assert cent[..nCent] == c;
  }

  // With distinct centres taken from the input no cluster is empty.
  lemma GroupsNotEmpty(pts: seq<Point>, c: seq<Point>, group: seq<nat>, d: nat, m: nat)
    requires Clusters(pts, c, d) && Distinct(c) && m < |c| && c[m] in pts
    requires |group| == |pts| && forall j :: 0 <= j < |pts| ==> group[j] == Nearest(pts[j], c)
    ensures m in group
  {
    ClustersNotEmpty(pts, c, d, m);
    hide Nearest, Distinct;
    var j :| 0 <= j < |pts| && Nearest(pts[j], c) == m;
    assert group[j] == m;
  }

  lemma AllGoodDraws(pts: seq<Point>, c: seq<Point>, was: seq<Point>, u: seq<real>, d: nat, k: nat)
    requires Chosen(pts, c, was, u, d) && |c| <= |set p | p in pts| && 1 <= k < |c| && 0.0 < u[k-1] <= 1.0
    ensures Clusters(pts, c[..k], d) && GoodDraw(pts, c[..k], u[k-1], d)
  {
    hide IsNext, GoodDraw;
    FractionIsGood(pts, c[..k], u[k-1], d);
  }

  // With fractions above 0 and at most 1, and at least as many distinct points as centres, kpp's
  // centres are pairwise distinct points of the input and no cluster is empty.
  lemma KppSeparates(pts: seq<Point>, c: seq<Point>, was: seq<Point>, u: seq<real>, group: seq<nat>, d: nat)
    requires Chosen(pts, c, was, u, d) && |c| <= |set p | p in pts|
    requires forall k :: 0 <= k < |u| ==> 0.0 < u[k] <= 1.0
    requires |group| == |pts| && forall j :: 0 <= j < |pts| ==> group[j] == Nearest(pts[j], c)
    ensures Distinct(c) && (forall m :: 0 <= m < |c| ==> c[m] in pts)
    ensures forall m :: 0 <= m < |c| ==> m in group
  {
    FractionsSeparate(pts, c, was, u, d);
    hide Distinct, Nearest, Chosen;
    forall m | 0 <= m < |c| ensures m in group {
      GroupsNotEmpty(pts, c, group, d, m);
    }
  }

  lemma FractionsSeparate(pts: seq<Point>, c: seq<Point>, was: seq<Point>, u: seq<real>, d: nat)
    requires Chosen(pts, c, was, u, d) && |c| <= |set p | p in pts|
    requires forall k :: 0 <= k < |u| ==> 0.0 < u[k] <= 1.0
    ensures Distinct(c) && Clusters(pts, c, d) && forall m :: 0 <= m < |c| ==> c[m] in pts
  {
    assert c[..|c|] == c && Clusters(pts, c, d);
    hide IsNext, GoodDraw, Distinct;
    forall k | 1 <= k < |c| ensures Clusters(pts, c[..k], d) && GoodDraw(pts, c[..k], u[k-1], d) {
      AllGoodDraws(pts, c, was, u, d, k);
    }
    SeedsAreDistinct(pts, c, was, u, d, |c|);
  }

  lemma NextBy(pts: seq<Point>, c: seq<Point>, u: real, was: Point, next: Point, j: nat, d: nat)
    requires Clusters(pts, c, d) && IsPick(pts, c, Mul(Total(pts, c, d), u), j, d)
    requires next == if j < |pts| then pts[j] else was
    ensures IsNext(pts, c, u, was, next, d)
  {
  }
}
