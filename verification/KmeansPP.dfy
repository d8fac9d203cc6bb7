/** The seeding of the multithreaded version: like kpp, but distances are measured to the whole
    vector of centres, the entries still to be chosen included. */
module KmeansPP {
  import opened Collections
  import opened Points
  import opened Lloyd
  import opened Seeding
  import opened KmeansMultiThread

  // The vector of centres before the first choice: grown with points at the origin if too short.
  function Resized(centers: seq<Point>, n: nat, dim: nat): (r: seq<Point>)
    requires AllOfDimension(centers, dim)
    ensures |r| == (if |centers| < n then n else |centers|) && AllOfDimension(r, dim)
  {
    if |centers| < n then centers + seq(n - |centers|, _ => Zero(dim)) else centers
  }

  // The vector when the first n entries of c have been chosen.
  function At(c: seq<Point>, start: seq<Point>, n: nat): seq<Point>
    requires |c| == |start| && n <= |c|
  {
    c[..n] + start[n..]
  }

  ghost predicate ChosenUpTo(pts: seq<Point>, c: seq<Point>, start: seq<Point>, u: seq<real>, m: nat, d: nat) {
    && |c| == |start| && 1 <= m <= |c| && m <= |u| + 1 && c[0] in pts
    && forall n :: 1 <= n < m ==>
         Clusters(pts, At(c, start, n), d) && IsNext(pts, At(c, start, n), u[n-1], start[n], c[n], d)
  }

  lemma ChosenOneMore(pts: seq<Point>, c: seq<Point>, start: seq<Point>, next: Point, u: seq<real>, m: nat, d: nat)
    requires ChosenUpTo(pts, c, start, u, m, d) && m < |c| && m <= |u| && c == At(c, start, m)
    requires Clusters(pts, c, d) && IsNext(pts, c, u[m-1], start[m], next, d)
    ensures ChosenUpTo(pts, c[m := next], start, u, m + 1, d)
    ensures c[m := next] == At(c[m := next], start, m + 1)
  {
    hide IsNext, Clusters;
    var e := c[m := next];
    forall n | 1 <= n < m + 1
      ensures Clusters(pts, At(e, start, n), d) && IsNext(pts, At(e, start, n), u[n-1], start[n], e[n], d)
    {
      assert At(e, start, n) == At(c, start, n);
    }
    assert c[m..] == start[m..];
    assert e[m+1..] == c[m..][1..];
    assert start[m+1..] == start[m..][1..];
  }

  method Distances(pts: seq<Point>, centers: seq<Point>, ghost dim: nat) returns (dist2: seq<real>, sum: real)
    requires Clusters(pts, centers, dim)
    ensures |dist2| == |pts| && forall j :: 0 <= j < |pts| ==> dist2[j] == DistTo(pts[j], centers)
    ensures sum == Total(pts, centers, dim)
  {
    hide Nearest, NearestTo;
    dist2, sum := [], 0.0;
    for j := 0 to |pts|
      invariant |dist2| == j && forall i :: 0 <= i < j ==> dist2[i] == DistTo(pts[i], centers)
      invariant sum == Prefix(pts, centers, j, dim)
    {
      var near, dj := FindNearest(pts[j], centers);
      FirstNearestIsUnique(pts[j], centers, near);
      dist2 := dist2 + [dj];
      sum := sum + dj;
    }
  }

  // u are the random fractions, one per further centre.
  method Seed(pts: seq<Point>, first: nat, u: seq<real>, nCent: nat, given: seq<Point>, dim: nat)
    returns (centers: seq<Point>)
    requires first < |pts| && nCent >= 1 && |u| == nCent - 1
    requires AllOfDimension(pts, dim) && AllOfDimension(given, dim)
    ensures var start := Resized(given, nCent, dim);
            && ChosenUpTo(pts, centers, start, u, nCent, dim)
            && centers == At(centers, start, nCent) && centers[0] == pts[first]
  {
    hide IsNext, IsPick, Total, Prefix, DistTo;
    ghost var start := Resized(given, nCent, dim);
    centers := given;
    if |centers| < nCent {
      centers := centers + seq(nCent - |centers|, _ => Zero(dim));
    }
    centers := centers[0 := pts[first]];
    for n := 1 to nCent
      invariant |centers| == |start| && AllOfDimension(centers, dim) && centers[0] == pts[first]
      invariant ChosenUpTo(pts, centers, start, u, n, dim) && centers == At(centers, start, n)
    {
      assert centers[n] == start[n];
      var dist2, sum := Distances(pts, centers, dim);
      var j := PickBy(pts, dist2, Mul(sum, u[n-1]), centers, dim);
      ghost var next := if j < |pts| then pts[j] else start[n];
      NextBy(pts, centers, u[n-1], start[n], next, j, dim);
      ChosenOneMore(pts, centers, start, next, u, n, dim);
      assert centers[n := next] == if j < |pts| then centers[n := pts[j]] else centers;
      if j < |pts| {
        centers := centers[n := pts[j]];
      }
    }
  }

  // With good draws the chosen centres are points of the input, no two alike, and none of them is
  // one of the entries that were still waiting to be chosen when it was.
  lemma {:induction false} SeedsAreDistinctHere(pts: seq<Point>, c: seq<Point>, start: seq<Point>, u: seq<real>, m: nat,
                                                d: nat)
    requires ChosenUpTo(pts, c, start, u, m, d)
    requires forall n :: 1 <= n < m ==> GoodDraw(pts, At(c, start, n), u[n-1], d)
    ensures Distinct(c[..m]) && forall i :: 0 <= i < m ==> c[i] in pts
    ensures forall n, k :: 1 <= n < m && n <= k < |c| ==> c[n] != start[k]
  {
    hide GoodDraw, IsNext, Clusters;
    if m > 1 {
      SeedsAreDistinctHere(pts, c, start, u, m - 1, d);
      var prev := At(c, start, m - 1);
      assert GoodDraw(pts, prev, u[m-2], d) && IsNext(pts, prev, u[m-2], start[m-1], c[m-1], d);
      NextIsNew(pts, prev, u[m-2], start[m-1], c[m-1], d);
      assert forall i :: 0 <= i < m - 1 ==> c[i] == prev[i];
      assert forall k :: m - 1 <= k < |c| ==> start[k] == prev[k];
    }
  }
}
