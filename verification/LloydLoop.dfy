/** The loop `while V != oldV` over Lloyd passes, for both ways of treating an empty cluster. */
module LloydLoop {
  import opened Points
  import opened Lloyd

  // What becomes of the centre of an empty cluster: it stays, or it goes to the origin.
  datatype EmptyRule = Keep | Reset

  function Step(rule: EmptyRule, points: seq<Point>, c: seq<Point>, d: nat): (r: seq<Point>)
    requires Clusters(points, c, d)
    ensures |r| == |c| && Clusters(points, r, d)
  {
    match rule
    case Keep => StepKeep(points, c, d)
    case Reset => StepReset(points, c, d)
  }

  // The centres after n passes.
  function Iterate(rule: EmptyRule, points: seq<Point>, c: seq<Point>, n: nat, d: nat): (r: seq<Point>)
    requires Clusters(points, c, d)
    ensures |r| == |c| && Clusters(points, r, d)
  {
    if n == 0 then c else Step(rule, points, Iterate(rule, points, c, n - 1, d), d)
  }

  // The cost V that pass n (counted from 0) computes.
  ghost function PassCost(rule: EmptyRule, points: seq<Point>, c: seq<Point>, n: nat, d: nat): real
    requires Clusters(points, c, d)
  {
    CostOf(points, Iterate(rule, points, c, n, d), d)
  }

  ghost predicate IsCosts(rule: EmptyRule, points: seq<Point>, c: seq<Point>, costs: seq<real>, d: nat)
    requires Clusters(points, c, d)
  {
    forall t :: 0 <= t < |costs| ==> costs[t] == PassCost(rule, points, c, t, d)
  }

  // The loop stops after n passes: the last pass found the cost unchanged from the one before,
  // where the cost before the first pass is 0; until then the cost fell strictly.
  ghost predicate StopsAfter(rule: EmptyRule, points: seq<Point>, c: seq<Point>, n: nat, d: nat)
    requires Clusters(points, c, d)
  {
    && n > 0
    && PassCost(rule, points, c, n - 1, d) == (if n == 1 then 0.0 else PassCost(rule, points, c, n - 2, d))
    && (n > 1 ==> PassCost(rule, points, c, 0, d) != 0.0)
    && forall t :: 1 <= t < n - 1 ==> PassCost(rule, points, c, t, d) < PassCost(rule, points, c, t - 1, d)
  }

  lemma LoopStart(rule: EmptyRule, points: seq<Point>, c: seq<Point>, d: nat)
    requires Clusters(points, c, d)
    ensures Iterate(rule, points, c, 0, d) == c && IsCosts(rule, points, c, [], d)
    ensures Progress([], 0.0, -1.0)
    ensures PassesLeft(points, |c|, d, [], 0.0, -1.0) == 2 + 2 * |Assignments(|points|, |c|)|
  {
  }

  lemma StepFollows(rule: EmptyRule, points: seq<Point>, c: seq<Point>, d: nat)
    requires Clusters(points, c, d)
    ensures Follows(points, c, Step(rule, points, c, d), d)
  {
  }

  lemma LastCost(costs: seq<real>, v: real, w: real)
    requires Progress(costs, v, w) && costs != []
    ensures v == costs[|costs|-1]
  {
  }

  // One more pass, of cost v', after passes of the given costs.
  lemma LoopStep(rule: EmptyRule, points: seq<Point>, c: seq<Point>, costs: seq<real>, v: real, w: real,
                 v': real, d: nat)
    requires Clusters(points, c, d) && IsCosts(rule, points, c, costs, d)
    requires Progress(costs, v, w) && v != w
    requires v' == CostOf(points, Iterate(rule, points, c, |costs|, d), d)
    ensures Iterate(rule, points, c, |costs| + 1, d) == Step(rule, points, Iterate(rule, points, c, |costs|, d), d)
    ensures IsCosts(rule, points, c, costs + [v'], d) && Progress(costs + [v'], v', v)
    ensures PassesLeft(points, |c|, d, costs + [v'], v', v) < PassesLeft(points, |c|, d, costs, v, w)
  {
    hide Step, CostOf, Follows, Progress, PassesLeft;
    var q := Iterate(rule, points, c, |costs|, d);
    if costs == [] {
      ProgressStep(points, c, c, d, costs, v, w, v');
    } else {
      var p := Iterate(rule, points, c, |costs| - 1, d);
      StepFollows(rule, points, p, d);
      LastCost(costs, v, w);
      ProgressStep(points, p, q, d, costs, v, w, v');
    }
  }

  lemma LoopEnd(rule: EmptyRule, points: seq<Point>, c: seq<Point>, costs: seq<real>, v: real, d: nat)
    requires Clusters(points, c, d) && IsCosts(rule, points, c, costs, d) && Progress(costs, v, v)
    ensures StopsAfter(rule, points, c, |costs|, d)
  {
    hide CostOf, Iterate;
    assert forall t :: 0 <= t < |costs| ==> PassCost(rule, points, c, t, d) == costs[t];
  }

  // There is only one number of passes after which the loop can stop.
  lemma StopsOnce(rule: EmptyRule, points: seq<Point>, c: seq<Point>, m: nat, n: nat, d: nat)
    requires Clusters(points, c, d) && StopsAfter(rule, points, c, m, d) && StopsAfter(rule, points, c, n, d)
    ensures m == n
  {
    hide PassCost;
  }

  // The cost after any number of passes is at most the first one.
  lemma {:induction false} NeverDearer(rule: EmptyRule, points: seq<Point>, c: seq<Point>, n: nat, d: nat)
    requires Clusters(points, c, d)
    ensures CostOf(points, Iterate(rule, points, c, n, d), d) <= CostOf(points, c, d)
  {
    hide CostTo;
    if n > 0 {
      NeverDearer(rule, points, c, n - 1, d);
      var q := Iterate(rule, points, c, n - 1, d);
      match rule
      case Keep => KeepDescends(points, q, d);
      case Reset => ResetDescends(points, q, d);
    }
  }
}
