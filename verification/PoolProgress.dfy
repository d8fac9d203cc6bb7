/** That the pool gets its work done: an awake worker empties the queue by its own steps, and from
    every state that can be reached the pass can be completed. */
module PoolProgress {
  import opened Collections
  import opened Points
  import opened Lloyd
  import opened TaskRanges
  import opened ThreadPool

  // A step of worker w, other than being woken.
  ghost predicate OwnStep(job: Job, s: State, s': State, w: nat)
    requires GoodJob(job)
  {
    TestQueue(s, s', w) || Pop(s, s', w, job) || ExecuteOne(s, s', w, job) || Notify(s, s', w)
  }

  ghost predicate OwnSteps(job: Job, s: State, s': State, w: nat, n: nat)
    requires GoodJob(job)
    decreases n
  {
    if n == 0 then s' == s else exists m :: OwnStep(job, s, m, w) && OwnSteps(job, m, s', w, n - 1)
  }

  ghost predicate Steps(job: Job, s: State, s': State, n: nat)
    requires GoodJob(job)
    decreases n
  {
    if n == 0 then s' == s else exists m :: Next(job, s, m) && Steps(job, m, s', n - 1)
  }

  // Left to itself a worker has no choice.
  lemma OwnStepIsDetermined(job: Job, s: State, a: State, b: State, w: nat)
    requires GoodJob(job) && OwnStep(job, s, a, w) && OwnStep(job, s, b, w)
    ensures a == b
  {
    hide Nearest;
  }

  lemma {:induction false} OwnStepsAreDetermined(job: Job, s: State, a: State, b: State, w: nat, n: nat)
    requires GoodJob(job) && OwnSteps(job, s, a, w, n) && OwnSteps(job, s, b, w, n)
    ensures a == b
    decreases n
  {
    if n > 0 {
      hide OwnStep;
      var x :| OwnStep(job, s, x, w) && OwnSteps(job, x, a, w, n - 1);
      var y :| OwnStep(job, s, y, w) && OwnSteps(job, y, b, w, n - 1);
      OwnStepIsDetermined(job, s, x, y, w);
      OwnStepsAreDetermined(job, x, a, b, w, n - 1);
    }
  }

  lemma {:induction false} OwnConcat(job: Job, a: State, b: State, c: State, w: nat, m: nat, n: nat)
    requires GoodJob(job) && OwnSteps(job, a, b, w, m) && OwnSteps(job, b, c, w, n)
    ensures OwnSteps(job, a, c, w, m + n)
    decreases m
  {
    if m > 0 {
      hide OwnStep;
      var x :| OwnStep(job, a, x, w) && OwnSteps(job, x, b, w, m - 1);
      OwnConcat(job, x, b, c, w, m - 1, n);
    }
  }

  lemma {:induction false} StepsConcat(job: Job, a: State, b: State, c: State, m: nat, n: nat)
    requires GoodJob(job) && Steps(job, a, b, m) && Steps(job, b, c, n)
    ensures Steps(job, a, c, m + n)
    decreases m
  {
    if m > 0 {
      hide Next;
      var x :| Next(job, a, x) && Steps(job, x, b, m - 1);
      StepsConcat(job, x, b, c, m - 1, n);
    }
  }

  lemma {:induction false} OwnAreSteps(job: Job, s: State, s': State, w: nat, n: nat)
    requires GoodJob(job) && OwnSteps(job, s, s', w, n)
    ensures Steps(job, s, s', n)
    decreases n
  {
    if n > 0 {
      hide TestQueue, Pop, ExecuteOne, Notify, Wake, AddTask, WaitReturns;
      var m :| OwnStep(job, s, m, w) && OwnSteps(job, m, s', w, n - 1);
      assert WorkerStep(job, s, m, w);
      assert Next(job, s, m);
      OwnAreSteps(job, m, s', w, n - 1);
    }
  }

  lemma OneOwn(job: Job, s: State, s': State, w: nat)
    requires Inv(job, s) && OwnStep(job, s, s', w)
    ensures OwnSteps(job, s, s', w, 1) && Inv(job, s')
  {
    assert GoodJob(job);
    hide Inv, TestQueue, Pop, ExecuteOne, Notify, Wake, AddTask, WaitReturns;
    assert OwnSteps(job, s', s', w, 0);
    assert WorkerStep(job, s, s', w);
    StepInv(job, s, s');
  }

  // What a worker leaves alone while it works on what it has taken.
  ghost predicate Elsewhere(s: State, s': State, w: nat) {
    && |s'.workers| == |s.workers| && w < |s.workers| && s'.caller == s.caller
    && forall v :: 0 <= v < |s.workers| && v != w ==> s'.workers[v] == s.workers[v]
  }

  lemma TaskOf(job: Job, s: State, w: nat)
    requires Inv(job, s) && w < |s.workers| && s.workers[w].Executing?
    ensures s.workers[w].task < NUM_TASKS
    ensures s.workers[w].i <= TaskRange(|job.points|, s.workers[w].task).end <= |job.points| == |s.indexes|
  {
    assert WorkerProgress(job, s, w);
    var t := s.workers[w].task;
    RangeInPoints(|job.points|, t);
    hide Nearest;
    var r := TaskRange(|job.points|, t);
    if r.begin < r.end {
      assert InRange(r, r.end - 1);
    } else {
      EmptyRangeFits(|job.points|, t);
    }
  }

  lemma EmptyRangeFits(n: nat, t: nat)
    requires t < NUM_TASKS
    ensures TaskRange(n, t).begin <= n
  {
    var q := n / (NUM_TASKS - 1);
    assert n == (NUM_TASKS - 1) * q + n % (NUM_TASKS - 1);
    if t < NUM_TASKS - 1 {
      ProductOrder(t, NUM_TASKS - 1, q);
    }
  }

  lemma NotifiesTask(job: Job, s: State, w: nat) returns (s': State)
    requires Inv(job, s) && w < |s.workers| && s.workers[w].Notifying?
    ensures OwnSteps(job, s, s', w, 1) && Inv(job, s') && Elsewhere(s, s', w) && s'.queue == s.queue
    ensures s'.workers[w] == LoopTest && s'.notified == s.notified + {s.workers[w].task}
  {
    s' := s.(notified := s.notified + {s.workers[w].task}, workers := s.workers[w := LoopTest]);
    assert Notify(s, s', w);
    hide Inv, Notify;
    OneOwn(job, s, s', w);
  }

  // From anywhere inside Execute to the top of the loop.
  lemma {:induction false} ExecutesTask(job: Job, s: State, w: nat) returns (s': State, n: nat)
    requires Inv(job, s) && w < |s.workers| && s.workers[w].Executing?
    ensures OwnSteps(job, s, s', w, n) && Inv(job, s') && Elsewhere(s, s', w) && s'.queue == s.queue
    ensures s'.workers[w] == LoopTest && s'.notified == s.notified + {s.workers[w].task}
    decreases |job.points| - s.workers[w].i
  {
    TaskOf(job, s, w);
    var t, i := s.workers[w].task, s.workers[w].i;
    assert GoodJob(job);
    hide Inv, OwnSteps, Nearest;
    if i < TaskRange(|job.points|, t).end {
      var s1 := s.(indexes := s.indexes[i := Nearest(job.points[i], job.centers)],
                   workers := s.workers[w := Executing(t, i + 1)]);
      assert ExecuteOne(s, s1, w, job);
      OneOwn(job, s, s1, w);
      s', n := ExecutesTask(job, s1, w);
      OwnConcat(job, s, s1, s', w, 1, n);
      n := n + 1;
    } else {
      var s1 := s.(workers := s.workers[w := Notifying(t)]);
      assert ExecuteOne(s, s1, w, job);
      OneOwn(job, s, s1, w);
      s' := NotifiesTask(job, s1, w);
      OwnConcat(job, s, s1, s', w, 1, 1);
      n := 2;
    }
  }

  // From the top of the loop, with a task queued, back to it.
  lemma TakesTask(job: Job, s: State, w: nat) returns (s': State, n: nat)
    requires Inv(job, s) && w < |s.workers| && s.workers[w].Popping? && s.queue != []
    ensures OwnSteps(job, s, s', w, n) && Inv(job, s') && Elsewhere(s, s', w) && s'.queue == s.queue[1..]
    ensures s'.workers[w] == LoopTest && s'.notified == s.notified + {s.queue[0]}
  {
    assert GoodJob(job) && s.queue[0] < NUM_TASKS;
    hide Inv, OwnSteps;
    var s1 := s.(queue := s.queue[1..], started := s.started + [s.queue[0]],
                 workers := s.workers[w := Executing(s.queue[0], TaskRange(|job.points|, s.queue[0]).begin)]);
    assert Pop(s, s1, w, job);
    OneOwn(job, s, s1, w);
    s', n := ExecutesTask(job, s1, w);
    OwnConcat(job, s, s1, s', w, 1, n);
    n := n + 1;
  }

  lemma {:induction false} Drains(job: Job, s: State, w: nat) returns (s': State, n: nat)
    requires Inv(job, s) && w < |s.workers| && s.workers[w].LoopTest?
    ensures OwnSteps(job, s, s', w, n) && Inv(job, s') && Elsewhere(s, s', w)
    ensures s'.queue == [] && s'.workers[w] == Waiting
    ensures s'.notified == s.notified + set t | t in s.queue
    decreases |s.queue|
  {
    assert GoodJob(job);
    hide Inv, OwnSteps;
    var s1 := Tests(job, s, w);
    if s.queue == [] {
      s', n := s1, 1;
    } else {
      var s2, m := TakesTask(job, s1, w);
      OwnConcat(job, s, s1, s2, w, 1, m);
      s', n := Drains(job, s2, w);
      OwnConcat(job, s, s2, s', w, 1 + m, n);
      n := 1 + m + n;
      FirstOfQueue(s.queue);
    }
  }

  lemma FirstOfQueue(q: seq<nat>)
    requires q != []
    ensures (set t | t in q) == {q[0]} + set t | t in q[1..]
  {
  }

  lemma Tests(job: Job, s: State, w: nat) returns (s': State)
    requires Inv(job, s) && w < |s.workers| && s.workers[w].LoopTest?
    ensures OwnSteps(job, s, s', w, 1) && Inv(job, s')
    ensures s' == s.(workers := s.workers[w := if s.queue == [] then Waiting else Popping])
  {
    s' := s.(workers := s.workers[w := if s.queue == [] then Waiting else Popping]);
    assert TestQueue(s, s', w);
    hide Inv, TestQueue;
    OneOwn(job, s, s', w);
  }

  lemma NotifiedIsWritten(job: Job, s: State, t: nat)
    requires Inv(job, s) && t in s.notified
    ensures t < NUM_TASKS && WrittenUpTo(job, s, t, |job.points|)
  {
  }

  // An awake worker comes to the top of its loop.
  lemma ComesToTest(job: Job, s: State, w: nat) returns (s': State, n: nat)
    requires Inv(job, s) && w < |s.workers| && !s.workers[w].Waiting?
    ensures OwnSteps(job, s, s', w, n) && Inv(job, s') && Elsewhere(s, s', w) && s'.workers[w] == LoopTest
    ensures forall t: nat :: t in s.queue || t in s.notified || Holds(s.workers[w], t) ==>
              t in s'.queue || t in s'.notified
  {
    assert GoodJob(job);
    hide Inv;
    match s.workers[w]
    case LoopTest => s', n := s, 0;
    case Popping =>
      if s.queue == [] {
        s', n := s.(workers := s.workers[w := LoopTest]), 1;
        assert Pop(s, s', w, job);
        OneOwn(job, s, s', w);
      } else {
        s', n := TakesTask(job, s, w);
      }
    case Executing(_, _) => s', n := ExecutesTask(job, s, w);
    case Notifying(_) =>
      s' := NotifiesTask(job, s, w);
      n := 1;
  }

  /** An awake worker needs nobody else and no wake-up: in every state that can be reached its own
      steps, of which it never has a choice, lead it to wait at an empty queue, every task that was
      queued, and the one it had, being notified and its range written. */
  lemma WorkerDrains(job: Job, run: seq<State>, k: nat, w: nat) returns (s': State, n: nat)
    requires Run(job, run) && k < |run| && w < |run[k].workers| && !run[k].workers[w].Waiting?
    ensures OwnSteps(job, run[k], s', w, n) && s'.queue == [] && w < |s'.workers| && s'.workers[w] == Waiting
    ensures forall t: nat :: t in run[k].queue || Holds(run[k].workers[w], t) ==>
              t in s'.notified && t < NUM_TASKS && WrittenUpTo(job, s', t, |job.points|)
    ensures forall s'' :: OwnSteps(job, run[k], s'', w, n) ==> s'' == s'
  {
    RunInv(job, run, k);
    var s := run[k];
    assert GoodJob(job);
    hide Inv, OwnSteps, Run, WrittenUpTo;
    var s1, m := ComesToTest(job, s, w);
    s', n := Drains(job, s1, w);
    OwnConcat(job, s, s1, s', w, m, n);
    n := m + n;
    forall t: nat | t in s.queue || Holds(s.workers[w], t)
      ensures t in s'.notified && t < NUM_TASKS && WrittenUpTo(job, s', t, |job.points|)
    {
      NotifiedIsWritten(job, s', t);
    }
    forall s'' | OwnSteps(job, s, s'', w, n) ensures s'' == s' {
      OwnStepsAreDetermined(job, s, s', s'', w, n);
    }
  }

  // ----- the pass can always be completed -----

  lemma OneStep(job: Job, s: State, s': State)
    requires Inv(job, s) && Next(job, s, s')
    ensures Steps(job, s, s', 1) && Inv(job, s')
  {
    assert GoodJob(job);
    assert Steps(job, s', s', 0);
    hide Inv, Next;
    StepInv(job, s, s');
  }

  // Worker 0 is brought to the top of its loop, woken if it must be, and takes what is queued.
  lemma EmptiesQueue(job: Job, s: State) returns (s': State, n: nat)
    requires Inv(job, s) && s.workers != [] && s.queue != []
    ensures Steps(job, s, s', n) && Inv(job, s')
    ensures s'.queue == [] && s'.caller == s.caller && |s'.workers| == |s.workers|
  {
    assert GoodJob(job);
    hide Inv, Steps, OwnSteps;
    var s0, l := s, 0;
    NoStep(job, s);
    if s.workers[0].Waiting? {
      s0, l := s.(workers := s.workers[0 := LoopTest]), 1;
      assert Wake(s, s0, 0);
      assert WorkerStep(job, s, s0, 0);
      OneStep(job, s, s0);
    }
    var s1, m := ComesToTest(job, s0, 0);
    OwnAreSteps(job, s0, s1, 0, m);
    StepsConcat(job, s, s0, s1, l, m);
    s', n := Drains(job, s1, 0);
    OwnAreSteps(job, s1, s', 0, n);
    StepsConcat(job, s, s1, s', l + m, n);
    n := l + m + n;
  }

  lemma NoStep(job: Job, s: State)
    requires GoodJob(job)
    ensures Steps(job, s, s, 0)
  {
  }

  function Missing(s: State): set<nat> {
    set t: nat | t < NUM_TASKS && t !in s.notified
  }

  // A worker that holds a task finishes it.
  lemma FinishesTask(job: Job, s: State, w: nat) returns (s': State, n: nat)
    requires Inv(job, s) && w < |s.workers| && !Free(s.workers[w])
    ensures Steps(job, s, s', n) && Inv(job, s')
    ensures s'.queue == s.queue && s'.caller == s.caller && |s'.workers| == |s.workers|
    ensures |Missing(s')| < |Missing(s)|
  {
    assert GoodJob(job);
    var t := s.workers[w].task;
    assert HeldBy(s, w, t);
    assert t in Missing(s);
    hide Inv, Steps, OwnSteps;
    if s.workers[w].Notifying? {
      s' := NotifiesTask(job, s, w);
      n := 1;
    } else {
      s', n := ExecutesTask(job, s, w);
    }
    OwnAreSteps(job, s, s', w, n);
    SubsetSize(Missing(s'), Missing(s));
  }

  lemma AllNotified(job: Job, s: State)
    requires Inv(job, s) && s.queue == [] && s.caller.Awaiting?
    requires forall w :: 0 <= w < |s.workers| ==> Free(s.workers[w])
    ensures s.caller.k <= NUM_TASKS && forall t: nat :: t < NUM_TASKS ==> t in s.notified
  {
    assert forall w: nat, t: nat :: !HeldBy(s, w, t);
  }

  lemma {:induction false} Finishes(job: Job, s: State) returns (s': State, n: nat)
    requires Inv(job, s) && s.workers != []
    ensures Steps(job, s, s', n) && s'.caller == Awaiting(NUM_TASKS)
    decreases NUM_TASKS - Added(s), |s.queue|, |Missing(s)|, if s.caller.Awaiting? then NUM_TASKS - s.caller.k else 0
  {
    assert GoodJob(job) && (s.caller.Adding? ==> s.caller.k < NUM_TASKS);
    hide Inv, Steps, Missing;
    var s1, m;
    if s.caller.Adding? {
      var k := s.caller.k;
      s1 := s.(queue := s.queue + [k], caller := if k + 1 < NUM_TASKS then Adding(k + 1) else Awaiting(0));
      m := 1;
      assert AddTask(s, s1);
      OneStep(job, s, s1);
    } else if s.queue != [] {
      s1, m := EmptiesQueue(job, s);
    } else if w :| 0 <= w < |s.workers| && !Free(s.workers[w]) {
      s1, m := FinishesTask(job, s, w);
    } else {
      AllNotified(job, s);
      if s.caller.k == NUM_TASKS {
        NoStep(job, s);
        return s, 0;
      }
      s1, m := s.(caller := Awaiting(s.caller.k + 1)), 1;
      assert WaitReturns(s, s1);
      OneStep(job, s, s1);
      assert Missing(s1) == Missing(s) by { SameMissing(s, s1); }
    }
    s', n := Finishes(job, s1);
    StepsConcat(job, s, s1, s', m, n);
    n := m + n;
  }

  lemma SameMissing(s: State, s': State)
    requires s'.notified == s.notified
    ensures Missing(s') == Missing(s)
  {
  }

  // From every state that can be reached the pass can still be completed, if there is a worker.
  lemma PassCanFinish(job: Job, run: seq<State>, k: nat) returns (s': State, n: nat)
    requires Run(job, run) && k < |run| && run[k].workers != []
    ensures Steps(job, run[k], s', n) && s'.caller == Awaiting(NUM_TASKS)
  {
    RunInv(job, run, k);
    hide Inv, Steps, Run;
    s', n := Finishes(job, run[k]);
  }
}
