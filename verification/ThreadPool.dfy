/** The thread pool as a step system: one caller queues the twelve range tasks of a clustering
    pass and waits for each of them, any number of workers pop, execute and notify. Every
    interleaving of the atomic steps below is a run. */
module ThreadPool {
  import opened Points
  import opened Lloyd
  import opened TaskRanges

  // What a pass works on; nobody writes it while the pass runs.
  datatype Job = Job(points: seq<Point>, centers: seq<Point>, ghost dim: nat)

  ghost predicate GoodJob(job: Job) {
    Clusters(job.points, job.centers, job.dim)
  }

  // Where a worker is in its loop.
  datatype Worker =
    | LoopTest                           // about to ask whether the queue is empty
    | Popping                            // saw a non-empty queue, about to pop
    | Executing(task: nat, i: nat)       // inside Execute, next point is i
    | Notifying(task: nat)               // Execute returned, about to notify
    | Waiting                            // blocked on the condition variable

  // The caller first adds task k, then waits for task k.
  datatype Caller = Adding(k: nat) | Awaiting(k: nat)

  datatype State = State(
    queue: seq<nat>,
    workers: seq<Worker>,
    caller: Caller,
    indexes: seq<nat>,
    notified: set<nat>,
    started: seq<nat>)     // the tasks popped so far, in order

  ghost predicate Free(w: Worker) {
    w.LoopTest? || w.Popping? || w.Waiting?
  }

  ghost predicate Init(job: Job, s: State) {
    && GoodJob(job)
    && s.queue == [] && s.notified == {} && s.started == []
    && s.caller == Adding(0)
    && |s.indexes| == |job.points|
    && forall w :: 0 <= w < |s.workers| ==> Free(s.workers[w])
  }

  // ----- steps -----

  ghost predicate AddTask(s: State, s': State) {
    && s.caller.Adding? && s.caller.k < NUM_TASKS
    && s' == s.(queue := s.queue + [s.caller.k],
                caller := if s.caller.k + 1 < NUM_TASKS then Adding(s.caller.k + 1) else Awaiting(0))
  }

  // Wait returns only once the task has been notified.
  ghost predicate WaitReturns(s: State, s': State) {
    && s.caller.Awaiting? && s.caller.k < NUM_TASKS && s.caller.k in s.notified
    && s' == s.(caller := Awaiting(s.caller.k + 1))
  }

  ghost predicate TestQueue(s: State, s': State, w: nat) {
    && w < |s.workers| && s.workers[w].LoopTest?
    && s' == s.(workers := s.workers[w := if s.queue == [] then Waiting else Popping])
  }

  // The queue may have been emptied since the test; then the pop reports failure.
  ghost predicate Pop(s: State, s': State, w: nat, job: Job) {
    && w < |s.workers| && s.workers[w].Popping?
    && if s.queue == [] then s' == s.(workers := s.workers[w := LoopTest])
       else
         && s.queue[0] < NUM_TASKS
         && s' == s.(queue := s.queue[1..],
                     started := s.started + [s.queue[0]],
                     workers := s.workers[w := Executing(s.queue[0], TaskRange(|job.points|, s.queue[0]).begin)])
  }

  ghost predicate ExecuteOne(s: State, s': State, w: nat, job: Job)
    requires GoodJob(job)
  {
    && w < |s.workers| && s.workers[w].Executing? && s.workers[w].task < NUM_TASKS
    && var i := s.workers[w].i;
       if i < TaskRange(|job.points|, s.workers[w].task).end then
         && i < |s.indexes| && i < |job.points|
         && s' == s.(indexes := s.indexes[i := Nearest(job.points[i], job.centers)],
                     workers := s.workers[w := Executing(s.workers[w].task, i + 1)])
       else s' == s.(workers := s.workers[w := Notifying(s.workers[w].task)])
  }

  ghost predicate Notify(s: State, s': State, w: nat) {
    && w < |s.workers| && s.workers[w].Notifying?
    && s' == s.(notified := s.notified + {s.workers[w].task}, workers := s.workers[w := LoopTest])
  }

  // Woken by a notification or spuriously.
  ghost predicate Wake(s: State, s': State, w: nat) {
    && w < |s.workers| && s.workers[w].Waiting?
    && s' == s.(workers := s.workers[w := LoopTest])
  }

  ghost predicate WorkerStep(job: Job, s: State, s': State, w: nat)
    requires GoodJob(job)
  {
    TestQueue(s, s', w) || Pop(s, s', w, job) || ExecuteOne(s, s', w, job) || Notify(s, s', w) || Wake(s, s', w)
  }

  ghost predicate Next(job: Job, s: State, s': State)
    requires GoodJob(job)
  {
    || AddTask(s, s')
    || WaitReturns(s, s')
    || exists w: nat :: WorkerStep(job, s, s', w)
  }

  ghost predicate Run(job: Job, run: seq<State>) {
    && run != [] && Init(job, run[0])
    && forall k :: 0 <= k < |run| - 1 ==> Next(job, run[k], run[k+1])
  }

  // ----- invariant -----

  ghost predicate Holds(w: Worker, t: nat) {
    (w.Executing? || w.Notifying?) && w.task == t
  }

  ghost predicate HeldBy(s: State, w: nat, t: nat) {
    w < |s.workers| && Holds(s.workers[w], t)
  }

  function Added(s: State): nat {
    if s.caller.Adding? then s.caller.k else NUM_TASKS
  }

  // Popping takes the tasks in the order they were added, each once.
  ghost predicate Fifo(s: State) {
    && (s.caller.Adding? ==> s.caller.k < NUM_TASKS)
    && (s.caller.Awaiting? ==> s.caller.k <= NUM_TASKS)
    && |s.started| + |s.queue| == Added(s)
    && (forall t :: 0 <= t < |s.started| ==> s.started[t] == t)
    && (forall i :: 0 <= i < |s.queue| ==> s.queue[i] == |s.started| + i)
  }

  // A started task is in exactly one worker or has been notified, never both.
  ghost predicate Conserved(s: State) {
    && (forall t :: t in s.notified ==> t < |s.started|)
    && (forall w: nat, t: nat :: HeldBy(s, w, t) ==> t < |s.started| && t !in s.notified)
    && (forall w: nat, w': nat, t: nat :: HeldBy(s, w, t) && HeldBy(s, w', t) ==> w == w')
    && (forall t: nat :: t < |s.started| && t !in s.notified ==> exists w: nat :: HeldBy(s, w, t))
  }

  ghost predicate Written(job: Job, s: State, i: nat)
    requires GoodJob(job)
  {
    i < |job.points| && i < |s.indexes| && s.indexes[i] == Nearest(job.points[i], job.centers)
  }

  // The points of task t below index e are written.
  ghost predicate WrittenUpTo(job: Job, s: State, t: nat, e: nat)
    requires GoodJob(job) && t < NUM_TASKS
  {
    forall i: nat :: InRange(TaskRange(|job.points|, t), i) && i < e ==> Written(job, s, i)
  }

  // How far worker w has got with its task.
  ghost predicate WorkerProgress(job: Job, s: State, w: nat)
    requires GoodJob(job) && w < |s.workers|
  {
    match s.workers[w]
    case Executing(t, i) =>
      && t < NUM_TASKS
      && TaskRange(|job.points|, t).begin <= i <= TaskRange(|job.points|, t).end
      && WrittenUpTo(job, s, t, i)
    case Notifying(t) => t < NUM_TASKS && WrittenUpTo(job, s, t, |job.points|)
    case _ => true
  }

  // What is already written: everything of a finished task, a prefix of a running one.
  ghost predicate Progressed(job: Job, s: State)
    requires GoodJob(job)
  {
    && |s.indexes| == |job.points|
    && (forall w :: 0 <= w < |s.workers| ==> WorkerProgress(job, s, w))
    && (forall t :: t in s.notified ==> t < NUM_TASKS && WrittenUpTo(job, s, t, |job.points|))
  }

  ghost predicate Awaited(s: State) {
    s.caller.Awaiting? ==> forall t :: 0 <= t < s.caller.k ==> t in s.notified
  }

  ghost predicate Inv(job: Job, s: State) {
    GoodJob(job) && Fifo(s) && Conserved(s) && Progressed(job, s) && Awaited(s)
  }

  lemma InitInv(job: Job, s: State)
    requires Init(job, s)
    ensures Inv(job, s)
  {
  }

  lemma FifoStep(job: Job, s: State, s': State)
    requires Inv(job, s) && Next(job, s, s')
    ensures Fifo(s') && Awaited(s')
  {
  }

  lemma ConservedStep(job: Job, s: State, s': State)
    requires Inv(job, s) && Next(job, s, s')
    ensures Conserved(s')
  {
    if AddTask(s, s') || WaitReturns(s, s') {
      assert forall w: nat, t: nat :: HeldBy(s', w, t) <==> HeldBy(s, w, t);
    } else {
      var w: nat :| WorkerStep(job, s, s', w);
      WorkerConserves(job, s, s', w);
    }
  }

  lemma WorkerConserves(job: Job, s: State, s': State, w: nat)
    requires Inv(job, s) && WorkerStep(job, s, s', w)
    ensures Conserved(s')
  {
    assert forall v: nat, t: nat :: v != w ==> (HeldBy(s', v, t) <==> HeldBy(s, v, t));
    if TestQueue(s, s', w) || Wake(s, s', w) {
      assert forall t: nat :: !HeldBy(s', w, t) && !HeldBy(s, w, t);
    } else if Pop(s, s', w, job) {
      assert forall t: nat :: HeldBy(s', w, t) <==> s.queue != [] && t == s.queue[0];
      assert forall t: nat :: !HeldBy(s, w, t);
    } else if ExecuteOne(s, s', w, job) {
      assert forall t: nat :: HeldBy(s', w, t) <==> HeldBy(s, w, t);
    } else {
      assert HeldBy(s, w, s.workers[w].task);
      assert forall t: nat :: HeldBy(s, w, t) <==> t == s.workers[w].task;
      assert forall t: nat :: !HeldBy(s', w, t);
    }
    forall t: nat | t < |s'.started| && t !in s'.notified
      ensures exists v: nat :: HeldBy(s', v, t)
    {
      if t < |s.started| {
        var v: nat :| HeldBy(s, v, t);
        assert HeldBy(s', v, t);
      } else {
        assert HeldBy(s', w, t);
      }
    }
  }

  lemma WrittenStays(job: Job, s: State, s': State, t: nat, e: nat)
    requires GoodJob(job) && t < NUM_TASKS && WrittenUpTo(job, s, t, e)
    requires forall i: nat :: Written(job, s, i) ==> Written(job, s', i)
    ensures WrittenUpTo(job, s', t, e)
  {
  }

  lemma RangeInPoints(n: nat, t: nat)
    requires t < NUM_TASKS
    ensures TaskRange(n, t).begin <= TaskRange(n, t).end
    ensures forall i: nat :: InRange(TaskRange(n, t), i) ==> i < n
  {
    forall i: nat | InRange(TaskRange(n, t), i) ensures i < n {
      RangesPartition(n, t, i);
    }
  }

  lemma OneMoreWritten(job: Job, s: State, s': State, t: nat, i: nat)
    requires GoodJob(job) && t < NUM_TASKS && WrittenUpTo(job, s, t, i)
    requires forall j: nat :: Written(job, s, j) ==> Written(job, s', j)
    requires Written(job, s', i)
    ensures WrittenUpTo(job, s', t, i + 1)
  {
  }

  lemma WorkerProgresses(job: Job, s: State, s': State, w: nat)
    requires Inv(job, s) && WorkerStep(job, s, s', w)
    ensures |s'.indexes| == |s.indexes| && |s'.workers| == |s.workers| && WorkerProgress(job, s', w)
    ensures forall i: nat :: Written(job, s, i) ==> Written(job, s', i)
    ensures forall t :: t in s'.notified && t !in s.notified ==> t < NUM_TASKS && WrittenUpTo(job, s', t, |job.points|)
  {
    hide Nearest, WrittenUpTo;
    assert WorkerProgress(job, s, w);
    if ExecuteOne(s, s', w, job) {
      ExecuteProgresses(job, s, s', w);
    } else if Pop(s, s', w, job) {
      if s.queue != [] {
        RangeInPoints(|job.points|, s.queue[0]);
        NothingWritten(job, s', s.queue[0]);
      }
    } else if Notify(s, s', w) {
      WrittenStays(job, s, s', s.workers[w].task, |job.points|);
    }
  }

  lemma NothingWritten(job: Job, s: State, t: nat)
    requires GoodJob(job) && t < NUM_TASKS
    ensures WrittenUpTo(job, s, t, TaskRange(|job.points|, t).begin)
  {
  }

  lemma ExecuteProgresses(job: Job, s: State, s': State, w: nat)
    requires Inv(job, s) && ExecuteOne(s, s', w, job)
    ensures |s'.indexes| == |s.indexes| && |s'.workers| == |s.workers| && WorkerProgress(job, s', w)
    ensures forall i: nat :: Written(job, s, i) ==> Written(job, s', i)
  {
    hide Nearest;
    assert WorkerProgress(job, s, w);
    var t, i := s.workers[w].task, s.workers[w].i;
    RangeInPoints(|job.points|, t);
    if i < TaskRange(|job.points|, t).end {
      assert forall j: nat :: Written(job, s, j) ==> Written(job, s', j);
      assert Written(job, s', i);
      OneMoreWritten(job, s, s', t, i);
    } else {
      WrittenStays(job, s, s', t, i);
      assert WrittenUpTo(job, s', t, |job.points|);
    }
  }

  lemma ProgressedStep(job: Job, s: State, s': State)
    requires Inv(job, s) && Next(job, s, s')
    ensures Progressed(job, s')
  {
    hide Nearest;
    if AddTask(s, s') || WaitReturns(s, s') {
      OthersProgress(job, s, s', |s.workers|);
    } else {
      var w: nat :| WorkerStep(job, s, s', w);
      WorkerProgresses(job, s, s', w);
      OthersProgress(job, s, s', w);
    }
  }

  // Writing more points leaves the progress of every worker but w and of every notified task standing.
  lemma OthersProgress(job: Job, s: State, s': State, w: nat)
    requires GoodJob(job) && Progressed(job, s)
    requires |s'.workers| == |s.workers|
    requires forall v :: 0 <= v < |s.workers| && v != w ==> s'.workers[v] == s.workers[v]
    requires forall i: nat :: Written(job, s, i) ==> Written(job, s', i)
    ensures forall v :: 0 <= v < |s.workers| && v != w ==> WorkerProgress(job, s', v)
    ensures forall t :: t in s.notified ==> t < NUM_TASKS && WrittenUpTo(job, s', t, |job.points|)
  {
    hide Nearest;
    forall v | 0 <= v < |s.workers| && v != w ensures WorkerProgress(job, s', v) {
      assert WorkerProgress(job, s, v);
      match s.workers[v]
      case Executing(t, i) => WrittenStays(job, s, s', t, i);
      case Notifying(t) => WrittenStays(job, s, s', t, |job.points|);
      case _ =>
    }
    forall t | t in s.notified ensures t < NUM_TASKS && WrittenUpTo(job, s', t, |job.points|) {
      WrittenStays(job, s, s', t, |job.points|);
    }
  }

  lemma StepInv(job: Job, s: State, s': State)
    requires Inv(job, s) && Next(job, s, s')
    ensures Inv(job, s')
  {
    FifoStep(job, s, s');
    ConservedStep(job, s, s');
    ProgressedStep(job, s, s');
  }

  lemma {:induction false} RunInv(job: Job, run: seq<State>, k: nat)
    requires Run(job, run) && k < |run|
    ensures Inv(job, run[k])
  {
    if k == 0 {
      InitInv(job, run[0]);
    } else {
      RunInv(job, run, k - 1);
      StepInv(job, run[k-1], run[k]);
    }
  }

  // ----- main results -----

  // When the caller's last Wait has returned, the indexes are the sequential assignment.
  lemma ParallelAssignment(job: Job, run: seq<State>, k: nat)
    requires Run(job, run) && k < |run|
    requires run[k].caller == Awaiting(NUM_TASKS)
    ensures run[k].indexes == Assign(job.points, job.centers, job.dim)
  {
    RunInv(job, run, k);
    var s, n := run[k], |job.points|;
    forall i | 0 <= i < n ensures s.indexes[i] == Nearest(job.points[i], job.centers) {
      RangesPartition(n, OwnerTask(n, i), i);
      assert OwnerTask(n, i) in s.notified;
      assert Written(job, s, i);
    }
  }

  ghost predicate AboutToWrite(job: Job, w: Worker) {
    w.Executing? && w.task < NUM_TASKS && InRange(TaskRange(|job.points|, w.task), w.i)
  }

  // Two workers inside Execute never touch the same point.
  lemma DisjointWrites(job: Job, run: seq<State>, k: nat, v: nat, w: nat)
    requires Run(job, run) && k < |run|
    requires v < |run[k].workers| && w < |run[k].workers| && v != w
    requires AboutToWrite(job, run[k].workers[v]) && AboutToWrite(job, run[k].workers[w])
    ensures run[k].workers[v].i != run[k].workers[w].i
  {
    RunInv(job, run, k);
    var s, n := run[k], |job.points|;
    assert HeldBy(s, v, s.workers[v].task) && HeldBy(s, w, s.workers[w].task);
    RangesPartition(n, s.workers[v].task, s.workers[v].i);
    RangesPartition(n, s.workers[w].task, s.workers[w].i);
  }

  // A task added is queued, or in one worker, or notified, and in only one of these places;
  // the tasks started are exactly the first ones added, in order.
  lemma TaskConservation(job: Job, run: seq<State>, k: nat, t: nat)
    requires Run(job, run) && k < |run| && t < Added(run[k])
    ensures var s := run[k];
            && s.started == seq(|s.started|, i => i)
            && (t in s.queue <==> t >= |s.started|)
            && (t in s.queue || t in s.notified || exists w: nat :: HeldBy(s, w, t))
            && !(t in s.queue && t in s.notified)
            && (forall w: nat :: HeldBy(s, w, t) ==> t !in s.queue && t !in s.notified)
            && (forall v: nat, w: nat :: HeldBy(s, v, t) && HeldBy(s, w, t) ==> v == w)
            && (t in s.notified ==> t < NUM_TASKS && WrittenUpTo(job, s, t, |job.points|))
  {
    RunInv(job, run, k);
    var s := run[k];
    if t >= |s.started| {
      assert s.queue[t - |s.started|] == t;
    }
  }

  // At the end of a pass the pool is as it was at the start, so the next pass is a run again.
  lemma PassEndsClean(job: Job, run: seq<State>, k: nat, w: nat)
    requires Run(job, run) && k < |run| && run[k].caller == Awaiting(NUM_TASKS) && w < |run[k].workers|
    ensures run[k].queue == [] && Free(run[k].workers[w])
  {
    RunInv(job, run, k);
    var s := run[k];
    assert forall t :: 0 <= t < NUM_TASKS ==> t in s.notified;
    assert NUM_TASKS - 1 in s.notified;
    if !Free(s.workers[w]) {
      assert HeldBy(s, w, s.workers[w].task);
    }
  }
}
