/** Runs of the hazard-pointer protocol that show why it is as it is. A guard stays behind in a
    record that is marked free: its thread dies, another thread's HelpScan adopts the record; an
    in-place scan skips that record, a classic one does not. And a thread that died while emptying
    an array would leave an object twice, or a freed one. */
module HazardRuns {
  import opened Wrappers
  import opened HazardScan
  import opened HazardProtocol

  // One more step of a run.
  lemma Extend(cfg: Config, run: Run, s': State, t: nat, ev: Event) returns (run': Run)
    requires IsRun(cfg, run) && Next(cfg, run.states[|run.states|-1], s', t, ev)
    ensures IsRun(cfg, run') && run'.states[|run'.states|-1] == s'
  {
    run' := Run(run.states + [s'], run.who + [t], run.events + [ev]);
    hide Next, Init;
    forall k | 0 <= k < |run'.who|
      ensures Next(cfg, run'.states[k], run'.states[k+1], run'.who[k], run'.events[k])
    {
      if k < |run.who| {
        assert run'.states[k] == run.states[k] && run'.states[k+1] == run.states[k+1];
      }
    }
  }

  ghost predicate Reaches(cfg: Config, s: State) {
    exists run :: IsRun(cfg, run) && run.states[|run.states|-1] == s
  }

  lemma Reach(cfg: Config, s: State, s': State, t: nat, ev: Event)
    requires Reaches(cfg, s) && Next(cfg, s, s', t, ev)
    ensures Reaches(cfg, s')
  {
    hide Next, Init;
    var run :| IsRun(cfg, run) && run.states[|run.states|-1] == s;
    var run' := Extend(cfg, run, s', t, ev);
  }

  ghost predicate Steps(cfg: Config, s: State, s': State, t: nat)
    requires t < |s.threads|
  {
    || AllocStep(cfg, s, s', t) || ReleaseStep(s, s', t) || ReadStep(cfg, s, s', t) || SweepStep(s, s', t)
    || SeekStep(s, s', t) || AdoptStep(cfg, s, s', t)
  }

  // A step inside the collector that only moves thread t on.
  lemma Moved(cfg: Config, s: State, t: nat, pc: Thread) returns (s': State)
    requires t < |s.threads| && Reaches(cfg, s) && Steps(cfg, s, s.(threads := s.threads[t := pc]), t)
    ensures s' == s.(threads := s.threads[t := pc]) && Reaches(cfg, s')
  {
    hide AllocStep, ReleaseStep, ReadStep, SeekStep, SweepStep, AdoptStep, UserStep;
    s' := s.(threads := s.threads[t := pc]);
    Reach(cfg, s, s', t, Go);
  }

  // One that writes record x as well.
  lemma Wrote(cfg: Config, s: State, t: nat, pc: Thread, x: nat, rec: Record) returns (s': State)
    requires t < |s.threads| && x < |s.recs| && Reaches(cfg, s)
    requires Steps(cfg, s, s.(threads := s.threads[t := pc], recs := s.recs[x := rec]), t)
    ensures s' == s.(threads := s.threads[t := pc], recs := s.recs[x := rec]) && Reaches(cfg, s')
  {
    hide AllocStep, ReleaseStep, ReadStep, SeekStep, SweepStep, AdoptStep, UserStep;
    s' := s.(threads := s.threads[t := pc], recs := s.recs[x := rec]);
    Reach(cfg, s, s', t, Go);
  }

  // ----- attaching and scanning, with one slot per record -----

  // The records are linked in the order in which they were made, and all are in use.
  ghost predicate InOrder(s: State) {
    && s.head == (if s.recs == [] then None else Some(|s.recs| - 1))
    && forall i :: 0 <= i < |s.recs| ==>
         var x := s.recs[i];
         && x.next == (if i == 0 then None else Some(i - 1))
         && x.rank == i + 1 && x.owner.Some? && !x.free && |x.hzp| == 1
  }

  function Fresh(n: nat, t: nat): Record {
    Record(if n == 0 then None else Some(n - 1), n + 1, Some(t), false, [0], {}, [], 0, 0)
  }

  // Looking for a vacant record finds none.
  lemma {:induction false} ProbesAll(cfg: Config, s: State, t: nat, i: nat) returns (s': State)
    requires Reaches(cfg, s) && InOrder(s) && t < |s.threads| && i < |s.recs| && s.threads[t] == Probe(Some(i))
    ensures Reaches(cfg, s') && s' == s.(threads := s.threads[t := Probe(None)])
    decreases i
  {
    hide Reaches;
    s' := Moved(cfg, s, t, Probe(s.recs[i].next));
    if i > 0 {
      s' := ProbesAll(cfg, s', t, i - 1);
    }
  }

  lemma Attaches(cfg: Config, s: State, t: nat) returns (s': State)
    requires Reaches(cfg, s) && InOrder(s) && t < |s.threads| && s.threads[t] == Out && cfg.hp == 1
    ensures Reaches(cfg, s') && InOrder(s')
    ensures s' == s.(threads := s.threads[t := Idle(|s.recs|)], recs := s.recs + [Fresh(|s.recs|, t)],
                     head := Some(|s.recs|))
  {
    hide Reaches;
    var n := |s.recs|;
    s' := Moved(cfg, s, t, Probe(s.head));
    if n > 0 {
      s' := ProbesAll(cfg, s', t, n - 1);
    }
    var s2 := s'.(threads := s'.threads[t := Linking(n, s.head)], recs := s.recs + [NewRecord(cfg, t)]);
    assert AllocStep(cfg, s', s2, t);
    Reach(cfg, s', s2, t, Go);
    var s3 := s2.(threads := s2.threads[t := Idle(n)], head := Some(n),
                  recs := s2.recs[n := s2.recs[n].(next := s.head, rank := n + 1)]);
    assert AllocStep(cfg, s2, s3, t);
    Reach(cfg, s2, s3, t, Go);
    assert NewRecord(cfg, t).hzp == [0];
    s' := s3;
    assert s'.recs == s.recs + [Fresh(n, t)];
  }

  // The values in the slots of the first n records.
  function Held(recs: seq<Record>, n: nat): set<Word>
    requires n <= |recs|
  {
    set i, p | 0 <= i < n && p in recs[i].hzp && p != 0 :: p
  }

  lemma HeldNext(recs: seq<Record>, n: nat)
    requires n < |recs| && |recs[n].hzp| == 1
    ensures Held(recs, n + 1) == Held(recs, n) + (if recs[n].hzp[0] != 0 then {recs[n].hzp[0]} else {})
  {
    var now := Held(recs, n) + (if recs[n].hzp[0] != 0 then {recs[n].hzp[0]} else {});
    forall p ensures p in Held(recs, n + 1) <==> p in now {
      assert p in recs[n].hzp <==> p == recs[n].hzp[0];
    }
  }

  lemma HeldNone(recs: seq<Record>)
    ensures Held(recs, 0) == {}
  {
  }

  // A scan reads one record.
  lemma ReadsOne(cfg: Config, s: State, t: nat, i: nat) returns (s': State)
    requires Reaches(cfg, s) && InOrder(s) && t < |s.threads| && i < |s.recs| && s.threads[t].ScanRec?
    requires s.threads[t].cur == Some(i)
    ensures Reaches(cfg, s')
    ensures var (pc, p) := (s.threads[t], s.recs[i].hzp[0]);
            s' == s.(threads := s.threads[t := pc.(seen := pc.seen + (if p != 0 then {p} else {}),
                                                   cur := s.recs[i].next)])
  {
    hide Reaches;
    var pc, p := s.threads[t], s.recs[i].hzp[0];
    var now := if p != 0 then pc.seen + {p} else pc.seen;
    s' := Moved(cfg, s, t, ScanSlot(pc.r, pc.back, pc.skip, pc.seen, i, 0));
    s' := Moved(cfg, s', t, ScanSlot(pc.r, pc.back, pc.skip, now, i, 1));
    s' := Moved(cfg, s', t, ScanRec(pc.r, pc.back, pc.skip, now, s.recs[i].next));
    assert now == pc.seen + if p != 0 then {p} else {};
  }

  // A scan reads all records from i down.
  lemma {:induction false} ReadsAll(cfg: Config, s: State, t: nat, i: nat) returns (s': State)
    requires Reaches(cfg, s) && InOrder(s) && t < |s.threads| && i < |s.recs| && s.threads[t].ScanRec?
    requires s.threads[t].cur == Some(i)
    ensures Reaches(cfg, s')
    ensures var pc := s.threads[t];
            s' == s.(threads := s.threads[t := pc.(seen := pc.seen + Held(s.recs, i + 1), cur := None)])
    decreases i
  {
    hide Reaches, Held;
    var seen := s.threads[t].seen;
    s' := ReadsOne(cfg, s, t, i);
    HeldNext(s.recs, i);
    var now := s'.threads[t].seen;
    if i > 0 {
      s' := ReadsAll(cfg, s', t, i - 1);
      assert now + Held(s.recs, i) == seen + Held(s.recs, i + 1);
    } else {
      HeldNone(s.recs);
      assert now == seen + Held(s.recs, 1);
    }
  }

  // From the start of a scan of an array that is in order already to the sweep.
  lemma ReadsToSweep(cfg: Config, s: State, t: nat) returns (s': State)
    requires Reaches(cfg, s) && InOrder(s) && t < |s.threads| && s.threads[t].ScanStart?
    requires s.threads[t].r < |s.recs| && |s.recs[s.threads[t].r].arr| <= 1
    ensures Reaches(cfg, s')
    ensures s' == s.(threads := s.threads[t := Sweep(s.threads[t].r, s.threads[t].back, Held(s.recs, |s.recs|))])
  {
    hide Reaches, Held;
    var (r, back) := (s.threads[t].r, s.threads[t].back);
    var x := s.recs[r];
    var skip := cfg.inplace && Even(x.arr);
    assert s.recs[r := x.(arr := x.arr)] == s.recs;
    s' := Moved(cfg, s, t, ScanRec(r, back, skip, {}, s.head));
    s' := ReadsAll(cfg, s', t, |s.recs| - 1);
    assert {} + Held(s.recs, |s.recs|) == Held(s.recs, |s.recs|);
    s' := Moved(cfg, s', t, Sweep(r, back, Held(s.recs, |s.recs|)));
  }

  // ----- three threads; thread 1 releases its record after thread 0 has died -----

  lemma AllAttach(cfg: Config) returns (s: State)
    requires cfg.hp == 1
    ensures Reaches(cfg, s) && InOrder(s)
    ensures s == State([Fresh(0, 2), Fresh(1, 1), Fresh(2, 0)], Some(2), [Idle(2), Idle(1), Idle(0)], map[], {}, {})
  {
    s := State([], None, [Out, Out, Out], map[], {}, {});
    assert IsRun(cfg, Run([s], [], []));
    s := Attaches(cfg, s, 2);
    s := Attaches(cfg, s, 1);
    s := Attaches(cfg, s, 0);
  }

  lemma Retires(cfg: Config, s: State, t: nat, p: Word) returns (s': State)
    requires Reaches(cfg, s) && t < |s.threads| && s.threads[t].Idle? && s.threads[t].r < |s.recs|
    requires Live(s, p) && |s.recs[s.threads[t].r].arr| < cfg.cap
    ensures var r := s.threads[t].r;
            s' == s.(recs := s.recs[r := s.recs[r].(arr := s.recs[r].arr + [p])], home := s.home[p := r])
    ensures Reaches(cfg, s')
  {
    var r := s.threads[t].r;
    s' := s.(recs := s.recs[r := s.recs[r].(arr := s.recs[r].arr + [p])], home := s.home[p := r]);
    assert UserStep(cfg, s, s', t, Retire(p));
    Reach(cfg, s, s', t, Retire(p));
  }

  lemma DiesIdle(cfg: Config, s: State, t: nat) returns (s': State)
    requires Reaches(cfg, s) && t < |s.threads| && s.threads[t].Idle? && s.threads[t].r < |s.recs|
    ensures var r := s.threads[t].r;
            s' == s.(threads := s.threads[t := Dead], recs := s.recs[r := s.recs[r].(valid := {})])
    ensures Reaches(cfg, s')
  {
    var r := s.threads[t].r;
    s' := s.(threads := s.threads[t := Dead], recs := s.recs[r := s.recs[r].(valid := {})]);
    assert UserStep(cfg, s, s', t, Die);
    Reach(cfg, s, s', t, Die);
  }

  // What thread 0 left, in record 2: guard g and retired objects arr.
  function Left(g: Word, arr: seq<Word>): Record {
    Fresh(2, 0).(hzp := [g], arr := arr)
  }

  ghost predicate LeftBehind(s: State, g: Word, arr: seq<Word>) {
    && InOrder(s) && |s.recs| == 3 && s.recs[1] == Fresh(1, 1) && s.recs[2] == Left(g, arr)
    && |s.threads| == 3 && s.threads[0] == Dead
  }

  // Thread 1 clears its slot and scans its own empty array.
  lemma Detaches(cfg: Config, s: State, g: Word, arr: seq<Word>) returns (s': State)
    requires Reaches(cfg, s) && LeftBehind(s, g, arr) && s.threads[1] == Idle(1)
    ensures Reaches(cfg, s') && s' == s.(threads := s.threads[1 := HelpRec(1, Some(2))])
  {
    hide Reaches;
    var s1 := s.(threads := s.threads[1 := Clearing(1, 0)]);
    assert UserStep(cfg, s, s1, 1, Detach);
    Reach(cfg, s, s1, 1, Detach);
    s' := Cleared(cfg, s1);
    s' := Moved(cfg, s', 1, ScanStart(1, ToHelp));
    s' := ReadsToSweep(cfg, s', 1);
    s' := SweepsNothing(cfg, s');
  }

  // Then it adopts the record of the dead thread.
  lemma Adopts(cfg: Config, s: State, g: Word, arr: seq<Word>) returns (s': State)
    requires Reaches(cfg, s) && LeftBehind(s, g, arr) && s.threads[1] == Idle(1)
    ensures Reaches(cfg, s')
    ensures s' == s.(threads := s.threads[1 := HelpCopy(1, 2)], recs := s.recs[2 := s.recs[2].(owner := Some(1))])
  {
    hide Reaches;
    s' := Detaches(cfg, s, g, arr);
    s' := Moved(cfg, s', 1, HelpOwner(1, 2));
    s' := Moved(cfg, s', 1, HelpAlive(1, 2, Some(0)));
    s' := Moved(cfg, s', 1, HelpCas(1, 2, Some(0)));
    s' := Wrote(cfg, s', 1, HelpCopy(1, 2), 2, s.recs[2].(owner := Some(1)));
  }

  lemma Cleared(cfg: Config, s: State) returns (s': State)
    requires Reaches(cfg, s) && |s.recs| == 3 && |s.threads| == 3 && s.threads[1] == Clearing(1, 0)
    requires s.recs[1] == Fresh(1, 1)
    ensures Reaches(cfg, s') && s' == s.(threads := s.threads[1 := Clearing(1, 1)])
  {
    var x := s.recs[1];
    var x' := x.(hzp := x.hzp[0 := 0], valid := x.valid - {0});
    assert x'.hzp == [0] && x'.valid == {};
    s' := Wrote(cfg, s, 1, Clearing(1, 1), 1, x');
    assert s'.recs == s.recs;
  }

  lemma SweepsNothing(cfg: Config, s: State) returns (s': State)
    requires Reaches(cfg, s) && InOrder(s) && |s.recs| == 3 && |s.threads| == 3 && s.threads[1].Sweep?
    requires s.threads[1].r == 1 && s.threads[1].back == ToHelp && s.recs[1] == Fresh(1, 1)
    ensures Reaches(cfg, s') && s' == s.(threads := s.threads[1 := HelpRec(1, Some(2))])
  {
    var x := s.recs[1];
    var x' := x.(arr := x.arr[..x.kept], kept := 0, todo := 0);
    assert x' == x;
    s' := Wrote(cfg, s, 1, HelpRec(1, Some(2)), 1, x');
    assert s'.recs == s.recs;
  }

  // ----- a guard left in a record marked free -----

  lemma GuardsAndDies(cfg: Config, s: State, p: Word) returns (s': State)
    requires Reaches(cfg, s) && |s.recs| == 3 && |s.threads| == 3 && s.threads[0] == Idle(2)
    requires s.recs[2] == Fresh(2, 0) && Live(s, p)
    ensures Reaches(cfg, s') && s' == s.(threads := s.threads[0 := Dead], recs := s.recs[2 := Left(p, [])])
  {
    var x := s.recs[2];
    var x1 := x.(hzp := x.hzp[0 := p], valid := x.valid - {0});
    assert x1.hzp == [p] && x1.valid == {};
    var s1 := s.(threads := s.threads[0 := Idle(2)], recs := s.recs[2 := x1]);
    assert UserStep(cfg, s, s1, 0, Publish(0, p));
    Reach(cfg, s, s1, 0, Publish(0, p));
    var s2 := s1.(threads := s1.threads[0 := Idle(2)], recs := s1.recs[2 := x1.(valid := x1.valid + {0})]);
    assert UserStep(cfg, s1, s2, 0, Validate(0));
    Reach(cfg, s1, s2, 0, Validate(0));
    s' := DiesIdle(cfg, s2, 0);
    assert s'.recs[2] == Left(p, []);
    assert s'.recs == s.recs[2 := Left(p, [])];
  }

  function Snapshot(s: State): seq<HpRecord> {
    seq(|s.recs|, i requires 0 <= i < |s.recs| => HpRecord(s.recs[i].free, s.recs[i].hzp))
  }

  /** Thread 0 guards p and dies, thread 2 retires p, thread 1 adopts the record of thread 0 and
      marks it free with the guard in it. On the array of thread 2 the two scans now differ: only
      the classic one keeps p. */
  lemma StaleGuardIsReached(cfg: Config, p: Word) returns (s: State)
    requires cfg.hp == 1 && cfg.inplace && cfg.cap > 0 && p != 0 && p % 2 == 0
    ensures Reaches(cfg, s) && |s.recs| == 3 && s.recs[2].free && s.recs[2].hzp == [p]
    ensures |s.threads| == 3 && s.threads[2] == Idle(0) && s.recs[0].arr == [p] && p in s.home && s.home[p] == 0
    ensures Even(s.recs[0].arr) && !RefinementCondition(s.recs[0].arr, Snapshot(s))
    ensures Kept(s.recs[0].arr, Snapshot(s)) == [p] && KeptInPlace(s.recs[0].arr, Snapshot(s), 1) == []
  {
    hide Reaches;
    s := AllAttach(cfg);
    s := GuardsAndDies(cfg, s, p);
    s := Retires(cfg, s, 2, p);
    s := Adopts(cfg, s, p, []);
    s := Wrote(cfg, s, 1, HelpFree(1, 2), 2, s.recs[2].(arr := [], todo := 0));
    s := Wrote(cfg, s, 1, HelpRelease(1, 2), 2, s.recs[2].(free := true));
    StaleHeld(s, p);
  }

  lemma StaleHeld(s: State, p: Word)
    requires p != 0 && |s.recs| == 3 && s.recs[0].hzp == s.recs[1].hzp == [0] && s.recs[2].hzp == [p]
    requires !s.recs[0].free && !s.recs[1].free && s.recs[2].free
    ensures !RefinementCondition([p], Snapshot(s))
    ensures Kept([p], Snapshot(s)) == [p] && KeptInPlace([p], Snapshot(s), 1) == []
  {
    var recs := Snapshot(s);
    assert recs == [HpRecord(false, [0]), HpRecord(false, [0]), HpRecord(true, [p])];
    assert recs[2].hzp[0] == p;
    assert SlotHolds(recs, p, false) && !SlotHolds(recs, p, true);
    assert [p][..0] == [] && Kept([], recs) == [];
    assert p in [p];
  }

  // ----- deaths that the protocol excludes -----

  // Thread t dies, and with it how far it has come in the array of record x.
  ghost predicate Forgets(s: State, s': State, t: nat, x: nat) {
    && t < |s.threads| && x < |s.recs|
    && s' == s.(threads := s.threads[t := Dead], recs := s.recs[x := s.recs[x].(valid := {}, kept := 0, todo := 0)])
  }

  // Whoever scans the record, or adopts it, will decide about p.
  predicate Waits(x: Record, p: Word) {
    x.kept <= x.todo <= |x.arr| && p in Pending(x)
  }

  // A helper that dies after copying p leaves p in two records, each of which will be scanned.
  lemma CopierDeath(cfg: Config, p: Word) returns (s: State, s': State)
    requires cfg.hp == 1 && cfg.cap > 1 && p != 0
    ensures Reaches(cfg, s) && |s.threads| == 3 && s.threads[1] == HelpCopy(1, 2) && Forgets(s, s', 1, 2)
    ensures |s'.recs| == 3 && Waits(s'.recs[1], p) && Waits(s'.recs[2], p)
  {
    hide Reaches;
    s := AllAttach(cfg);
    s := Retires(cfg, s, 0, p);
    s := DiesIdle(cfg, s, 0);
    assert s.recs[2] == Left(0, [p]);
    s := Adopts(cfg, s, 0, [p]);
    var (x, y) := (s.recs[1], s.recs[2]);
    var s1 := s.(recs := s.recs[1 := x.(arr := x.arr + [p])][2 := y.(todo := y.todo + 1)], home := s.home[p := 1],
                 threads := s.threads[1 := HelpCopy(1, 2)]);
    assert AdoptStep(cfg, s, s1, 1);
    Reach(cfg, s, s1, 1, Go);
    s := s1;
    s' := s.(threads := s.threads[1 := Dead], recs := s.recs[2 := s.recs[2].(valid := {}, kept := 0, todo := 0)]);
  }

  // A thread that dies in an in-place sweep leaves an object it has freed in its array.
  lemma SweeperDeath(cfg: Config, p: Word) returns (s: State, s': State)
    requires cfg.hp == 1 && cfg.inplace && cfg.cap > 0 && p != 0 && p % 2 == 0
    ensures Reaches(cfg, s) && |s.threads| == 3 && s.threads[2].Sweep? && Forgets(s, s', 2, 0)
    ensures |s'.recs| == 3 && Waits(s'.recs[0], p) && p in s'.freed
  {
    hide Reaches;
    s := AllAttach(cfg);
    s := Retires(cfg, s, 2, p);
    var s1 := s.(threads := s.threads[2 := ScanStart(0, ToIdle)]);
    assert UserStep(cfg, s, s1, 2, CallScan);
    Reach(cfg, s, s1, 2, CallScan);
    s := ReadsToSweep(cfg, s1, 2);
    assert Held(s.recs, 3) == {};
    var s2 := s.(recs := s.recs[0 := s.recs[0].(todo := 1)], home := s.home - {p}, freed := s.freed + {p});
    assert SweepStep(s, s2, 2);
    Reach(cfg, s, s2, 2, Go);
    s := s2;
    s' := s.(threads := s.threads[2 := Dead], recs := s.recs[0 := s.recs[0].(valid := {}, kept := 0, todo := 0)]);
  }
}
