/** The main results about runs of the hazard-pointer protocol. */
module HazardSafety {
  import opened Wrappers
  import opened HazardScan
  import opened HazardProtocol
  import opened HazardStructure
  import opened HazardAccounts
  import opened HazardGuards
  import opened HazardRoom

  // ----- safety of guards -----

  // An object under a validated guard has not been freed, and its guard belongs to a live thread
  // that still owns the record.
  lemma GuardedIsNotFreed(cfg: Config, run: Run, k: nat, x: nat, i: nat)
    requires IsRun(cfg, run) && k < |run.states| && x < |run.states[k].recs| && i in run.states[k].recs[x].valid
    ensures var s := run.states[k];
            && i < |s.recs[x].hzp| && s.recs[x].hzp[i] !in s.freed
            && exists t :: 0 <= t < |s.threads| && !s.threads[t].Dead? && OwnedBy(s, x, t)
  {
    RunInv(cfg, run, k);
    GuardOf(run.states[k], x, i);
    var t := run.states[k].recs[x].owner.value;
    assert OwnedBy(run.states[k], x, t);
  }

  // Whatever a step frees was retired, and no validated guard held it; afterwards no record does.
  lemma OnlyUnguardedIsFreed(cfg: Config, run: Run, k: nat, p: Word)
    requires IsRun(cfg, run) && k < |run.who| && p in run.states[k+1].freed && p !in run.states[k].freed
    ensures p in run.states[k].home && p !in run.states[k+1].home
    ensures forall x: nat, i: nat :: IsGuard(run.states[k], x, i) ==> run.states[k].recs[x].hzp[i] != p
  {
    var s, s', t := run.states[k], run.states[k+1], run.who[k];
    RunInv(cfg, run, k);
    RunInv(cfg, run, k + 1);
    StepFrees(cfg, s, s', t, run.events[k], p);
    forall x: nat, i: nat | IsGuard(s, x, i) ensures s.recs[x].hzp[i] != p {
      FreeIsSafe(cfg, s, s', t, p, x, i);
    }
    AccountOf(s, s.threads[t].r);
    NextIsHeld(s, s.threads[t].r);
  }

  // ----- each retired object is in one place and is freed once -----

  // A retired object is pending in exactly one record, exactly once; a freed one in none.
  lemma OnePlace(cfg: Config, run: Run, k: nat, p: Word, x: nat)
    requires IsRun(cfg, run) && k < |run.states| && x < |run.states[k].recs|
    ensures RecordOk(cfg, run.states[k], x)
    ensures var s := run.states[k];
            multiset(Pending(s.recs[x]))[p] == if p in s.home && s.home[p] == x then 1 else 0
    ensures var s := run.states[k]; p in s.home ==> p !in s.freed && s.home[p] < |s.recs|
  {
    RunInv(cfg, run, k);
    var s := run.states[k];
    RecordOf(cfg, s, x);
    AccountOf(s, x);
    DistinctCounts(Pending(s.recs[x]), p);
    assert Holds(s, x, p) <==> p in multiset(Pending(s.recs[x]));
  }

  // A retired object stays retired, in some record, until a step frees it, or leaks it: the
  // sweeping thread dies, in a classic scan.
  lemma RetiredUntilFreed(cfg: Config, run: Run, k: nat, p: Word)
    requires IsRun(cfg, run) && k < |run.who| && p in run.states[k].home && p !in run.states[k+1].home
    ensures || (p in run.states[k+1].freed && p !in run.states[k].freed)
            || (p in run.states[k+1].leaked && !cfg.inplace
                && LeakStep(cfg, run.states[k], run.states[k+1], run.who[k]))
  {
    RunInv(cfg, run, k);
    assert Accounts(run.states[k]);
    hide Inv, Structured, Accounts, Guards;
    HomeLeft(cfg, run.states[k], run.states[k+1], run.who[k], run.events[k], p);
  }

  lemma HomeLeft(cfg: Config, s: State, s': State, t: nat, ev: Event, p: Word)
    requires Next(cfg, s, s', t, ev) && p in s.home && p !in s'.home
    ensures p in s'.freed || (p in s'.leaked && t < |s.threads| && LeakStep(cfg, s, s', t))
  {
    hide AllocStep, ReleaseStep, ReadStep, SeekStep;
    if AllocStep(cfg, s, s', t) || ReleaseStep(s, s', t) || ReadStep(cfg, s, s', t) || SeekStep(s, s', t) {
      HomeSame(cfg, s, s', t);
    }
  }

  // What has been leaked is never retired, freed or handed out again.
  lemma {:induction false} LeakedForGood(cfg: Config, run: Run, j: nat, k: nat, p: Word)
    requires IsRun(cfg, run) && j <= k < |run.states| && p in run.states[j].leaked
    ensures p in run.states[k].leaked && p !in run.states[k].home && p !in run.states[k].freed
    ensures !Live(run.states[k], p)
  {
    hide Next, Init, Structured, Guards;
    RunInv(cfg, run, k);
    assert Accounts(run.states[k]);
    if j < k {
      LeakedForGood(cfg, run, j, k - 1, p);
      LeakedStays(cfg, run.states[k-1], run.states[k], run.who[k-1], run.events[k-1], p);
    }
  }

  lemma LeakedStays(cfg: Config, s: State, s': State, t: nat, ev: Event, p: Word)
    requires Next(cfg, s, s', t, ev) && p in s.leaked
    ensures p in s'.leaked
  {
    hide Even, Sorted;
  }

  lemma FreedStays(cfg: Config, s: State, s': State, t: nat, ev: Event, p: Word)
    requires Next(cfg, s, s', t, ev) && p in s.freed && p !in s'.freed
    ensures ev == Renew(p)
  {
    hide Even, Sorted;
  }

  lemma HomeGrows(cfg: Config, s: State, s': State, t: nat, ev: Event, p: Word)
    requires Inv(cfg, s) && Next(cfg, s, s', t, ev) && p !in s.home && p in s'.home
    ensures ev == Retire(p)
  {
    hide Structured, Accounts, Guards, AllocStep, ReleaseStep, ReadStep, SweepStep, SeekStep, AdoptStep;
    if ev.Go? {
      if AdoptStep(cfg, s, s', t) {
        AdoptHome(cfg, s, s', t, p);
      } else {
        CollectorHome(cfg, s, s', t, p);
      }
    }
  }

  lemma AdoptHome(cfg: Config, s: State, s': State, t: nat, p: Word)
    requires Structured(cfg, s) && Accounts(s) && t < |s.threads| && AdoptStep(cfg, s, s', t) && p in s'.home
    ensures p in s.home
  {
    var pc := s.threads[t];
    if pc.HelpCopy? && s.recs[pc.c].todo < |s.recs[pc.c].arr| {
      ThreadOf(cfg, s, t);
      AccountOf(s, pc.c);
      NextIsHeld(s, pc.c);
    }
    hide Structured, Accounts;
  }

  lemma CollectorHome(cfg: Config, s: State, s': State, t: nat, p: Word)
    requires t < |s.threads| && p in s'.home
    requires AllocStep(cfg, s, s', t) || ReleaseStep(s, s', t) || ReadStep(cfg, s, s', t) || SweepStep(s, s', t)
             || SeekStep(s, s', t)
    ensures p in s.home
  {
    hide Even, Sorted;
  }

  lemma {:induction false} RenewedBetween(cfg: Config, run: Run, j: nat, k: nat, p: Word) returns (m: nat)
    requires IsRun(cfg, run) && j < k < |run.states| && p in run.states[j].freed && p !in run.states[k].freed
    ensures j <= m < k && run.events[m] == Renew(p)
  {
    hide Next, Init;
    if p in run.states[k-1].freed {
      m := k - 1;
      FreedStays(cfg, run.states[m], run.states[k], run.who[m], run.events[m], p);
    } else {
      m := RenewedBetween(cfg, run, j, k - 1, p);
    }
  }

  lemma {:induction false} RetiredBetween(cfg: Config, run: Run, j: nat, k: nat, p: Word) returns (m: nat)
    requires IsRun(cfg, run) && j < k < |run.states| && p !in run.states[j].home && p in run.states[k].home
    ensures j <= m < k && run.events[m] == Retire(p)
  {
    hide Next, Inv, Init;
    if p !in run.states[k-1].home {
      m := k - 1;
      RunInv(cfg, run, m);
      HomeGrows(cfg, run.states[m], run.states[k], run.who[m], run.events[m], p);
    } else {
      m := RetiredBetween(cfg, run, j, k - 1, p);
    }
  }

  // An object freed a second time has been handed out again and then retired again in between.
  lemma FreedOncePerLife(cfg: Config, run: Run, j: nat, k: nat, p: Word) returns (renewed: nat, retired: nat)
    requires IsRun(cfg, run) && j < k < |run.who|
    requires p !in run.states[j].freed && p in run.states[j+1].freed
    requires p !in run.states[k].freed && p in run.states[k+1].freed
    ensures j < renewed < retired < k
    ensures run.events[renewed] == Renew(p) && run.events[retired] == Retire(p)
  {
    hide Next, Init;
    renewed := RenewedBetween(cfg, run, j + 1, k, p);
    OnlyUnguardedIsFreed(cfg, run, k, p);
    RenewIsLive(cfg, run, renewed, p);
    retired := RetiredBetween(cfg, run, renewed + 1, k, p);
  }

  lemma RenewIsLive(cfg: Config, run: Run, m: nat, p: Word)
    requires IsRun(cfg, run) && m < |run.who| && run.events[m] == Renew(p)
    ensures p !in run.states[m+1].home && p !in run.states[m+1].freed
  {
    RunInv(cfg, run, m);
    hide Inv, AllocStep, ReleaseStep, ReadStep, SweepStep, SeekStep, AdoptStep;
    assert Accounts(run.states[m]);
  }

  // ----- ownership -----

  // No record is held by two threads, whether as their own or by adoption.
  lemma OneHolder(cfg: Config, run: Run, k: nat, t: nat, u: nat, x: nat)
    requires IsRun(cfg, run) && k < |run.states| && t < |run.states[k].threads| && u < |run.states[k].threads|
    requires Own(run.states[k].threads[t]) == Some(x) || Helped(run.states[k].threads[t]) == Some(x)
    requires Own(run.states[k].threads[u]) == Some(x) || Helped(run.states[k].threads[u]) == Some(x)
    ensures t == u && (Own(run.states[k].threads[t]) == Some(x) <==> Helped(run.states[k].threads[t]) != Some(x))
  {
    RunInv(cfg, run, k);
    ThreadOf(cfg, run.states[k], t);
    ThreadOf(cfg, run.states[k], u);
  }

  // Only its holder changes a record's retired array.
  lemma OnlyHolderWrites(cfg: Config, run: Run, k: nat, x: nat)
    requires IsRun(cfg, run) && k < |run.who| && x < |run.states[k].recs|
    ensures x < |run.states[k+1].recs|
    ensures run.states[k+1].recs[x].arr != run.states[k].recs[x].arr ==>
              run.states[k].recs[x].owner == Some(run.who[k])
  {
    var s, s', t, ev := run.states[k], run.states[k+1], run.who[k], run.events[k];
    RunInv(cfg, run, k);
    hide Next;
    StepTouches(cfg, s, s', t, ev);
    if Vacant(s, x) {
      ThreadOf(cfg, s, t);
      VacantArray(cfg, s, s', t, ev, x);
    }
  }

  lemma VacantArray(cfg: Config, s: State, s': State, t: nat, ev: Event, x: nat)
    requires Next(cfg, s, s', t, ev) && ThreadOk(cfg, s, t) && x < |s.recs| && Vacant(s, x)
    ensures x < |s'.recs| && s'.recs[x].arr == s.recs[x].arr
  {
    hide AllocStep, ReleaseStep, ReadStep, SweepStep, SeekStep, AdoptStep;
    if ev.Go? {
      if AllocStep(cfg, s, s', t) {
        AllocArray(cfg, s, s', t, x);
      } else {
        CollectorArray(cfg, s, s', t, x);
      }
    }
  }

  lemma AllocArray(cfg: Config, s: State, s': State, t: nat, x: nat)
    requires t < |s.threads| && AllocStep(cfg, s, s', t) && x < |s.recs|
    ensures x < |s'.recs| && s'.recs[x].arr == s.recs[x].arr
  {
  }

  lemma CollectorArray(cfg: Config, s: State, s': State, t: nat, x: nat)
    requires t < |s.threads| && ThreadOk(cfg, s, t) && x < |s.recs| && Vacant(s, x)
    requires ReleaseStep(s, s', t) || ReadStep(cfg, s, s', t) || SweepStep(s, s', t) || SeekStep(s, s', t)
             || AdoptStep(cfg, s, s', t)
    ensures x < |s'.recs| && s'.recs[x].arr == s.recs[x].arr
  {
    hide Even, Sorted, Linked, Visits;
  }

  // A record marked free has nothing retired in it.
  lemma FreeRecordIsEmpty(cfg: Config, run: Run, k: nat, x: nat)
    requires IsRun(cfg, run) && k < |run.states| && x < |run.states[k].recs| && run.states[k].recs[x].free
    ensures run.states[k].recs[x].arr == []
    ensures forall p :: p in run.states[k].home ==> run.states[k].home[p] != x
  {
    RunInv(cfg, run, k);
    var s := run.states[k];
    RecordOf(cfg, s, x);
    AccountOf(s, x);
    assert Pending(s.recs[x]) == [];
    forall p | p in s.home ensures s.home[p] != x {
      assert !Holds(s, x, p);
    }
  }

  // ----- bounded garbage -----

  // A scan that ends leaves at most one retired object per slot.
  lemma ScanLeavesFew(cfg: Config, run: Run, k: nat)
    requires IsRun(cfg, run) && k < |run.who|
    requires run.who[k] < |run.states[k].threads| && run.states[k].threads[run.who[k]].Sweep?
    requires run.who[k] < |run.states[k+1].threads| && !run.states[k+1].threads[run.who[k]].Sweep?
    ensures var r := run.states[k].threads[run.who[k]].r;
            r < |run.states[k+1].recs| && |run.states[k+1].recs[r].arr| <= |run.states[k+1].recs| * cfg.hp
  {
    var s, t := run.states[k], run.who[k];
    RunInv(cfg, run, k);
    RunRoom(cfg, run, k);
    KeptFits(cfg, s, t);
    SlotsAreProduct(cfg, |s.recs|);
    hide Inv, Room;
  }

  lemma {:induction false} RecordsGrow(cfg: Config, run: Run, j: nat, k: nat)
    requires IsRun(cfg, run) && j <= k < |run.states|
    ensures |run.states[j].recs| <= |run.states[k].recs|
  {
    hide Accounts, Guards, Next, Init;
    if j < k {
      RecordsGrow(cfg, run, j, k - 1);
      RunInv(cfg, run, k - 1);
      StepTouches(cfg, run.states[k-1], run.states[k], run.who[k-1], run.events[k-1]);
    }
  }

  // If the capacity exceeds the number of slots ever made, the helper's array is never full when
  // it visits a record, so every push of HelpScan fits.
  lemma PushFits(cfg: Config, run: Run, k: nat, t: nat)
    requires IsRun(cfg, run) && k < |run.states| && t < |run.states[k].threads|
    requires |run.states[|run.states| - 1].recs| * cfg.hp < cfg.cap
    requires run.states[k].threads[t].HelpCopy?
    ensures var r := run.states[k].threads[t].r;
            r < |run.states[k].recs| && |run.states[k].recs[r].arr| < cfg.cap
  {
    var last := |run.states| - 1;
    RecordsGrow(cfg, run, k, last);
    RunRoom(cfg, run, k);
    hide IsRun;
    SlotsGrow(cfg, |run.states[k].recs|, |run.states[last].recs|);
    SlotsAreProduct(cfg, |run.states[last].recs|);
    assert RoomOk(cfg, run.states[k], t);
  }

  // ----- nobody blocks -----

  lemma {:induction false} SortedExists(s: seq<Word>) returns (r: seq<Word>)
    ensures Sorted(r) && multiset(r) == multiset(s)
  {
    if s == [] {
      r := [];
    } else {
      var x := s[|s|-1];
      var q := SortedExists(s[..|s|-1]);
      var j := Place(q, x);
      Inserted(q, x, j);
      InsertedCounts(q, x, j);
      assert s == s[..|s|-1] + [x];
      r := q[..j] + [x] + q[j..];
    }
  }

  lemma {:induction false} Place(q: seq<Word>, x: Word) returns (j: nat)
    requires Sorted(q)
    ensures j <= |q| && (j > 0 ==> q[j-1] <= x) && forall k :: j <= k < |q| ==> q[k] > x
  {
    if q == [] || q[|q|-1] <= x {
      j := |q|;
    } else {
      j := Place(q[..|q|-1], x);
    }
  }

  // Inside the collector a thread always has a next step: nothing in it waits for another thread.
  lemma NeverStuck(cfg: Config, s: State, t: nat) returns (s': State)
    requires Inv(cfg, s) && t < |s.threads| && !s.threads[t].Dead? && !s.threads[t].Idle?
    ensures Next(cfg, s, s', t, Go)
  {
    ThreadOf(cfg, s, t);
    var pc := s.threads[t];
    if Own(pc).Some? {
      RecordOf(cfg, s, Own(pc).value);
    }
    if Helped(pc).Some? {
      RecordOf(cfg, s, Helped(pc).value);
    }
    hide Inv, Structured;
    if pc.ScanStart? {
      s' := StartStep(cfg, s, t);
    } else if pc.Out? || pc.Probe? || pc.Taken? || pc.Linking? {
      s' := AllocMove(cfg, s, t);
    } else if pc.Clearing? || pc.Release? {
      s' := ReleaseMove(cfg, s, t);
    } else if pc.ScanRec? || pc.ScanSlot? {
      s' := ReadMove(cfg, s, t);
    } else if pc.Sweep? {
      s' := SweepMove(cfg, s, t);
    } else if pc.HelpCopy? || pc.HelpFree? || pc.HelpRelease? {
      s' := AdoptMove(cfg, s, t);
    } else {
      s' := SeekMove(cfg, s, t);
    }
  }

  lemma StartStep(cfg: Config, s: State, t: nat) returns (s': State)
    requires t < |s.threads| && ThreadOk(cfg, s, t) && s.threads[t].ScanStart?
    ensures ReadStep(cfg, s, s', t)
  {
    var r, back := s.threads[t].r, s.threads[t].back;
    if cfg.inplace && Even(s.recs[r].arr) {
      var sorted := SortedExists(s.recs[r].arr);
      s' := s.(threads := s.threads[t := ScanRec(r, back, true, {}, s.head)],
               recs := s.recs[r := s.recs[r].(arr := sorted)]);
    } else {
      s' := s.(threads := s.threads[t := ScanRec(r, back, false, {}, s.head)]);
    }
  }

  lemma AllocMove(cfg: Config, s: State, t: nat) returns (s': State)
    requires t < |s.threads| && ThreadOk(cfg, s, t)
    requires s.threads[t].Out? || s.threads[t].Probe? || s.threads[t].Taken? || s.threads[t].Linking?
    ensures AllocStep(cfg, s, s', t)
  {
    match s.threads[t]
    case Out => s' := s.(threads := s.threads[t := Probe(s.head)]);
    case Probe(cur) =>
      if cur.None? {
        s' := s.(threads := s.threads[t := Linking(|s.recs|, s.head)], recs := s.recs + [NewRecord(cfg, t)]);
      } else if s.recs[cur.value].owner == None {
        s' := s.(threads := s.threads[t := Taken(cur.value)],
                 recs := s.recs[cur.value := s.recs[cur.value].(owner := Some(t))]);
      } else {
        s' := s.(threads := s.threads[t := Probe(s.recs[cur.value].next)]);
      }
    case Taken(r) => s' := s.(threads := s.threads[t := Idle(r)], recs := s.recs[r := s.recs[r].(free := false)]);
    case Linking(r, top) => s' := s.(threads := s.threads[t := Linking(r, s.head)]);
  }

  lemma ReleaseMove(cfg: Config, s: State, t: nat) returns (s': State)
    requires t < |s.threads| && ThreadOk(cfg, s, t) && (s.threads[t].Clearing? || s.threads[t].Release?)
    ensures ReleaseStep(s, s', t)
  {
    var r := s.threads[t].r;
    var x := s.recs[r];
    if s.threads[t].Release? {
      s' := s.(threads := s.threads[t := Out], recs := s.recs[r := x.(owner := None)]);
    } else if s.threads[t].i < |x.hzp| {
      var i := s.threads[t].i;
      s' := s.(threads := s.threads[t := Clearing(r, i + 1)],
               recs := s.recs[r := x.(hzp := x.hzp[i := 0], valid := x.valid - {i})]);
    } else {
      s' := s.(threads := s.threads[t := ScanStart(r, ToHelp)]);
    }
  }

  lemma ReadMove(cfg: Config, s: State, t: nat) returns (s': State)
    requires t < |s.threads| && ThreadOk(cfg, s, t) && (s.threads[t].ScanRec? || s.threads[t].ScanSlot?)
    ensures ReadStep(cfg, s, s', t)
  {
    match s.threads[t]
    case ScanRec(r, back, skip, seen, cur) =>
      if cur.None? {
        s' := s.(threads := s.threads[t := Sweep(r, back, seen)]);
      } else if skip && s.recs[cur.value].free {
        s' := s.(threads := s.threads[t := ScanRec(r, back, skip, seen, s.recs[cur.value].next)]);
      } else {
        s' := s.(threads := s.threads[t := ScanSlot(r, back, skip, seen, cur.value, 0)]);
      }
    case ScanSlot(r, back, skip, seen, c, i) =>
      if i < |s.recs[c].hzp| {
        var p := s.recs[c].hzp[i];
        s' := s.(threads := s.threads[t := ScanSlot(r, back, skip, if p != 0 then seen + {p} else seen, c, i + 1)]);
      } else {
        s' := s.(threads := s.threads[t := ScanRec(r, back, skip, seen, s.recs[c].next)]);
      }
  }

  lemma SweepMove(cfg: Config, s: State, t: nat) returns (s': State)
    requires t < |s.threads| && ThreadOk(cfg, s, t) && s.threads[t].Sweep? && RecordOk(cfg, s, s.threads[t].r)
    ensures SweepStep(s, s', t)
  {
    var r, back, seen := s.threads[t].r, s.threads[t].back, s.threads[t].seen;
    var x := s.recs[r];
    if x.todo == |x.arr| {
      s' := s.(threads := s.threads[t := After(s, r, back)],
               recs := s.recs[r := x.(arr := x.arr[..x.kept], kept := 0, todo := 0)]);
    } else if x.arr[x.todo] in seen {
      s' := s.(threads := s.threads[t := s.threads[t]],
               recs := s.recs[r := x.(arr := x.arr[x.kept := x.arr[x.todo]], kept := x.kept + 1, todo := x.todo + 1)]);
    } else {
      var p := x.arr[x.todo];
      s' := s.(recs := s.recs[r := x.(todo := x.todo + 1)], home := s.home - {p}, freed := s.freed + {p});
    }
  }

  lemma SeekMove(cfg: Config, s: State, t: nat) returns (s': State)
    requires t < |s.threads| && ThreadOk(cfg, s, t)
    requires s.threads[t].HelpRec? || s.threads[t].HelpOwner? || s.threads[t].HelpAlive? || s.threads[t].HelpCas?
    ensures SeekStep(s, s', t)
  {
    match s.threads[t]
    case HelpRec(r, cur) =>
      if cur.None? {
        s' := s.(threads := s.threads[t := Release(r)]);
      } else {
        var c := s.recs[cur.value];
        s' := s.(threads := s.threads[t := if c.free then HelpRec(r, c.next) else HelpOwner(r, cur.value)]);
      }
    case HelpOwner(r, c) => s' := s.(threads := s.threads[t := HelpAlive(r, c, s.recs[c].owner)]);
    case HelpAlive(r, c, read) =>
      s' := s.(threads := s.threads[t := HelpCas(r, c, if read == None || IsDead(s, read) then read else None)]);
    case HelpCas(r, c, expected) =>
      if s.recs[c].owner == expected {
        s' := s.(threads := s.threads[t := HelpCopy(r, c)], recs := s.recs[c := s.recs[c].(owner := Some(t))]);
      } else {
        s' := s.(threads := s.threads[t := HelpRec(r, s.recs[c].next)]);
      }
  }

  lemma AdoptMove(cfg: Config, s: State, t: nat) returns (s': State)
    requires t < |s.threads| && ThreadOk(cfg, s, t)
    requires s.threads[t].HelpCopy? || s.threads[t].HelpFree? || s.threads[t].HelpRelease?
    ensures AdoptStep(cfg, s, s', t)
  {
    match s.threads[t]
    case HelpCopy(r, c) =>
      var x, y := s.recs[r], s.recs[c];
      if y.todo < |y.arr| {
        var p := y.arr[y.todo];
        s' := s.(recs := s.recs[r := x.(arr := x.arr + [p])][c := y.(todo := y.todo + 1)], home := s.home[p := r],
                 threads := s.threads[t := if |x.arr| + 1 >= cfg.cap then ScanStart(r, ToCopy(c)) else HelpCopy(r, c)]);
      } else {
        s' := s.(threads := s.threads[t := HelpFree(r, c)], recs := s.recs[c := y.(arr := [], todo := 0)]);
      }
    case HelpFree(r, c) =>
      s' := s.(threads := s.threads[t := HelpRelease(r, c)], recs := s.recs[c := s.recs[c].(free := true)]);
    case HelpRelease(r, c) =>
      s' := s.(threads := s.threads[t := ScanStart(r, ToNext(c))], recs := s.recs[c := s.recs[c].(owner := None)]);
  }
}
