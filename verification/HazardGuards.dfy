/** An object under a validated guard is not freed: whoever scans with the object in its array has
    seen the guard already or has yet to read its slot. */
module HazardGuards {
  import opened Wrappers
  import opened HazardScan
  import opened HazardProtocol
  import opened HazardStructure
  import opened HazardAccounts

  // The thread can still rely on the guard in slot i of its record.
  predicate MayGuard(pc: Thread, i: nat) {
    pc.Idle? || (Scanning(pc) && pc.back.ToIdle?) || (pc.Clearing? && pc.i <= i)
  }

  ghost predicate IsGuard(s: State, x: nat, i: nat) {
    x < |s.recs| && i in s.recs[x].valid && i < |s.recs[x].hzp|
  }

  // A validated guard stands in a linked, used record of a live thread and holds an object that is not freed.
  ghost predicate GuardOk(s: State, x: nat, i: nat)
    requires x < |s.recs|
  {
    var rec := s.recs[x];
    && i < |rec.hzp| && rec.hzp[i] != 0 && rec.hzp[i] !in s.freed
    && rec.rank >= 1 && !rec.free
    && rec.owner.Some? && rec.owner.value < |s.threads|
    && Own(s.threads[rec.owner.value]) == Some(x) && MayGuard(s.threads[rec.owner.value], i)
  }

  // The scanning thread has yet to read slot i of record x.
  predicate Ahead(s: State, pc: Thread, x: nat, i: nat)
    requires x < |s.recs|
  {
    match pc
    case ScanStart(_, _) => true
    case ScanRec(_, _, _, _, cur) => cur.Some? && cur.value < |s.recs| && s.recs[x].rank <= s.recs[cur.value].rank
    case ScanSlot(_, _, _, _, c, k) => c < |s.recs| && ((x == c && k <= i) || s.recs[x].rank < s.recs[c].rank)
    case _ => false
  }

  function SeenBy(pc: Thread): set<Word> {
    if pc.ScanRec? || pc.ScanSlot? || pc.Sweep? then pc.seen else {}
  }

  // The object guarded by slot i of record x is safe from the scan of thread u.
  ghost predicate Covers(s: State, u: nat, x: nat, i: nat)
    requires u < |s.threads| && IsGuard(s, x, i)
  {
    var pc := s.threads[u];
    Scanning(pc) && (s.recs[x].hzp[i] in s.home && s.home[s.recs[x].hzp[i]] == pc.r) ==>
      Ahead(s, pc, x, i) || s.recs[x].hzp[i] in SeenBy(pc)
  }

  ghost predicate Guards(s: State) {
    && (forall x, i :: 0 <= x < |s.recs| && i in s.recs[x].valid ==> GuardOk(s, x, i))
    && (forall u, x, i :: 0 <= u < |s.threads| && IsGuard(s, x, i) ==> Covers(s, u, x, i))
  }

  lemma GuardOf(s: State, x: nat, i: nat)
    requires Guards(s) && x < |s.recs| && i in s.recs[x].valid
    ensures GuardOk(s, x, i) && IsGuard(s, x, i)
  {
  }

  lemma CoverOf(s: State, u: nat, x: nat, i: nat)
    requires Guards(s) && u < |s.threads| && IsGuard(s, x, i)
    ensures Covers(s, u, x, i)
  {
  }

  ghost predicate Inv(cfg: Config, s: State) {
    Structured(cfg, s) && Accounts(s) && Guards(s)
  }

  // ----- the step that frees -----

  // A step frees only the object its sweep has reached and no reading has seen guarded.
  ghost predicate Frees(s: State, s': State, t: nat, p: Word)
    requires t < |s.threads|
  {
    && s.threads[t].Sweep? && s.threads[t].r < |s.recs|
    && var x := s.recs[s.threads[t].r];
       x.todo < |x.arr| && x.arr[x.todo] == p && p !in s.threads[t].seen && s'.freed == s.freed + {p}
  }

  lemma StepFrees(cfg: Config, s: State, s': State, t: nat, ev: Event, p: Word)
    requires Next(cfg, s, s', t, ev) && p in s'.freed && p !in s.freed
    ensures Frees(s, s', t, p)
  {
    hide Even, Sorted;
  }

  // No validated guard holds the object being freed.
  lemma FreeIsSafe(cfg: Config, s: State, s': State, t: nat, p: Word, x: nat, i: nat)
    requires Inv(cfg, s) && t < |s.threads| && Frees(s, s', t, p) && IsGuard(s, x, i)
    ensures s.recs[x].hzp[i] != p
  {
    var r := s.threads[t].r;
    AccountOf(s, r);
    NextIsHeld(s, r);
    CoverOf(s, t, x, i);
  }

  // ----- guards under each step -----

  // Where the guards of the next state come from.
  ghost predicate GuardFrom(s: State, s': State, x: nat, i: nat)
    requires IsGuard(s', x, i)
  {
    && x < |s.recs| && i < |s.recs[x].hzp| && s'.recs[x].hzp[i] == s.recs[x].hzp[i]
    && (IsGuard(s, x, i) || Live(s, s.recs[x].hzp[i]))
  }

  ghost predicate SameSlots(s: State, s': State) {
    && |s'.recs| >= |s.recs|
    && (forall x :: 0 <= x < |s.recs| ==> s'.recs[x].hzp == s.recs[x].hzp && s'.recs[x].valid == s.recs[x].valid)
    && (forall x :: |s.recs| <= x < |s'.recs| ==> s'.recs[x].valid == {})
  }

  lemma AllocSlots(cfg: Config, s: State, s': State, t: nat)
    requires t < |s.threads| && AllocStep(cfg, s, s', t)
    ensures SameSlots(s, s')
  {
  }

  lemma CollectorSlots(cfg: Config, s: State, s': State, t: nat)
    requires t < |s.threads|
    requires ReadStep(cfg, s, s', t) || SweepStep(s, s', t) || SeekStep(s, s', t) || AdoptStep(cfg, s, s', t)
    ensures SameSlots(s, s')
  {
    hide Even, Sorted;
  }

  lemma UserGuardFrom(cfg: Config, s: State, s': State, t: nat, ev: Event, x: nat, i: nat)
    requires Guards(s) && t < |s.threads| && UserStep(cfg, s, s', t, ev) && x < |s'.recs| && i in s'.recs[x].valid
    ensures IsGuard(s', x, i) && GuardFrom(s, s', x, i)
    ensures !IsGuard(s, x, i) ==>
              s.threads[t] == s'.threads[t] == Idle(x) && s'.recs[x] == s.recs[x].(valid := s'.recs[x].valid)
  {
    if x < |s.recs| && i in s.recs[x].valid {
      GuardOf(s, x, i);
    }
    hide Guards;
  }

  lemma ReleaseGuardFrom(s: State, s': State, t: nat, x: nat, i: nat)
    requires Guards(s) && t < |s.threads| && ReleaseStep(s, s', t) && x < |s'.recs| && i in s'.recs[x].valid
    ensures IsGuard(s', x, i) && IsGuard(s, x, i) && s'.recs[x].hzp[i] == s.recs[x].hzp[i]
  {
    GuardOf(s, x, i);
    hide Guards;
  }

  lemma LeakGuardFrom(cfg: Config, s: State, s': State, t: nat, x: nat, i: nat)
    requires Guards(s) && t < |s.threads| && LeakStep(cfg, s, s', t) && x < |s'.recs| && i in s'.recs[x].valid
    ensures x != s.threads[t].r && IsGuard(s', x, i) && IsGuard(s, x, i) && s'.recs[x].hzp[i] == s.recs[x].hzp[i]
  {
    GuardOf(s, x, i);
    hide Guards;
  }

  // A guard of the next state was one before, on the same object, or has just been validated.
  lemma StepGuardFrom(cfg: Config, s: State, s': State, t: nat, ev: Event, x: nat, i: nat)
    requires Guards(s) && Next(cfg, s, s', t, ev) && x < |s'.recs| && i in s'.recs[x].valid
    ensures IsGuard(s', x, i) && GuardFrom(s, s', x, i)
    ensures !IsGuard(s, x, i) ==>
              UserStep(cfg, s, s', t, ev) && s.threads[t] == s'.threads[t] == Idle(x)
              && s'.recs[x] == s.recs[x].(valid := s'.recs[x].valid)
  {
    hide Guards, UserStep, LeakStep, AllocStep, ReleaseStep, ReadStep, SweepStep, SeekStep, AdoptStep;
    if UserStep(cfg, s, s', t, ev) {
      UserGuardFrom(cfg, s, s', t, ev, x, i);
    } else if LeakStep(cfg, s, s', t) {
      LeakGuardFrom(cfg, s, s', t, x, i);
    } else if ReleaseStep(s, s', t) {
      ReleaseGuardFrom(s, s', t, x, i);
    } else {
      if AllocStep(cfg, s, s', t) {
        AllocSlots(cfg, s, s', t);
      } else {
        CollectorSlots(cfg, s, s', t);
      }
      GuardOf(s, x, i);
    }
  }

  // A guard of the stepping thread's own record stays one it can rely on.
  ghost predicate StillOwn(s': State, t: nat, x: nat, i: nat) {
    && t < |s'.threads| && x < |s'.recs| && Own(s'.threads[t]) == Some(x) && MayGuard(s'.threads[t], i)
    && s'.recs[x].owner == Some(t) && s'.recs[x].rank >= 1 && !s'.recs[x].free
  }

  lemma UserOwnGuard(cfg: Config, s: State, s': State, t: nat, ev: Event, x: nat, i: nat)
    requires t < |s.threads| && StillOwn(s, t, x, i) && UserStep(cfg, s, s', t, ev) && x < |s'.recs|
    requires i in s'.recs[x].valid
    ensures StillOwn(s', t, x, i)
  {
  }

  lemma ReleaseOwnGuard(s: State, s': State, t: nat, x: nat, i: nat)
    requires t < |s.threads| && StillOwn(s, t, x, i) && ReleaseStep(s, s', t) && x < |s'.recs| && i in s'.recs[x].valid
    requires i < |s.recs[x].hzp|
    ensures StillOwn(s', t, x, i)
  {
  }

  lemma ReadOwnGuard(cfg: Config, s: State, s': State, t: nat, x: nat, i: nat)
    requires t < |s.threads| && StillOwn(s, t, x, i) && ReadStep(cfg, s, s', t)
    ensures StillOwn(s', t, x, i)
  {
    hide Even, Sorted;
  }

  lemma SweepOwnGuard(s: State, s': State, t: nat, x: nat, i: nat)
    requires t < |s.threads| && StillOwn(s, t, x, i) && SweepStep(s, s', t)
    ensures StillOwn(s', t, x, i)
  {
  }

  lemma LeakOwnGuard(cfg: Config, s: State, s': State, t: nat, x: nat, i: nat)
    requires t < |s.threads| && StillOwn(s, t, x, i) && LeakStep(cfg, s, s', t) && x < |s'.recs|
    ensures i !in s'.recs[x].valid
  {
  }

  lemma NotGuarding(cfg: Config, s: State, s': State, t: nat, x: nat, i: nat)
    requires t < |s.threads| && StillOwn(s, t, x, i)
    ensures !AllocStep(cfg, s, s', t) && !SeekStep(s, s', t) && !AdoptStep(cfg, s, s', t)
  {
  }

  lemma StepOwnGuard(cfg: Config, s: State, s': State, t: nat, ev: Event, x: nat, i: nat)
    requires Next(cfg, s, s', t, ev) && StillOwn(s, t, x, i) && x < |s'.recs| && i in s'.recs[x].valid
    requires i < |s.recs[x].hzp|
    ensures StillOwn(s', t, x, i)
  {
    hide StillOwn, UserStep, LeakStep, AllocStep, ReleaseStep, ReadStep, SweepStep, SeekStep, AdoptStep;
    NotGuarding(cfg, s, s', t, x, i);
    if UserStep(cfg, s, s', t, ev) {
      UserOwnGuard(cfg, s, s', t, ev, x, i);
    } else if LeakStep(cfg, s, s', t) {
      LeakOwnGuard(cfg, s, s', t, x, i);
    } else if ReleaseStep(s, s', t) {
      ReleaseOwnGuard(s, s', t, x, i);
    } else if ReadStep(cfg, s, s', t) {
      ReadOwnGuard(cfg, s, s', t, x, i);
    } else {
      SweepOwnGuard(s, s', t, x, i);
    }
  }

  lemma StepGuardOk(cfg: Config, s: State, s': State, t: nat, ev: Event, x: nat, i: nat)
    requires Inv(cfg, s) && Next(cfg, s, s', t, ev) && x < |s'.recs| && i in s'.recs[x].valid
    ensures GuardOk(s', x, i)
  {
    hide Structured, Accounts, Guards, Next, UserStep;
    StepGuardFrom(cfg, s, s', t, ev, x, i);
    StepTouches(cfg, s, s', t, ev);
    var p := s.recs[x].hzp[i];
    if p in s'.freed && p !in s.freed {
      StepFrees(cfg, s, s', t, ev, p);
    }
    if IsGuard(s, x, i) {
      GuardOf(s, x, i);
      if p in s'.freed {
        FreeIsSafe(cfg, s, s', t, p, x, i);
        assert false;
      }
      if s.recs[x].owner == Some(t) {
        StepOwnGuard(cfg, s, s', t, ev, x, i);
      } else {
        OwnedUntouched(s, s', t, s.recs[x].owner.value, x);
      }
    } else {
      ThreadOf(cfg, s, t);
    }
  }

  // ----- scans under each step -----

  lemma HomeSame(cfg: Config, s: State, s': State, t: nat)
    requires t < |s.threads|
    requires AllocStep(cfg, s, s', t) || ReleaseStep(s, s', t) || ReadStep(cfg, s, s', t) || SeekStep(s, s', t)
    ensures s'.home == s.home
  {
    hide Even, Sorted;
  }

  // A step of thread t charges objects only to t's own record.
  lemma HomeStays(cfg: Config, s: State, s': State, t: nat, ev: Event, p: Word)
    requires Next(cfg, s, s', t, ev) && p in s'.home && Own(s.threads[t]) != Some(s'.home[p])
    ensures p in s.home && s.home[p] == s'.home[p]
  {
    hide AllocStep, ReleaseStep, ReadStep, SeekStep;
    if AllocStep(cfg, s, s', t) || ReleaseStep(s, s', t) || ReadStep(cfg, s, s', t) || SeekStep(s, s', t) {
      HomeSame(cfg, s, s', t);
    }
  }

  lemma AheadStays(cfg: Config, s: State, s': State, t: nat, u: nat, x: nat, i: nat)
    requires Structured(cfg, s) && Touches(s, s', t) && u < |s.threads| && Linked(s, x) && Ahead(s, s.threads[u], x, i)
    ensures Ahead(s', s.threads[u], x, i)
  {
    ThreadOf(cfg, s, u);
    hide Structured, ListOk;
  }

  // Another thread's scan stays safe.
  lemma OtherCovers(cfg: Config, s: State, s': State, t: nat, ev: Event, u: nat, x: nat, i: nat)
    requires Inv(cfg, s) && Next(cfg, s, s', t, ev) && u < |s'.threads| && u != t && IsGuard(s', x, i)
    ensures Covers(s', u, x, i)
  {
    hide Structured, Accounts, Guards, Next, UserStep, Ahead;
    StepTouches(cfg, s, s', t, ev);
    StepGuardFrom(cfg, s, s', t, ev, x, i);
    var pc, p := s.threads[u], s'.recs[x].hzp[i];
    if Scanning(pc) && p in s'.home && s'.home[p] == pc.r {
      ThreadOf(cfg, s, u);
      ThreadOf(cfg, s, t);
      HomeStays(cfg, s, s', t, ev, p);
      assert IsGuard(s, x, i);
      GuardOf(s, x, i);
      CoverOf(s, u, x, i);
      if Ahead(s, pc, x, i) {
        AheadStays(cfg, s, s', t, u, x, i);
      }
    }
  }

  // Going on to the next record skips no other record that was still ahead.
  lemma RankNext(s: State, x: nat, c: nat)
    requires ListOk(s) && Linked(s, x) && Linked(s, c) && x != c && s.recs[x].rank <= s.recs[c].rank
    ensures var n := s.recs[c].next;
            n.Some? && n.value < |s.recs| && s.recs[x].rank <= s.recs[n.value].rank && s.recs[x].rank < s.recs[c].rank
  {
    assert NextOk(s, c);
  }

  lemma HeadIsTop(s: State, x: nat)
    requires ListOk(s) && Linked(s, x)
    ensures s.head.Some? && s.head.value < |s.recs| && s.recs[x].rank <= s.recs[s.head.value].rank
  {
  }

  // A slot still ahead is read, or stays ahead.
  lemma ReadAhead(cfg: Config, s: State, s': State, t: nat, x: nat, i: nat)
    requires t < |s.threads| && ReadStep(cfg, s, s', t) && ListOk(s) && ThreadOk(cfg, s, t)
    requires Linked(s, x) && !s.recs[x].free && i < |s.recs[x].hzp| && s.recs[x].hzp[i] != 0
    requires Ahead(s, s.threads[t], x, i)
    ensures Ahead(s, s'.threads[t], x, i) || s.recs[x].hzp[i] in SeenBy(s'.threads[t])
  {
    hide Even, Sorted, ListOk, Linked;
    match s.threads[t]
    case ScanStart(_, _) =>
      HeadIsTop(s, x);
    case ScanRec(_, _, _, _, cur) =>
      if x != cur.value {
        RankNext(s, x, cur.value);
      }
    case ScanSlot(_, _, _, _, c, _) =>
      if x != c {
        RankNext(s, x, c);
      }
  }

  lemma ReadKeepsSeen(cfg: Config, s: State, s': State, t: nat)
    requires t < |s.threads| && ReadStep(cfg, s, s', t)
    ensures Scanning(s.threads[t]) && Scanning(s'.threads[t]) && s'.threads[t].r == s.threads[t].r
    ensures SeenBy(s.threads[t]) <= SeenBy(s'.threads[t]) && s'.home == s.home
    ensures |s'.recs| == |s.recs| && forall x :: 0 <= x < |s.recs| ==> s'.recs[x].rank == s.recs[x].rank
  {
    hide Even, Sorted;
  }

  lemma ReadCovers(cfg: Config, s: State, s': State, t: nat, x: nat, i: nat)
    requires Inv(cfg, s) && t < |s.threads| && ReadStep(cfg, s, s', t) && IsGuard(s, x, i)
    requires IsGuard(s', x, i) && s'.recs[x].hzp[i] == s.recs[x].hzp[i]
    ensures t < |s'.threads| && Covers(s', t, x, i)
  {
    hide Structured, Accounts, Guards, ReadStep;
    assert ListOk(s) && t < |s'.threads| by {
      ReadSizes(cfg, s, s', t);
    }
    ThreadOf(cfg, s, t);
    GuardOf(s, x, i);
    CoverOf(s, t, x, i);
    ReadKeepsSeen(cfg, s, s', t);
    if Ahead(s, s.threads[t], x, i) {
      ReadAhead(cfg, s, s', t, x, i);
    }
  }

  lemma ReadSizes(cfg: Config, s: State, s': State, t: nat)
    requires Structured(cfg, s) && t < |s.threads| && ReadStep(cfg, s, s', t)
    ensures ListOk(s) && |s'.threads| == |s.threads|
  {
    hide ListOk, ThreadOk, RecordOk, Even, Sorted;
  }

  lemma SweepCovers(cfg: Config, s: State, s': State, t: nat, x: nat, i: nat)
    requires Inv(cfg, s) && t < |s.threads| && SweepStep(s, s', t) && IsGuard(s, x, i)
    requires IsGuard(s', x, i) && s'.recs[x].hzp[i] == s.recs[x].hzp[i]
    ensures t < |s'.threads| && Covers(s', t, x, i)
  {
    CoverOf(s, t, x, i);
    hide Structured, Accounts, Guards;
  }

  // Every other step leads into the start of a scan or outside scans.
  lemma OutsideCovers(cfg: Config, s: State, s': State, t: nat, ev: Event)
    requires Next(cfg, s, s', t, ev) && !(ev.Go? && ReadStep(cfg, s, s', t)) && !(ev.Go? && SweepStep(s, s', t))
    ensures t < |s'.threads| && (s'.threads[t].ScanStart? || !Scanning(s'.threads[t]))
  {
    hide UserStep, AllocStep, ReleaseStep, ReadStep, SweepStep, SeekStep, AdoptStep;
    if UserStep(cfg, s, s', t, ev) {
      UserOutside(cfg, s, s', t, ev);
    } else if LeakStep(cfg, s, s', t) {
    } else {
      QuietOutside(cfg, s, s', t);
    }
  }

  lemma UserOutside(cfg: Config, s: State, s': State, t: nat, ev: Event)
    requires t < |s.threads| && UserStep(cfg, s, s', t, ev)
    ensures t < |s'.threads| && (s'.threads[t].ScanStart? || !Scanning(s'.threads[t]))
  {
  }

  lemma QuietOutside(cfg: Config, s: State, s': State, t: nat)
    requires t < |s.threads|
    requires AllocStep(cfg, s, s', t) || ReleaseStep(s, s', t) || SeekStep(s, s', t) || AdoptStep(cfg, s, s', t)
    ensures t < |s'.threads| && (s'.threads[t].ScanStart? || !Scanning(s'.threads[t]))
  {
  }

  lemma StepCovers(cfg: Config, s: State, s': State, t: nat, ev: Event, u: nat, x: nat, i: nat)
    requires Inv(cfg, s) && Next(cfg, s, s', t, ev) && u < |s'.threads| && IsGuard(s', x, i)
    ensures Covers(s', u, x, i)
  {
    hide Structured, Accounts, Guards, UserStep, LeakStep, AllocStep, ReleaseStep, ReadStep, SweepStep, SeekStep,
         AdoptStep, Covers;
    if u != t {
      OtherCovers(cfg, s, s', t, ev, u, x, i);
    } else if ev.Go? && (ReadStep(cfg, s, s', t) || SweepStep(s, s', t)) {
      GuardBefore(cfg, s, s', t, ev, x, i);
      if ReadStep(cfg, s, s', t) {
        ReadCovers(cfg, s, s', t, x, i);
      } else {
        SweepCovers(cfg, s, s', t, x, i);
      }
    } else {
      OutsideCovers(cfg, s, s', t, ev);
      StartCovers(s', t, x, i);
    }
  }

  lemma StartCovers(s: State, t: nat, x: nat, i: nat)
    requires t < |s.threads| && IsGuard(s, x, i) && (s.threads[t].ScanStart? || !Scanning(s.threads[t]))
    ensures Covers(s, t, x, i)
  {
  }

  lemma GuardBefore(cfg: Config, s: State, s': State, t: nat, ev: Event, x: nat, i: nat)
    requires Guards(s) && Next(cfg, s, s', t, ev) && ev.Go? && IsGuard(s', x, i)
    ensures IsGuard(s, x, i) && s'.recs[x].hzp[i] == s.recs[x].hzp[i]
  {
    StepGuardFrom(cfg, s, s', t, ev, x, i);
    hide Guards, Next;
  }

  lemma StepInv(cfg: Config, s: State, s': State, t: nat, ev: Event)
    requires Inv(cfg, s) && Next(cfg, s, s', t, ev)
    ensures Inv(cfg, s')
  {
    hide Structured, Accounts, Next, GuardOk, Covers;
    StepStructured(cfg, s, s', t, ev);
    StepAccounts(cfg, s, s', t, ev);
    forall x, i | 0 <= x < |s'.recs| && i in s'.recs[x].valid ensures GuardOk(s', x, i) {
      StepGuardOk(cfg, s, s', t, ev, x, i);
    }
    forall u, x, i | 0 <= u < |s'.threads| && IsGuard(s', x, i) ensures Covers(s', u, x, i) {
      StepCovers(cfg, s, s', t, ev, u, x, i);
    }
  }

  lemma InitInv(cfg: Config, s: State)
    requires Init(s)
    ensures Inv(cfg, s)
  {
    InitStructured(cfg, s);
    hide Structured;
  }

  // The invariant holds in every state of every run.
  lemma {:induction false} RunInv(cfg: Config, run: Run, k: nat)
    requires IsRun(cfg, run) && k < |run.states|
    ensures Inv(cfg, run.states[k])
  {
    hide Inv, Next, Init;
    if k == 0 {
      InitInv(cfg, run.states[0]);
    } else {
      RunInv(cfg, run, k - 1);
      StepInv(cfg, run.states[k-1], run.states[k], run.who[k-1], run.events[k-1]);
    }
  }
}
