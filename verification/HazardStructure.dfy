/** What every run of the hazard-pointer protocol keeps about records and their owners. */
module HazardStructure {
  import opened Wrappers
  import opened HazardScan
  import opened HazardProtocol

  // The record the thread allocated and has not given up.
  function Own(pc: Thread): Option<nat> {
    match pc
    case Out => None
    case Dead => None
    case Probe(_) => None
    case _ => Some(pc.r)
  }

  predicate Scanning(pc: Thread) {
    pc.ScanStart? || pc.ScanRec? || pc.ScanSlot? || pc.Sweep?
  }

  // The record whose retired objects the thread is copying into its own.
  function Copied(pc: Thread): Option<nat> {
    if pc.HelpCopy? then Some(pc.c)
    else if Scanning(pc) && pc.back.ToCopy? then Some(pc.back.src)
    else None
  }

  // The record the thread has adopted.
  function Helped(pc: Thread): Option<nat> {
    if pc.HelpFree? || pc.HelpRelease? then Some(pc.c) else Copied(pc)
  }

  // The cursors of record x are in use.
  predicate Works(pc: Thread, x: nat) {
    (pc.Sweep? && pc.r == x) || Copied(pc) == Some(x)
  }

  // The record the thread is about to look at in its walk down the list.
  function Visits(pc: Thread): Option<nat> {
    match pc
    case Probe(cur) => cur
    case Linking(_, top) => top
    case ScanRec(_, _, _, _, cur) => cur
    case ScanSlot(_, _, _, _, c, _) => Some(c)
    case HelpRec(_, cur) => cur
    case HelpOwner(_, c) => Some(c)
    case HelpAlive(_, c, _) => Some(c)
    case HelpCas(_, c, _) => Some(c)
    case _ => None
  }

  predicate Linked(s: State, x: nat) {
    x < |s.recs| && s.recs[x].rank >= 1
  }

  predicate OwnedBy(s: State, x: nat, t: nat) {
    x < |s.recs| && s.recs[x].owner == Some(t)
  }

  // The records a thread holds are owned by it, and are as it left them.
  ghost predicate HeldOk(s: State, t: nat)
    requires t < |s.threads|
  {
    var pc := s.threads[t];
    && (Own(pc).Some? ==>
          && OwnedBy(s, Own(pc).value, t)
          && (pc.Taken? || !s.recs[Own(pc).value].free)
          && (pc.Linking? <==> s.recs[Own(pc).value].rank == 0))
    && (Helped(pc).Some? ==>
          OwnedBy(s, Helped(pc).value, t) && Linked(s, Helped(pc).value) && Own(pc) != Helped(pc))
    && (Copied(pc).Some? ==> s.recs[Copied(pc).value].kept == 0)
    && (pc.HelpFree? ==> s.recs[pc.c].arr == [])
  }

  // What a thread is about to look at is in the list.
  ghost predicate WalkOk(cfg: Config, s: State, t: nat)
    requires t < |s.threads|
  {
    var pc := s.threads[t];
    && (Visits(pc).Some? ==> Linked(s, Visits(pc).value))
    && (pc.ScanSlot? ==> pc.i <= cfg.hp)
    && (pc.HelpCas? ==> pc.expected == None || IsDead(s, pc.expected))
    && (Scanning(pc) && pc.back.ToNext? ==> Linked(s, pc.back.src))
  }

  ghost predicate ThreadOk(cfg: Config, s: State, t: nat)
    requires t < |s.threads|
  {
    HeldOk(s, t) && WalkOk(cfg, s, t)
  }

  ghost predicate RecordOk(cfg: Config, s: State, x: nat)
    requires x < |s.recs|
  {
    var rec := s.recs[x];
    && |rec.hzp| == cfg.hp
    && rec.kept <= rec.todo <= |rec.arr|
    && (rec.todo > 0 ==> rec.owner.Some? && rec.owner.value < |s.threads| && Works(s.threads[rec.owner.value], x))
    && (rec.free ==> rec.arr == [])
  }

  // Following next from the head visits every linked record once, in decreasing rank.
  ghost predicate ListOk(s: State) {
    && (s.head.Some? ==> Linked(s, s.head.value))
    && (forall x :: 0 <= x < |s.recs| ==> s.recs[x].rank <= (if s.head.Some? then s.recs[s.head.value].rank else 0))
    && (forall x :: 0 <= x < |s.recs| && s.recs[x].rank >= 1 ==> NextOk(s, x))
    && (forall x, y :: 0 <= x < y < |s.recs| && s.recs[x].rank >= 1 ==> s.recs[x].rank != s.recs[y].rank)
  }

  predicate NextOk(s: State, x: nat)
    requires x < |s.recs|
  {
    var rec := s.recs[x];
    if rec.next.None? then rec.rank == 1
    else rec.next.value < |s.recs| && s.recs[rec.next.value].rank == rec.rank - 1 && rec.rank >= 2
  }

  ghost predicate Structured(cfg: Config, s: State) {
    && ListOk(s)
    && (forall t :: 0 <= t < |s.threads| ==> ThreadOk(cfg, s, t))
    && (forall x :: 0 <= x < |s.recs| ==> RecordOk(cfg, s, x))
  }

  // ----- what one step can touch -----

  ghost predicate Vacant(s: State, x: nat)
    requires x < |s.recs|
  {
    s.recs[x].owner == None || IsDead(s, s.recs[x].owner)
  }

  // A step of thread t writes only records it owns, or takes over, or creates.
  ghost predicate Touches(s: State, s': State, t: nat) {
    && t < |s.threads| && !s.threads[t].Dead?
    && |s'.threads| == |s.threads| && (forall u :: 0 <= u < |s.threads| && u != t ==> s'.threads[u] == s.threads[u])
    && |s'.recs| >= |s.recs|
    && (forall x :: 0 <= x < |s.recs| ==>
          && (s'.recs[x] == s.recs[x] || s.recs[x].owner == Some(t) || Vacant(s, x))
          && (s.recs[x].rank >= 1 ==> s'.recs[x].rank == s.recs[x].rank && s'.recs[x].next == s.recs[x].next))
  }

  lemma ThreadOf(cfg: Config, s: State, t: nat)
    requires Structured(cfg, s) && t < |s.threads|
    ensures ThreadOk(cfg, s, t)
  {
  }

  lemma RecordOf(cfg: Config, s: State, x: nat)
    requires Structured(cfg, s) && x < |s.recs|
    ensures RecordOk(cfg, s, x)
  {
  }

  lemma AllocTouches(cfg: Config, s: State, s': State, t: nat)
    requires t < |s.threads| && ThreadOk(cfg, s, t) && AllocStep(cfg, s, s', t)
    ensures Touches(s, s', t)
  {
  }

  lemma UserTouches(cfg: Config, s: State, s': State, t: nat, ev: Event)
    requires t < |s.threads| && ThreadOk(cfg, s, t) && UserStep(cfg, s, s', t, ev)
    ensures Touches(s, s', t)
  {
  }

  lemma ReleaseTouches(cfg: Config, s: State, s': State, t: nat)
    requires t < |s.threads| && ThreadOk(cfg, s, t) && ReleaseStep(s, s', t)
    ensures Touches(s, s', t)
  {
  }

  lemma ReadTouches(cfg: Config, s: State, s': State, t: nat)
    requires t < |s.threads| && ThreadOk(cfg, s, t) && ReadStep(cfg, s, s', t)
    ensures Touches(s, s', t)
  {
    hide Even, Sorted;
  }

  lemma SweepTouches(cfg: Config, s: State, s': State, t: nat)
    requires t < |s.threads| && ThreadOk(cfg, s, t) && SweepStep(s, s', t)
    ensures Touches(s, s', t)
  {
  }

  lemma SeekTouches(cfg: Config, s: State, s': State, t: nat)
    requires t < |s.threads| && ThreadOk(cfg, s, t) && SeekStep(s, s', t)
    ensures Touches(s, s', t)
  {
  }

  lemma AdoptTouches(cfg: Config, s: State, s': State, t: nat)
    requires t < |s.threads| && ThreadOk(cfg, s, t) && AdoptStep(cfg, s, s', t)
    ensures Touches(s, s', t)
  {
  }

  lemma LeakTouches(cfg: Config, s: State, s': State, t: nat)
    requires t < |s.threads| && ThreadOk(cfg, s, t) && LeakStep(cfg, s, s', t)
    ensures Touches(s, s', t)
  {
  }

  lemma StepTouches(cfg: Config, s: State, s': State, t: nat, ev: Event)
    requires Structured(cfg, s) && Next(cfg, s, s', t, ev)
    ensures Touches(s, s', t)
  {
    hide Structured, ThreadOk, Touches, UserStep, LeakStep, AllocStep, ReleaseStep, ReadStep, SweepStep, SeekStep,
         AdoptStep;
    ThreadOf(cfg, s, t);
    if UserStep(cfg, s, s', t, ev) {
      UserTouches(cfg, s, s', t, ev);
    } else if LeakStep(cfg, s, s', t) {
      LeakTouches(cfg, s, s', t);
    } else if AllocStep(cfg, s, s', t) {
      AllocTouches(cfg, s, s', t);
    } else if ReleaseStep(s, s', t) {
      ReleaseTouches(cfg, s, s', t);
    } else if ReadStep(cfg, s, s', t) {
      ReadTouches(cfg, s, s', t);
    } else if SweepStep(s, s', t) {
      SweepTouches(cfg, s, s', t);
    } else if SeekStep(s, s', t) {
      SeekTouches(cfg, s, s', t);
    } else {
      AdoptTouches(cfg, s, s', t);
    }
  }

  // A record some live thread owns is not vacant.
  lemma OwnedUntouched(s: State, s': State, t: nat, u: nat, x: nat)
    requires u < |s.threads| && !s.threads[u].Dead? && OwnedBy(s, x, u) && Touches(s, s', t) && u != t
    ensures x < |s'.recs| && s'.recs[x] == s.recs[x]
  {
  }

  lemma OthersKeep(cfg: Config, s: State, s': State, t: nat, u: nat)
    requires u < |s.threads| && ThreadOk(cfg, s, u) && Touches(s, s', t) && u != t
    ensures u < |s'.threads| && ThreadOk(cfg, s', u)
  {
    var pc := s.threads[u];
    assert s'.threads[u] == pc;
    assert !pc.Dead? ==> Own(pc).Some? ==> s'.recs[Own(pc).value] == s.recs[Own(pc).value] by {
      if !pc.Dead? && Own(pc).Some? { OwnedUntouched(s, s', t, u, Own(pc).value); }
    }
    assert !pc.Dead? ==> Helped(pc).Some? ==> s'.recs[Helped(pc).value] == s.recs[Helped(pc).value] by {
      if !pc.Dead? && Helped(pc).Some? { OwnedUntouched(s, s', t, u, Helped(pc).value); }
    }
    assert Visits(pc).Some? ==> Linked(s', Visits(pc).value);
    assert pc.HelpCas? ==> pc.expected == None || IsDead(s', pc.expected) by {
      if pc.HelpCas? && pc.expected.Some? { DeadStays(s, s', t, pc.expected); }
    }
  }

  lemma DeadStays(s: State, s': State, t: nat, owner: Option<nat>)
    requires IsDead(s, owner) && Touches(s, s', t)
    ensures IsDead(s', owner)
  {
  }

  // ----- the stepping thread -----

  lemma Successors(cfg: Config, s: State, t: nat)
    requires Structured(cfg, s) && t < |s.threads|
    ensures ThreadOk(cfg, s, t)
    ensures s.head.Some? ==> Linked(s, s.head.value)
    ensures var v := Visits(s.threads[t]);
            v.Some? && s.recs[v.value].next.Some? ==> Linked(s, s.recs[v.value].next.value)
    ensures var pc := s.threads[t];
            Scanning(pc) && pc.back.ToNext? && s.recs[pc.back.src].next.Some? ==>
              Linked(s, s.recs[pc.back.src].next.value)
  {
    assert forall x :: 0 <= x < |s.recs| && s.recs[x].rank >= 1 ==> NextOk(s, x);
  }

  lemma Both(cfg: Config, s: State, t: nat)
    requires t < |s.threads| && HeldOk(s, t) && WalkOk(cfg, s, t)
    ensures ThreadOk(cfg, s, t)
  {
  }

  lemma SlotsOf(cfg: Config, s: State, x: nat)
    requires Structured(cfg, s) && x < |s.recs|
    ensures |s.recs[x].hzp| == cfg.hp
  {
    RecordOf(cfg, s, x);
  }

  // A record nobody works on has its cursors at rest.
  lemma VacantRests(cfg: Config, s: State, x: nat)
    requires x < |s.recs| && RecordOk(cfg, s, x) && Vacant(s, x)
    ensures s.recs[x].kept == s.recs[x].todo == 0
  {
  }

  lemma ProbeHeld(cfg: Config, s: State, s': State, t: nat)
    requires t < |s.threads| && AllocStep(cfg, s, s', t) && s.threads[t].Probe?
    requires s.threads[t].cur.Some? ==> Linked(s, s.threads[t].cur.value)
    ensures t < |s'.threads| && HeldOk(s', t)
  {
  }

  lemma LinkingHeld(cfg: Config, s: State, s': State, t: nat)
    requires t < |s.threads| && AllocStep(cfg, s, s', t) && !s.threads[t].Probe? && HeldOk(s, t)
    ensures t < |s'.threads| && HeldOk(s', t)
  {
    hide Linked;
  }

  lemma AllocHeld(cfg: Config, s: State, s': State, t: nat)
    requires Structured(cfg, s) && t < |s.threads| && AllocStep(cfg, s, s', t)
    ensures t < |s'.threads| && HeldOk(s', t)
  {
    hide Structured, ListOk, HeldOk, AllocStep;
    Successors(cfg, s, t);
    if s.threads[t].Probe? {
      ProbeHeld(cfg, s, s', t);
    } else {
      LinkingHeld(cfg, s, s', t);
    }
  }

  lemma AllocWalk(cfg: Config, s: State, s': State, t: nat)
    requires Structured(cfg, s) && t < |s.threads| && AllocStep(cfg, s, s', t)
    ensures t < |s'.threads| && WalkOk(cfg, s', t)
  {
    hide Structured, ListOk, NextOk, RecordOk, Copied;
    Successors(cfg, s, t);
  }

  lemma AllocThread(cfg: Config, s: State, s': State, t: nat)
    requires Structured(cfg, s) && t < |s.threads| && AllocStep(cfg, s, s', t)
    ensures t < |s'.threads| && ThreadOk(cfg, s', t)
  {
    hide *;
    AllocHeld(cfg, s, s', t);
    AllocWalk(cfg, s, s', t);
    Both(cfg, s', t);
  }

  lemma UserHeld(cfg: Config, s: State, s': State, t: nat, ev: Event)
    requires Structured(cfg, s) && t < |s.threads| && UserStep(cfg, s, s', t, ev)
    ensures t < |s'.threads| && HeldOk(s', t)
  {
    hide Structured, ListOk, NextOk, RecordOk, Visits;
    Successors(cfg, s, t);
  }

  lemma UserWalk(cfg: Config, s: State, s': State, t: nat, ev: Event)
    requires Structured(cfg, s) && t < |s.threads| && UserStep(cfg, s, s', t, ev)
    ensures t < |s'.threads| && WalkOk(cfg, s', t)
  {
    hide Structured, ListOk, NextOk, RecordOk, Copied;
    Successors(cfg, s, t);
  }

  lemma UserThread(cfg: Config, s: State, s': State, t: nat, ev: Event)
    requires Structured(cfg, s) && t < |s.threads| && UserStep(cfg, s, s', t, ev)
    ensures t < |s'.threads| && ThreadOk(cfg, s', t)
  {
    hide *;
    UserHeld(cfg, s, s', t, ev);
    UserWalk(cfg, s, s', t, ev);
    Both(cfg, s', t);
  }

  lemma ReleaseHeld(cfg: Config, s: State, s': State, t: nat)
    requires Structured(cfg, s) && t < |s.threads| && ReleaseStep(s, s', t)
    ensures t < |s'.threads| && HeldOk(s', t)
  {
    hide Structured, ListOk, NextOk, RecordOk, Visits;
    Successors(cfg, s, t);
  }

  lemma ReleaseWalk(cfg: Config, s: State, s': State, t: nat)
    requires Structured(cfg, s) && t < |s.threads| && ReleaseStep(s, s', t)
    ensures t < |s'.threads| && WalkOk(cfg, s', t)
  {
    hide Structured, ListOk, NextOk, RecordOk, Copied;
    Successors(cfg, s, t);
  }

  lemma ReleaseThread(cfg: Config, s: State, s': State, t: nat)
    requires Structured(cfg, s) && t < |s.threads| && ReleaseStep(s, s', t)
    ensures t < |s'.threads| && ThreadOk(cfg, s', t)
  {
    hide *;
    ReleaseHeld(cfg, s, s', t);
    ReleaseWalk(cfg, s, s', t);
    Both(cfg, s', t);
  }

  lemma BeginsThread(cfg: Config, s: State, s': State, t: nat)
    requires t < |s.threads| && ThreadOk(cfg, s, t) && s.threads[t].ScanStart?
    requires Begins(cfg, s, s', t, s.threads[t].r, s.threads[t].back)
    requires s.head.Some? ==> Linked(s, s.head.value)
    ensures t < |s'.threads| && ThreadOk(cfg, s', t)
  {
    hide Even, Sorted;
  }

  // A scan that goes on with the same record and the same return keeps what its thread relies on.
  lemma ScanGoesOn(cfg: Config, s: State, s': State, t: nat)
    requires t < |s.threads| && ThreadOk(cfg, s, t) && s'.recs == s.recs && t < |s'.threads|
    requires Scanning(s.threads[t]) && Scanning(s'.threads[t])
    requires s'.threads[t].r == s.threads[t].r && s'.threads[t].back == s.threads[t].back
    requires var v := Visits(s'.threads[t]); v.Some? ==> Linked(s, v.value)
    requires s'.threads[t].ScanSlot? ==> s'.threads[t].i <= cfg.hp
    ensures ThreadOk(cfg, s', t)
  {
    hide Linked;
    assert Visits(s'.threads[t]).Some? ==>
             Linked(s', Visits(s'.threads[t]).value) by { LinkedSame(s, s', Visits(s'.threads[t])); }
    assert s'.threads[t].back.ToNext? ==> Linked(s', s'.threads[t].back.src) by {
      if s'.threads[t].back.ToNext? { LinkedSame(s, s', Some(s'.threads[t].back.src)); }
    }
    assert Helped(s'.threads[t]).Some? ==>
             Linked(s', Helped(s'.threads[t]).value) by { LinkedSame(s, s', Helped(s'.threads[t])); }
  }

  lemma LinkedSame(s: State, s': State, x: Option<nat>)
    requires s'.recs == s.recs
    ensures x.Some? ==> (Linked(s', x.value) <==> Linked(s, x.value))
  {
  }

  lemma ReadThread(cfg: Config, s: State, s': State, t: nat)
    requires Structured(cfg, s) && t < |s.threads| && ReadStep(cfg, s, s', t)
    ensures t < |s'.threads| && ThreadOk(cfg, s', t)
  {
    hide Structured, ListOk, NextOk, RecordOk, Begins, ThreadOk, Linked;
    Successors(cfg, s, t);
    var pc := s.threads[t];
    if pc.ScanStart? {
      BeginsThread(cfg, s, s', t);
    } else {
      if pc.ScanSlot? {
        SlotsOf(cfg, s, pc.c);
      }
      VisitsLinked(cfg, s, t);
      ScanGoesOn(cfg, s, s', t);
    }
  }

  lemma VisitsLinked(cfg: Config, s: State, t: nat)
    requires t < |s.threads| && ThreadOk(cfg, s, t)
    ensures var v := Visits(s.threads[t]); v.Some? ==> Linked(s, v.value) && v.value < |s.recs|
  {
  }

  lemma SweepHeld(cfg: Config, s: State, s': State, t: nat)
    requires Structured(cfg, s) && t < |s.threads| && SweepStep(s, s', t)
    ensures t < |s'.threads| && HeldOk(s', t)
  {
    hide Structured, ListOk, NextOk, RecordOk, Visits;
    Successors(cfg, s, t);
  }

  lemma SweepWalk(cfg: Config, s: State, s': State, t: nat)
    requires Structured(cfg, s) && t < |s.threads| && SweepStep(s, s', t)
    ensures t < |s'.threads| && WalkOk(cfg, s', t)
  {
    hide Structured, ListOk, NextOk, RecordOk, Copied;
    Successors(cfg, s, t);
  }

  lemma SweepThread(cfg: Config, s: State, s': State, t: nat)
    requires Structured(cfg, s) && t < |s.threads| && SweepStep(s, s', t)
    ensures t < |s'.threads| && ThreadOk(cfg, s', t)
  {
    hide *;
    SweepHeld(cfg, s, s', t);
    SweepWalk(cfg, s, s', t);
    Both(cfg, s', t);
  }

  lemma SeekHeld(cfg: Config, s: State, s': State, t: nat)
    requires Structured(cfg, s) && t < |s.threads| && SeekStep(s, s', t)
    ensures t < |s'.threads| && HeldOk(s', t)
  {
    hide Structured, ListOk, NextOk, RecordOk;
    Successors(cfg, s, t);
    var pc := s.threads[t];
    if pc.HelpCas? && s.recs[pc.c].owner == pc.expected {
      RecordOf(cfg, s, pc.c);
      VacantRests(cfg, s, pc.c);
    }
  }

  lemma SeekWalk(cfg: Config, s: State, s': State, t: nat)
    requires Structured(cfg, s) && t < |s.threads| && SeekStep(s, s', t)
    ensures t < |s'.threads| && WalkOk(cfg, s', t)
  {
    hide Structured, ListOk, NextOk, RecordOk, Copied;
    Successors(cfg, s, t);
  }

  lemma SeekThread(cfg: Config, s: State, s': State, t: nat)
    requires Structured(cfg, s) && t < |s.threads| && SeekStep(s, s', t)
    ensures t < |s'.threads| && ThreadOk(cfg, s', t)
  {
    hide *;
    SeekHeld(cfg, s, s', t);
    SeekWalk(cfg, s, s', t);
    Both(cfg, s', t);
  }

  lemma AdoptHeld(cfg: Config, s: State, s': State, t: nat)
    requires Structured(cfg, s) && t < |s.threads| && AdoptStep(cfg, s, s', t)
    ensures t < |s'.threads| && HeldOk(s', t)
  {
    hide Structured, ListOk, NextOk, RecordOk, Visits;
    Successors(cfg, s, t);
  }

  lemma AdoptWalk(cfg: Config, s: State, s': State, t: nat)
    requires Structured(cfg, s) && t < |s.threads| && AdoptStep(cfg, s, s', t)
    ensures t < |s'.threads| && WalkOk(cfg, s', t)
  {
    hide Structured, ListOk, NextOk, RecordOk;
    Successors(cfg, s, t);
  }

  lemma AdoptThread(cfg: Config, s: State, s': State, t: nat)
    requires Structured(cfg, s) && t < |s.threads| && AdoptStep(cfg, s, s', t)
    ensures t < |s'.threads| && ThreadOk(cfg, s', t)
  {
    hide *;
    AdoptHeld(cfg, s, s', t);
    AdoptWalk(cfg, s, s', t);
    Both(cfg, s', t);
  }

  // ----- records -----

  lemma UntouchedRecord(cfg: Config, s: State, s': State, t: nat, x: nat)
    requires x < |s.recs| && RecordOk(cfg, s, x) && Touches(s, s', t) && x < |s'.recs| && s'.recs[x] == s.recs[x]
    requires s.recs[x].owner == Some(t) && Works(s.threads[t], x) ==> Works(s'.threads[t], x)
    ensures RecordOk(cfg, s', x)
  {
  }

  lemma AllocWrites(cfg: Config, s: State, s': State, t: nat, x: nat)
    requires t < |s.threads| && ThreadOk(cfg, s, t) && AllocStep(cfg, s, s', t) && x < |s.recs| && RecordOk(cfg, s, x)
    ensures x < |s'.recs| && RecordOk(cfg, s', x)
  {
    hide Linked, Visits;
  }

  lemma AllocNew(cfg: Config, s: State, s': State, t: nat, x: nat)
    requires t < |s.threads| && AllocStep(cfg, s, s', t) && |s.recs| <= x < |s'.recs|
    ensures RecordOk(cfg, s', x)
  {
  }

  lemma AllocRecord(cfg: Config, s: State, s': State, t: nat, x: nat)
    requires Structured(cfg, s) && t < |s.threads| && AllocStep(cfg, s, s', t) && x < |s'.recs|
    ensures RecordOk(cfg, s', x)
  {
    hide Structured, ThreadOk, RecordOk, AllocStep;
    if x < |s.recs| {
      ThreadOf(cfg, s, t);
      RecordOf(cfg, s, x);
      AllocWrites(cfg, s, s', t, x);
    } else {
      AllocNew(cfg, s, s', t, x);
    }
  }

  lemma UserWrites(cfg: Config, s: State, s': State, t: nat, x: nat, ev: Event)
    requires t < |s.threads| && HeldOk(s, t) && UserStep(cfg, s, s', t, ev) && x < |s.recs| && RecordOk(cfg, s, x)
    requires !ev.Die?
    ensures |s'.recs| == |s.recs| && RecordOk(cfg, s', x)
  {
    hide Linked, Helped;
  }

  lemma DieWrites(cfg: Config, s: State, s': State, t: nat, x: nat)
    requires t < |s.threads| && HeldOk(s, t) && Dies(s, s', t) && x < |s.recs| && RecordOk(cfg, s, x)
    ensures |s'.recs| == |s.recs| && RecordOk(cfg, s', x)
  {
    hide Linked, Helped;
  }

  lemma UserSize(cfg: Config, s: State, s': State, t: nat, ev: Event)
    requires t < |s.threads| && UserStep(cfg, s, s', t, ev)
    ensures |s'.recs| == |s.recs|
  {
  }

  lemma UserRecord(cfg: Config, s: State, s': State, t: nat, x: nat, ev: Event)
    requires Structured(cfg, s) && t < |s.threads| && UserStep(cfg, s, s', t, ev) && x < |s'.recs|
    ensures RecordOk(cfg, s', x)
  {
    hide Structured, RecordOk, UserActs, Dies, WalkOk, HeldOk;
    UserSize(cfg, s, s', t, ev);
    ThreadOf(cfg, s, t);
    RecordOf(cfg, s, x);
    if ev.Die? {
      DieWrites(cfg, s, s', t, x);
    } else {
      UserWrites(cfg, s, s', t, x, ev);
    }
  }

  lemma ReleaseRecord(cfg: Config, s: State, s': State, t: nat, x: nat)
    requires Structured(cfg, s) && t < |s.threads| && ReleaseStep(s, s', t) && x < |s'.recs|
    ensures RecordOk(cfg, s', x)
  {
    ThreadOf(cfg, s, t);
    if x < |s.recs| {
      RecordOf(cfg, s, x);
    }
    hide Structured, ListOk;
  }

  lemma BeginsRecord(cfg: Config, s: State, s': State, t: nat, x: nat)
    requires t < |s.threads| && ThreadOk(cfg, s, t) && s.threads[t].ScanStart?
    requires Begins(cfg, s, s', t, s.threads[t].r, s.threads[t].back) && x < |s.recs| && RecordOk(cfg, s, x)
    ensures x < |s'.recs| && RecordOk(cfg, s', x)
  {
    hide Even, Sorted, Linked, Visits;
    var r := s.threads[t].r;
    if s'.recs != s.recs && x == r {
      assert |multiset(s'.recs[r].arr)| == |multiset(s.recs[r].arr)|;
    }
  }

  lemma BeginsSize(cfg: Config, s: State, s': State, t: nat)
    requires t < |s.threads| && ReadStep(cfg, s, s', t)
    ensures |s'.recs| == |s.recs|
  {
    hide Even, Sorted;
  }

  lemma ReadWritesNothing(cfg: Config, s: State, s': State, t: nat, x: nat)
    requires t < |s.threads| && ReadStep(cfg, s, s', t) && !s.threads[t].ScanStart? && x < |s.recs|
    ensures s'.recs == s.recs && |s'.threads| == |s.threads|
    ensures Works(s.threads[t], x) ==> Works(s'.threads[t], x)
    ensures forall u :: 0 <= u < |s.threads| && u != t ==> s'.threads[u] == s.threads[u]
  {
    hide Begins;
  }

  lemma ReadRecord(cfg: Config, s: State, s': State, t: nat, x: nat)
    requires Structured(cfg, s) && t < |s.threads| && ReadStep(cfg, s, s', t) && x < |s'.recs|
    ensures RecordOk(cfg, s', x)
  {
    hide Structured, Begins, ThreadOk;
    ThreadOf(cfg, s, t);
    BeginsSize(cfg, s, s', t);
    RecordOf(cfg, s, x);
    if s.threads[t].ScanStart? {
      BeginsRecord(cfg, s, s', t, x);
    } else {
      hide ReadStep;
      ReadWritesNothing(cfg, s, s', t, x);
    }
  }

  lemma SweepRecord(cfg: Config, s: State, s': State, t: nat, x: nat)
    requires Structured(cfg, s) && t < |s.threads| && SweepStep(s, s', t) && x < |s'.recs|
    ensures RecordOk(cfg, s', x)
  {
    ThreadOf(cfg, s, t);
    if x < |s.recs| {
      RecordOf(cfg, s, x);
    }
    hide Structured, ListOk;
  }

  lemma SeekRecord(cfg: Config, s: State, s': State, t: nat, x: nat)
    requires Structured(cfg, s) && t < |s.threads| && SeekStep(s, s', t) && x < |s'.recs|
    ensures RecordOk(cfg, s', x)
  {
    ThreadOf(cfg, s, t);
    if x < |s.recs| {
      RecordOf(cfg, s, x);
    }
    hide Structured, ListOk;
  }

  lemma AdoptWrites(cfg: Config, s: State, s': State, t: nat, x: nat)
    requires t < |s.threads| && ThreadOk(cfg, s, t) && AdoptStep(cfg, s, s', t)
    requires x < |s.recs| && RecordOk(cfg, s, x) && (x == s.threads[t].r || x == s.threads[t].c)
    ensures x < |s'.recs| && RecordOk(cfg, s', x)
  {
  }

  lemma AdoptSize(cfg: Config, s: State, s': State, t: nat)
    requires t < |s.threads| && AdoptStep(cfg, s, s', t)
    ensures |s'.recs| == |s.recs| && (s.threads[t].HelpCopy? || s.threads[t].HelpFree? || s.threads[t].HelpRelease?)
    ensures forall x :: 0 <= x < |s.recs| && x != s.threads[t].r && x != s.threads[t].c ==> s'.recs[x] == s.recs[x]
  {
  }

  lemma AdoptRecord(cfg: Config, s: State, s': State, t: nat, x: nat)
    requires Structured(cfg, s) && t < |s.threads| && AdoptStep(cfg, s, s', t) && x < |s'.recs|
    ensures RecordOk(cfg, s', x)
  {
    hide Structured, RecordOk, AdoptStep, ThreadOk, Touches;
    ThreadOf(cfg, s, t);
    AdoptTouches(cfg, s, s', t);
    AdoptSize(cfg, s, s', t);
    RecordOf(cfg, s, x);
    if x != s.threads[t].c && x != s.threads[t].r {
      assert !Works(s.threads[t], x);
      UntouchedRecord(cfg, s, s', t, x);
    } else {
      AdoptWrites(cfg, s, s', t, x);
    }
  }

  // ----- the list -----

  // Steps that link nothing leave every rank and the head as they were.
  ghost predicate SameRanks(s: State, s': State) {
    && s'.head == s.head
    && |s'.recs| >= |s.recs|
    && (forall x :: 0 <= x < |s.recs| ==> s'.recs[x].rank == s.recs[x].rank && s'.recs[x].next == s.recs[x].next)
    && (forall x :: |s.recs| <= x < |s'.recs| ==> s'.recs[x].rank == 0)
  }

  lemma SameList(s: State, s': State)
    requires ListOk(s) && SameRanks(s, s')
    ensures ListOk(s')
  {
    forall x | 0 <= x < |s'.recs| && s'.recs[x].rank >= 1 ensures NextOk(s', x) {
      assert NextOk(s, x);
    }
  }

  ghost predicate Links(s: State, s': State, t: nat)
    requires t < |s.threads|
  {
    s.threads[t].Linking? && s'.head == Some(s.threads[t].r) && s.threads[t].top == s.head
  }

  lemma LinkList(cfg: Config, s: State, s': State, t: nat)
    requires Structured(cfg, s) && t < |s.threads| && AllocStep(cfg, s, s', t) && Links(s, s', t)
    ensures ListOk(s')
  {
    ThreadOf(cfg, s, t);
    hide Structured, ThreadOk, RecordOk;
    var r, top := s.threads[t].r, s.threads[t].top;
    if s' == s.(threads := s.threads[t := Linking(r, s.head)]) {
      assert false;
    }
    forall x | 0 <= x < |s'.recs| && s'.recs[x].rank >= 1 ensures NextOk(s', x) {
      if x != r {
        assert NextOk(s, x);
      }
    }
  }

  lemma StepList(cfg: Config, s: State, s': State, t: nat, ev: Event)
    requires Structured(cfg, s) && Next(cfg, s, s', t, ev)
    ensures ListOk(s')
  {
    hide ListOk, ThreadOk, RecordOk;
    if AllocStep(cfg, s, s', t) && Links(s, s', t) {
      LinkList(cfg, s, s', t);
    } else {
      StepRanks(cfg, s, s', t, ev);
      SameList(s, s');
    }
  }

  lemma StepRanks(cfg: Config, s: State, s': State, t: nat, ev: Event)
    requires Next(cfg, s, s', t, ev) && !(ev.Go? && AllocStep(cfg, s, s', t) && Links(s, s', t))
    ensures SameRanks(s, s')
  {
    hide SameRanks, UserStep, LeakStep, ReleaseStep, ReadStep, SweepStep, SeekStep, AdoptStep;
    if UserStep(cfg, s, s', t, ev) {
      UserRanks(cfg, s, s', t, ev);
    } else if LeakStep(cfg, s, s', t) {
      LeakRanks(cfg, s, s', t);
    } else if AllocStep(cfg, s, s', t) {
      AllocRanks(cfg, s, s', t);
    } else {
      CollectorRanks(cfg, s, s', t);
    }
  }

  lemma UserRanks(cfg: Config, s: State, s': State, t: nat, ev: Event)
    requires t < |s.threads| && UserStep(cfg, s, s', t, ev)
    ensures SameRanks(s, s')
  {
  }

  lemma LeakRanks(cfg: Config, s: State, s': State, t: nat)
    requires t < |s.threads| && LeakStep(cfg, s, s', t)
    ensures SameRanks(s, s')
  {
  }

  lemma AllocRanks(cfg: Config, s: State, s': State, t: nat)
    requires t < |s.threads| && AllocStep(cfg, s, s', t) && !Links(s, s', t)
    ensures SameRanks(s, s')
  {
  }

  lemma CollectorRanks(cfg: Config, s: State, s': State, t: nat)
    requires t < |s.threads|
    requires ReleaseStep(s, s', t) || ReadStep(cfg, s, s', t) || SweepStep(s, s', t) || SeekStep(s, s', t)
             || AdoptStep(cfg, s, s', t)
    ensures SameRanks(s, s')
  {
    hide Even, Sorted;
  }

  lemma StepStructured(cfg: Config, s: State, s': State, t: nat, ev: Event)
    requires Structured(cfg, s) && Next(cfg, s, s', t, ev)
    ensures Structured(cfg, s')
  {
    hide ListOk, ThreadOk, RecordOk, Next;
    StepTouches(cfg, s, s', t, ev);
    StepList(cfg, s, s', t, ev);
    StepThread(cfg, s, s', t, ev);
    forall u | 0 <= u < |s'.threads| ensures ThreadOk(cfg, s', u) {
      if u != t {
        OthersKeep(cfg, s, s', t, u);
      }
    }
    forall x | 0 <= x < |s'.recs| ensures RecordOk(cfg, s', x) {
      StepRecord(cfg, s, s', t, ev, x);
    }
  }

  lemma LeakThread(cfg: Config, s: State, s': State, t: nat)
    requires t < |s.threads| && LeakStep(cfg, s, s', t)
    ensures t < |s'.threads| && ThreadOk(cfg, s', t)
  {
  }

  lemma LeakRecord(cfg: Config, s: State, s': State, t: nat, x: nat)
    requires Structured(cfg, s) && t < |s.threads| && LeakStep(cfg, s, s', t) && x < |s'.recs|
    ensures RecordOk(cfg, s', x)
  {
    hide Structured, ListOk, WalkOk;
    ThreadOf(cfg, s, t);
    RecordOf(cfg, s, x);
  }

  lemma StepThread(cfg: Config, s: State, s': State, t: nat, ev: Event)
    requires Structured(cfg, s) && Next(cfg, s, s', t, ev)
    ensures t < |s'.threads| && ThreadOk(cfg, s', t)
  {
    hide Structured, ThreadOk, UserStep, LeakStep, AllocStep, ReleaseStep, ReadStep, SweepStep, SeekStep, AdoptStep;
    if UserStep(cfg, s, s', t, ev) {
      UserThread(cfg, s, s', t, ev);
    } else if LeakStep(cfg, s, s', t) {
      LeakThread(cfg, s, s', t);
    } else if AllocStep(cfg, s, s', t) {
      AllocThread(cfg, s, s', t);
    } else if ReleaseStep(s, s', t) {
      ReleaseThread(cfg, s, s', t);
    } else if ReadStep(cfg, s, s', t) {
      ReadThread(cfg, s, s', t);
    } else if SweepStep(s, s', t) {
      SweepThread(cfg, s, s', t);
    } else if SeekStep(s, s', t) {
      SeekThread(cfg, s, s', t);
    } else {
      AdoptThread(cfg, s, s', t);
    }
  }

  lemma StepRecord(cfg: Config, s: State, s': State, t: nat, ev: Event, x: nat)
    requires Structured(cfg, s) && Next(cfg, s, s', t, ev) && x < |s'.recs|
    ensures RecordOk(cfg, s', x)
  {
    hide Structured, RecordOk, UserStep, LeakStep, AllocStep, ReleaseStep, ReadStep, SweepStep, SeekStep, AdoptStep;
    if UserStep(cfg, s, s', t, ev) {
      UserRecord(cfg, s, s', t, x, ev);
    } else if LeakStep(cfg, s, s', t) {
      LeakRecord(cfg, s, s', t, x);
    } else if AllocStep(cfg, s, s', t) {
      AllocRecord(cfg, s, s', t, x);
    } else if ReleaseStep(s, s', t) {
      ReleaseRecord(cfg, s, s', t, x);
    } else if ReadStep(cfg, s, s', t) {
      ReadRecord(cfg, s, s', t, x);
    } else if SweepStep(s, s', t) {
      SweepRecord(cfg, s, s', t, x);
    } else if SeekStep(s, s', t) {
      SeekRecord(cfg, s, s', t, x);
    } else {
      AdoptRecord(cfg, s, s', t, x);
    }
  }

  lemma InitStructured(cfg: Config, s: State)
    requires Init(s)
    ensures Structured(cfg, s)
  {
  }
}
