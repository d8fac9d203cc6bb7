/** A thread inside the collector finishes what it is doing by its own steps: every one of them brings
    it nearer to the end of its call, whatever state the other threads are in. */
module HazardProgress {
  import opened Wrappers
  import opened HazardScan
  import opened HazardProtocol
  import opened HazardStructure
  import opened HazardAccounts
  import opened HazardGuards
  import opened HazardRoom
  import opened HazardSafety

  // ----- how far the thread is from the end of its call, most important part first -----

  function RankAt(s: State, c: nat): nat {
    if c < |s.recs| then s.recs[c].rank else 0
  }

  function LinkRank(s: State, cur: Option<nat>): nat {
    if cur.Some? then RankAt(s, cur.value) else 0
  }

  // The records still ahead in the walk of an attach or of HelpScan.
  function WalkLeft(s: State, pc: Thread): nat {
    if Scanning(pc) then
      match pc.back
      case ToIdle => 0
      case ToHelp => |s.recs| + 1
      case ToCopy(c) => RankAt(s, c)
      case ToNext(c) => RankAt(s, c)
    else if pc.Clearing? then |s.recs| + 2
    else if pc.Probe? || pc.HelpRec? then LinkRank(s, pc.cur)
    else if pc.HelpOwner? || pc.HelpAlive? || pc.HelpCas? || pc.HelpCopy? || pc.HelpFree? || pc.HelpRelease? then
      RankAt(s, pc.c)
    else 0
  }

  // What is still to be done with the record the walk has come to.
  function Stage(pc: Thread): nat {
    if Scanning(pc) then if pc.back.ToCopy? then 5 else if pc.back.ToNext? then 2 else 1
    else if pc.Probe? || pc.HelpRec? then 9
    else if pc.HelpOwner? then 8
    else if pc.HelpAlive? then 7
    else if pc.HelpCas? then 6
    else if pc.HelpCopy? then 5
    else if pc.HelpFree? then 4
    else if pc.HelpRelease? then 3
    else if pc.Release? then 0
    else 1
  }

  // The objects still to be copied.
  function Copies(s: State, pc: Thread): int {
    if Copied(pc).Some? && Copied(pc).value < |s.recs| then
      |s.recs[Copied(pc).value].arr| - s.recs[Copied(pc).value].todo
    else 0
  }

  function ScanStage(pc: Thread): nat {
    if pc.ScanStart? then 3 else if pc.ScanRec? || pc.ScanSlot? then 2 else if pc.Sweep? then 1 else 0
  }

  // The records still to be read, or the entries still to be swept, or the slots to be cleared.
  function ToRead(s: State, pc: Thread): int {
    match pc
    case ScanRec(_, _, _, _, cur) => 2 * LinkRank(s, cur)
    case ScanSlot(_, _, _, _, c, _) => 2 * RankAt(s, c) - 1
    case Sweep(r, _, _) => if r < |s.recs| then |s.recs[r].arr| - s.recs[r].todo else 0
    case Clearing(r, i) => if r < |s.recs| then |s.recs[r].hzp| - i else 0
    case _ => 0
  }

  function SlotsLeft(s: State, pc: Thread): int {
    if pc.ScanSlot? && pc.c < |s.recs| then |s.recs[pc.c].hzp| - pc.i else 0
  }

  predicate Done(pc: Thread) {
    pc.Idle? || pc.Out?
  }

  // The thread is nearer to the end of its call, or there.
  ghost predicate Nearer(s: State, s': State, t: nat) {
    && t < |s.threads| && t < |s'.threads| && !s'.threads[t].Dead?
    && var (p, p') := (s.threads[t], s'.threads[t]);
       || Done(p')
       || WalkLeft(s', p') < WalkLeft(s, p)
       || (WalkLeft(s', p') == WalkLeft(s, p)
           && (|| Stage(p') < Stage(p)
               || (Stage(p') == Stage(p)
                   && (|| 0 <= Copies(s', p') < Copies(s, p)
                       || (Copies(s', p') == Copies(s, p)
                           && (|| ScanStage(p') < ScanStage(p)
                               || (ScanStage(p') == ScanStage(p)
                                   && (|| 0 <= ToRead(s', p') < ToRead(s, p)
                                       || (ToRead(s', p') == ToRead(s, p)
                                           && 0 <= SlotsLeft(s', p') < SlotsLeft(s, p))))))))))
  }

  // ----- every step of its own brings a thread nearer -----

  lemma NextRank(s: State, c: nat)
    requires ListOk(s) && Linked(s, c)
    ensures LinkRank(s, s.recs[c].next) == s.recs[c].rank - 1
  {
    assert NextOk(s, c);
  }

  lemma HeadRank(s: State)
    requires ListOk(s)
    ensures LinkRank(s, s.head) <= |s.recs|
  {
    if s.head.Some? {
      RankBounded(s, s.head.value);
    }
  }

  lemma AllocNearer(cfg: Config, s: State, s': State, t: nat)
    requires t < |s.threads| && AllocStep(cfg, s, s', t) && ThreadOk(cfg, s, t) && ListOk(s)
    requires s.threads[t].Probe? || s.threads[t].Taken?
    ensures Nearer(s, s', t)
  {
    if s.threads[t].Probe? && s.threads[t].cur.Some? {
      NextRank(s, s.threads[t].cur.value);
    }
    hide ListOk;
  }

  lemma ReleaseNearer(s: State, s': State, t: nat)
    requires t < |s.threads| && ReleaseStep(s, s', t)
    ensures Nearer(s, s', t)
  {
  }

  lemma StartNearer(cfg: Config, s: State, s': State, t: nat)
    requires t < |s.threads| && ReadStep(cfg, s, s', t) && HeldOk(s, t) && s.threads[t].ScanStart?
    ensures Nearer(s, s', t)
  {
    hide Even, Sorted;
  }

  lemma RecNearer(cfg: Config, s: State, s': State, t: nat)
    requires t < |s.threads| && ReadStep(cfg, s, s', t) && s.threads[t].ScanRec?
    requires s.threads[t].cur.Some? ==> Linked(s, s.threads[t].cur.value)
    requires s.threads[t].cur.Some? ==>
               var c := s.threads[t].cur.value; LinkRank(s, s.recs[c].next) == s.recs[c].rank - 1
    ensures Nearer(s, s', t)
  {
  }

  lemma SlotNearer(cfg: Config, s: State, s': State, t: nat)
    requires t < |s.threads| && ReadStep(cfg, s, s', t) && s.threads[t].ScanSlot? && Linked(s, s.threads[t].c)
    requires var c := s.threads[t].c; LinkRank(s, s.recs[c].next) == s.recs[c].rank - 1
    ensures Nearer(s, s', t)
  {
  }

  lemma ReadNearer(cfg: Config, s: State, s': State, t: nat)
    requires t < |s.threads| && ReadStep(cfg, s, s', t) && ThreadOk(cfg, s, t) && ListOk(s)
    ensures Nearer(s, s', t)
  {
    var pc := s.threads[t];
    ReadScans(cfg, s, s', t);
    hide ReadStep, Nearer, ListOk, HeldOk, LinkRank;
    if pc.ScanStart? {
      StartNearer(cfg, s, s', t);
    } else if pc.ScanRec? {
      if pc.cur.Some? {
        NextRank(s, pc.cur.value);
      }
      RecNearer(cfg, s, s', t);
    } else {
      NextRank(s, pc.c);
      SlotNearer(cfg, s, s', t);
    }
  }

  lemma ReadScans(cfg: Config, s: State, s': State, t: nat)
    requires t < |s.threads| && ReadStep(cfg, s, s', t)
    ensures s.threads[t].ScanStart? || s.threads[t].ScanRec? || s.threads[t].ScanSlot?
  {
  }

  lemma SweepOnNearer(s: State, s': State, t: nat)
    requires t < |s.threads| && SweepStep(s, s', t) && HeldOk(s, t)
    requires s.recs[s.threads[t].r].todo < |s.recs[s.threads[t].r].arr|
    ensures Nearer(s, s', t)
  {
    hide Linked;
  }

  lemma SweepEndNearer(s: State, s': State, t: nat)
    requires t < |s.threads| && SweepStep(s, s', t) && HeldOk(s, t) && LinkRank(s, s.head) <= |s.recs|
    requires s.recs[s.threads[t].r].todo >= |s.recs[s.threads[t].r].arr|
    requires var back := s.threads[t].back;
             back.ToNext? ==> Linked(s, back.src) && LinkRank(s, s.recs[back.src].next) == s.recs[back.src].rank - 1
    ensures Nearer(s, s', t)
  {
  }

  lemma SweepNearer(cfg: Config, s: State, s': State, t: nat)
    requires t < |s.threads| && SweepStep(s, s', t) && ThreadOk(cfg, s, t) && ListOk(s)
    ensures Nearer(s, s', t)
  {
    var pc := s.threads[t];
    hide ListOk, HeldOk, Nearer, LinkRank;
    if s.recs[pc.r].todo < |s.recs[pc.r].arr| {
      SweepOnNearer(s, s', t);
    } else {
      HeadRank(s);
      if pc.back.ToNext? {
        NextRank(s, pc.back.src);
      }
      SweepEndNearer(s, s', t);
    }
  }

  lemma SeekNearer(cfg: Config, s: State, s': State, t: nat)
    requires t < |s.threads| && SeekStep(s, s', t) && ThreadOk(cfg, s, t) && ListOk(s)
    ensures Nearer(s, s', t)
  {
    var pc := s.threads[t];
    if pc.HelpRec? && pc.cur.Some? {
      NextRank(s, pc.cur.value);
    } else if pc.HelpCas? {
      NextRank(s, pc.c);
    }
    hide ListOk;
  }

  lemma AdoptNearer(cfg: Config, s: State, s': State, t: nat)
    requires t < |s.threads| && AdoptStep(cfg, s, s', t) && ThreadOk(cfg, s, t)
    ensures Nearer(s, s', t)
  {
  }

  // Inside the collector every step of a thread's own brings it nearer to the end of its call; only
  // linking a new record may be tried in vain, when the list has changed or for no reason at all.
  lemma StepNearer(cfg: Config, s: State, s': State, t: nat)
    requires Inv(cfg, s) && Next(cfg, s, s', t, Go) && !s.threads[t].Linking? && !s.threads[t].Out?
    ensures Nearer(s, s', t)
  {
    ListOf(cfg, s);
    ThreadOf(cfg, s, t);
    AllocMoves(cfg, s, s', t);
    hide Inv, Structured, ListOk, ThreadOk, Nearer, AllocStep, ReleaseStep, ReadStep, SweepStep, SeekStep, AdoptStep;
    if AllocStep(cfg, s, s', t) {
      AllocNearer(cfg, s, s', t);
    } else if ReleaseStep(s, s', t) {
      ReleaseNearer(s, s', t);
    } else if ReadStep(cfg, s, s', t) {
      ReadNearer(cfg, s, s', t);
    } else if SweepStep(s, s', t) {
      SweepNearer(cfg, s, s', t);
    } else if SeekStep(s, s', t) {
      SeekNearer(cfg, s, s', t);
    } else {
      AdoptNearer(cfg, s, s', t);
    }
  }

  lemma ListOf(cfg: Config, s: State)
    requires Inv(cfg, s)
    ensures Structured(cfg, s) && ListOk(s)
  {
    hide ListOk, ThreadOk, RecordOk, Accounts, Guards;
  }

  lemma AllocMoves(cfg: Config, s: State, s': State, t: nat)
    requires t < |s.threads| && !s.threads[t].Linking? && !s.threads[t].Out?
    ensures AllocStep(cfg, s, s', t) ==> s.threads[t].Probe? || s.threads[t].Taken?
  {
  }

  // ----- to the end of the call -----

  ghost predicate OwnSteps(cfg: Config, s: State, s': State, t: nat, n: nat)
    decreases n
  {
    if n == 0 then s' == s else exists m :: Next(cfg, s, m, t, Go) && OwnSteps(cfg, m, s', t, n - 1)
  }

  lemma OneOwn(cfg: Config, s: State, m: State, s': State, t: nat, n: nat)
    requires Next(cfg, s, m, t, Go) && OwnSteps(cfg, m, s', t, n)
    ensures OwnSteps(cfg, s, s', t, n + 1)
  {
    hide Next;
  }

  lemma NoneOwn(cfg: Config, s: State, t: nat)
    ensures OwnSteps(cfg, s, s, t, 0)
  {
  }

  lemma Links(cfg: Config, s: State, t: nat) returns (s': State, n: nat)
    requires Inv(cfg, s) && t < |s.threads| && s.threads[t].Linking?
    ensures OwnSteps(cfg, s, s', t, n) && t < |s'.threads| && Done(s'.threads[t])
  {
    ListOf(cfg, s);
    ThreadOf(cfg, s, t);
    var r := s.threads[t].r;
    assert r < |s.recs| && (s.head.Some? ==> s.head.value < |s.recs|);
    hide Inv, Structured, ListOk, ThreadOk, OwnSteps;
    var s1 := s.(threads := s.threads[t := Linking(r, s.head)]);
    assert s.threads[t].top.Some? ==> s.threads[t].top.value < |s.recs| by { TopOf(cfg, s, t); }
    assert AllocStep(cfg, s, s1, t);
    s' := s1.(threads := s1.threads[t := Idle(r)], head := Some(r),
              recs := s1.recs[r := s1.recs[r].(next := s.head, rank := RankOf(s1, s.head) + 1)]);
    assert AllocStep(cfg, s1, s', t);
    NoneOwn(cfg, s', t);
    OneOwn(cfg, s1, s', s', t, 0);
    OneOwn(cfg, s, s1, s', t, 1);
    n := 2;
  }

  lemma TopOf(cfg: Config, s: State, t: nat)
    requires Inv(cfg, s) && t < |s.threads| && s.threads[t].Linking?
    ensures s.threads[t].top.Some? ==> s.threads[t].top.value < |s.recs|
  {
    ListOf(cfg, s);
    ThreadOf(cfg, s, t);
  }

  lemma {:induction false} Finishes(cfg: Config, s: State, t: nat) returns (s': State, n: nat)
    requires Inv(cfg, s) && t < |s.threads| && !s.threads[t].Dead?
    ensures OwnSteps(cfg, s, s', t, n) && t < |s'.threads| && Done(s'.threads[t])
    decreases WalkLeft(s, s.threads[t]), Stage(s.threads[t]), Copies(s, s.threads[t]), ScanStage(s.threads[t]),
              ToRead(s, s.threads[t]), SlotsLeft(s, s.threads[t])
  {
    hide Inv, Next, OwnSteps;
    if Done(s.threads[t]) {
      NoneOwn(cfg, s, t);
      s', n := s, 0;
    } else if s.threads[t].Linking? {
      s', n := Links(cfg, s, t);
    } else {
      var s1 := NeverStuck(cfg, s, t);
      StepInv(cfg, s, s1, t, Go);
      StepNearer(cfg, s, s1, t);
      if Done(s1.threads[t]) {
        NoneOwn(cfg, s1, t);
        s', n := s1, 0;
      } else {
        s', n := Finishes(cfg, s1, t);
      }
      OneOwn(cfg, s, s1, s', t, n);
      n := n + 1;
    }
  }

  /** No call of the collector can be held up by what other threads have done, or left undone: from
      every state that can be reached, its own steps alone lead a thread to the end of its call, to be
      attached and outside the collector, or detached. */
  lemma FinishesAlone(cfg: Config, run: Run, k: nat, t: nat) returns (s': State, n: nat)
    requires IsRun(cfg, run) && k < |run.states| && t < |run.states[k].threads| && !run.states[k].threads[t].Dead?
    ensures OwnSteps(cfg, run.states[k], s', t, n) && t < |s'.threads| && Done(s'.threads[t])
  {
    RunInv(cfg, run, k);
    hide IsRun, Inv, OwnSteps;
    s', n := Finishes(cfg, run.states[k], t);
  }
}
