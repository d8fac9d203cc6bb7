/** What the walks down the record list reach: an attaching thread tries every record before it
    makes one, a releasing thread passes over no abandoned record, and a scan keeps only what
    somebody held while it ran. */
module HazardWalks {
  import opened Wrappers
  import opened HazardScan
  import opened HazardProtocol
  import opened HazardStructure
  import opened HazardAccounts
  import opened HazardGuards
  import opened HazardRoom
  import opened HazardOwners

  // Record x is above cur in the list, so that a walk that has come to cur has passed it.
  predicate Passed(s: State, cur: Option<nat>, x: nat) {
    x < |s.recs| && (cur.Some? ==> cur.value < |s.recs|) && s.recs[x].rank > RankOf(s, cur)
  }

  // A linked record stays where it is in the list.
  lemma {:induction false} LinkedStays(cfg: Config, run: Run, j: nat, k: nat, x: nat)
    requires IsRun(cfg, run) && j <= k < |run.states| && Linked(run.states[j], x)
    ensures Linked(run.states[k], x) && run.states[k].recs[x].rank == run.states[j].recs[x].rank
    ensures run.states[k].recs[x].next == run.states[j].recs[x].next
    decreases k - j
  {
    hide Next, Init, Accounts, Guards;
    if j < k {
      LinkedStays(cfg, run, j, k - 1, x);
      RunInv(cfg, run, k - 1);
      StepTouches(cfg, run.states[k-1], run.states[k], run.who[k-1], run.events[k-1]);
    }
  }

  // A step of another thread.
  lemma OtherSteps(cfg: Config, s: State, s': State, t: nat, v: nat, ev: Event)
    requires Structured(cfg, s) && Next(cfg, s, s', v, ev) && t < |s.threads| && t != v
    ensures Touches(s, s', v) && t < |s'.threads| && s'.threads[t] == s.threads[t] && v < |s.threads|
    ensures forall x: nat :: Linked(s, x) ==> Linked(s', x) && s'.recs[x].rank == s.recs[x].rank
  {
    hide Structured, Next;
    StepTouches(cfg, s, s', v, ev);
  }

  lemma PassedSame(s: State, s': State, cur: Option<nat>, x: nat)
    requires Linked(s, x) && (cur.Some? ==> Linked(s, cur.value))
    requires forall y: nat :: Linked(s, y) ==> Linked(s', y) && s'.recs[y].rank == s.recs[y].rank
    ensures Passed(s', cur, x) <==> Passed(s, cur, x)
  {
  }

  // The record after c is one lower, and no other record is between them.
  lemma PassedNext(s: State, c: nat, x: nat)
    requires ListOk(s) && Linked(s, c) && Linked(s, x) && Passed(s, s.recs[c].next, x)
    ensures x == c || Passed(s, Some(c), x)
  {
    assert NextOk(s, c);
  }

  lemma HeadPassesNone(s: State, x: nat)
    requires ListOk(s) && Linked(s, x)
    ensures !Passed(s, s.head, x)
  {
  }

  // ----- attaching -----

  predicate Attaching(pc: Thread) {
    pc.Out? || pc.Probe?
  }

  predicate HasOwner(s: State, x: nat) {
    x < |s.recs| && s.recs[x].owner.Some?
  }

  ghost predicate HadOwner(run: Run, x: nat, j: nat, k: nat) {
    exists i :: j <= i <= k && i < |run.states| && HasOwner(run.states[i], x)
  }

  lemma ProbeStep(cfg: Config, s: State, s': State, t: nat, ev: Event, x: nat)
    requires Structured(cfg, s) && Next(cfg, s, s', t, ev) && Attaching(s.threads[t]) && Linked(s, x)
    requires t < |s'.threads| && s'.threads[t].Probe? && Passed(s', s'.threads[t].cur, x)
    ensures HasOwner(s, x) || (s.threads[t].Probe? && Passed(s, s.threads[t].cur, x))
  {
    assert ListOk(s);
    ThreadOf(cfg, s, t);
    var pc := s.threads[t];
    OnlyMoves(cfg, s, s', t, ev);
    hide Next, Structured, ListOk;
    if pc.Out? {
      HeadPassesNone(s, x);
    } else {
      PassedNext(s, pc.cur.value, x);
    }
  }

  lemma OnlyMoves(cfg: Config, s: State, s': State, t: nat, ev: Event)
    requires Next(cfg, s, s', t, ev) && Attaching(s.threads[t]) && t < |s'.threads| && s'.threads[t].Probe?
    ensures s'.recs == s.recs && s'.head == s.head
    ensures s.threads[t].Out? ==> s'.threads[t].cur == s.head
    ensures var pc := s.threads[t];
            pc.Probe? ==> pc.cur.Some? && HasOwner(s, pc.cur.value) && s'.threads[t].cur == s.recs[pc.cur.value].next
  {
  }

  // A walk of thread t that has passed a record which was linked when t was still out has seen an
  // owner in it.
  lemma {:induction false} WalkTries(cfg: Config, run: Run, j: nat, k: nat, t: nat, x: nat)
    requires IsRun(cfg, run) && j <= k < |run.states| && Linked(run.states[j], x)
    requires forall i :: j <= i <= k ==> t < |run.states[i].threads| && Attaching(run.states[i].threads[t])
    requires run.states[j].threads[t].Out?
    requires run.states[k].threads[t].Probe? && Passed(run.states[k], run.states[k].threads[t].cur, x)
    ensures HadOwner(run, x, j, k)
    decreases k
  {
    hide Next, Init, Accounts, Guards, Passed, Linked, Structured, HasOwner;
    var s, s' := run.states[k-1], run.states[k];
    RunInv(cfg, run, k - 1);
    LinkedStays(cfg, run, j, k - 1, x);
    assert Attaching(s.threads[t]);
    if run.who[k-1] != t {
      OtherSteps(cfg, s, s', t, run.who[k-1], run.events[k-1]);
      ThreadOf(cfg, s, t);
      PassedSame(s, s', s.threads[t].cur, x);
    } else {
      ProbeStep(cfg, s, s', t, run.events[k-1], x);
    }
    if !HasOwner(s, x) {
      WalkTries(cfg, run, j, k - 1, t, x);
    }
  }

  /** A new record is made only when every old one has been seen in use: if thread t comes to the
      end of the list, each record that was linked when t set out had an owner at some time since. */
  lemma NewRecordOnlyIfAllInUse(cfg: Config, run: Run, j: nat, k: nat, t: nat, x: nat)
    requires IsRun(cfg, run) && j <= k < |run.states| && Linked(run.states[j], x)
    requires forall i :: j <= i <= k ==> t < |run.states[i].threads| && Attaching(run.states[i].threads[t])
    requires run.states[j].threads[t] == Out && run.states[k].threads[t] == Probe(None)
    ensures HadOwner(run, x, j, k)
  {
    LinkedStays(cfg, run, j, k, x);
    hide Next, Init, HadOwner;
    WalkTries(cfg, run, j, k, t, x);
  }

  // While t attaches alone, record x stays vacant and ahead, until t takes one.
  ghost predicate Reuses(s: State, t: nat, x: nat, n: nat) {
    && t < |s.threads| && |s.recs| == n
    && match s.threads[t]
       case Out => Linked(s, x) && s.recs[x].owner == None
       case Probe(cur) => Linked(s, x) && s.recs[x].owner == None && cur.Some? && !Passed(s, cur, x)
       case Taken(_) => true
       case Idle(_) => true
       case Dead => true
       case _ => false
  }

  lemma ReusesStep(cfg: Config, s: State, s': State, t: nat, ev: Event, x: nat)
    requires Structured(cfg, s) && Next(cfg, s, s', t, ev) && Reuses(s, t, x, |s.recs|)
    requires Attaching(s.threads[t]) || s.threads[t].Taken?
    ensures Reuses(s', t, x, |s.recs|)
  {
    ThreadOf(cfg, s, t);
    assert ListOk(s);
    hide Structured;
    match s.threads[t]
    case Probe(cur) => assert NextOk(s, cur.value);
    case _ =>
  }

  // A thread that attaches while nobody else moves makes no record if some linked record is vacant.
  lemma {:induction false} AttachReuses(cfg: Config, run: Run, j: nat, k: nat, t: nat, x: nat)
    requires IsRun(cfg, run) && j <= k < |run.states| && t < |run.states[j].threads|
    requires run.states[j].threads[t] == Out && Linked(run.states[j], x) && run.states[j].recs[x].owner == None
    requires forall i :: j <= i < k ==>
               && run.who[i] == t && t < |run.states[i].threads|
               && (Attaching(run.states[i].threads[t]) || run.states[i].threads[t].Taken?)
    ensures |run.states[k].recs| == |run.states[j].recs| && Reuses(run.states[k], t, x, |run.states[j].recs|)
    decreases k
  {
    hide Next, Init, Accounts, Guards, Structured, Passed;
    if j < k {
      AttachReuses(cfg, run, j, k - 1, t, x);
      RunInv(cfg, run, k - 1);
      ReusesStep(cfg, run.states[k-1], run.states[k], t, run.events[k-1], x);
    }
  }

  // ----- releasing: the walk of HelpScan -----

  // Record x is nothing to be adopted by thread t: it is marked free, or a live thread owns it that
  // is another one or has not adopted it.
  ghost predicate NoOrphan(s: State, t: nat, x: nat) {
    && x < |s.recs| && t < |s.threads|
    && (s.recs[x].free
        || (s.recs[x].owner.Some? && s.recs[x].owner.value < |s.threads| && !s.threads[s.recs[x].owner.value].Dead?
            && (s.recs[x].owner == Some(t) ==> Helped(s.threads[t]) != Some(x))))
  }

  ghost predicate WasNoOrphan(run: Run, t: nat, x: nat, j: nat, k: nat) {
    exists i :: j <= i <= k && i < |run.states| && NoOrphan(run.states[i], t, x)
  }

  ghost predicate WasUsed(run: Run, x: nat, j: nat, k: nat) {
    exists i :: j <= i <= k && i < |run.states| && InUse(run.states[i], x)
  }

  predicate InUse(s: State, x: nat) {
    x < |s.recs| && !s.recs[x].free
  }

  // The record a releasing thread deals with in its walk, before it has emptied it.
  function DealsWith(pc: Thread): Option<nat> {
    if pc.HelpOwner? || pc.HelpAlive? || pc.HelpCas? || pc.HelpCopy? || pc.HelpFree? then Some(pc.c)
    else if Scanning(pc) && pc.back.ToCopy? then Some(pc.back.src)
    else None
  }

  // The walk of the releasing thread is done with record x.
  ghost predicate Behind(s: State, pc: Thread, x: nat) {
    if DealsWith(pc).Some? then Passed(s, DealsWith(pc), x)
    else if pc.HelpRec? then Passed(s, pc.cur, x)
    else if pc.HelpRelease? then x == pc.c || Passed(s, Some(pc.c), x)
    else if Scanning(pc) && pc.back.ToNext? then x == pc.back.src || Passed(s, Some(pc.back.src), x)
    else pc.Release?
  }

  // The thread has read an owner that allows it to adopt x, and nothing has changed since.
  ghost predicate Adoptable(s: State, pc: Thread, x: nat) {
    && x < |s.recs| && (s.recs[x].owner == None || IsDead(s, s.recs[x].owner))
    && ((pc.HelpAlive? && pc.c == x && s.recs[x].owner == pc.read)
        || (pc.HelpCas? && pc.c == x && s.recs[x].owner == pc.expected))
  }

  predicate Decides(pc: Thread, x: nat) {
    (pc.HelpAlive? || pc.HelpCas?) && pc.c == x
  }

  // What a step of the releasing thread itself adds to the records it is done with.
  ghost predicate HelpGoesOn(s: State, s': State, t: nat, x: nat) {
    && t < |s.threads| && t < |s'.threads|
    && var (pc, pc') := (s.threads[t], s'.threads[t]);
       && (Behind(s', pc', x) ==>
             || Behind(s, pc, x) || NoOrphan(s, t, x) || NoOrphan(s', t, x)
             || (Decides(pc, x) && !Adoptable(s, pc, x)))
       && (Decides(pc', x) ==>
             Adoptable(s', pc', x) || NoOrphan(s, t, x) || (Decides(pc, x) && !Adoptable(s, pc, x)))
       && (DealsWith(pc') == Some(x) ==> DealsWith(pc) == Some(x) || InUse(s, x))
  }

  lemma ReleaseGoesOn(cfg: Config, s: State, s': State, t: nat, x: nat)
    requires t < |s.threads| && ReleaseStep(s, s', t) && Linked(s, x) && Releasing(s.threads[t])
    requires t < |s'.threads| && Releasing(s'.threads[t])
    ensures HelpGoesOn(s, s', t, x)
  {
  }

  lemma ReadGoesOn(cfg: Config, s: State, s': State, t: nat, x: nat)
    requires t < |s.threads| && ReadStep(cfg, s, s', t) && Linked(s, x) && ThreadOk(cfg, s, t)
    ensures HelpGoesOn(s, s', t, x)
  {
    hide Even, Sorted;
  }

  lemma PassedRanks(s: State, s': State, cur: Option<nat>, x: nat)
    requires |s'.recs| == |s.recs| && forall y :: 0 <= y < |s.recs| ==> s'.recs[y].rank == s.recs[y].rank
    ensures Passed(s', cur, x) <==> Passed(s, cur, x)
  {
  }

  lemma SweepGoesOn(cfg: Config, s: State, s': State, t: nat, x: nat)
    requires t < |s.threads| && SweepStep(s, s', t) && Linked(s, x) && ThreadOk(cfg, s, t) && ListOk(s)
    ensures HelpGoesOn(s, s', t, x)
  {
    hide SweepStep, HelpGoesOn, ListOk, HeldOk;
    SweepMoves(s, s', t);
    if s'.threads[t] == s.threads[t] {
      SameGoesOn(s, s', t, x);
    } else {
      AfterGoesOn(s, s', t, x);
    }
  }

  lemma SameGoesOn(s: State, s': State, t: nat, x: nat)
    requires t < |s.threads| && t < |s'.threads| && s.threads[t].Sweep? && s'.threads[t] == s.threads[t]
    requires |s'.recs| == |s.recs| && forall y :: 0 <= y < |s.recs| ==> s'.recs[y].rank == s.recs[y].rank
    ensures HelpGoesOn(s, s', t, x)
  {
    hide NoOrphan, Adoptable;
  }

  lemma AfterGoesOn(s: State, s': State, t: nat, x: nat)
    requires t < |s.threads| && t < |s'.threads| && s.threads[t].Sweep? && Linked(s, x) && ListOk(s)
    requires var back := s.threads[t].back;
             && (back.ToNext? ==> Linked(s, back.src))
             && s'.threads[t] == After(s, s.threads[t].r, back)
    requires |s'.recs| == |s.recs| && forall y :: 0 <= y < |s.recs| ==> s'.recs[y].rank == s.recs[y].rank
    ensures HelpGoesOn(s, s', t, x)
  {
    hide Passed, NoOrphan, Adoptable, ListOk;
    match s.threads[t].back
    case ToIdle =>
    case ToHelp =>
      HeadPassesNone(s, x);
      PassedRanks(s, s', s.head, x);
    case ToCopy(c) =>
      PassedRanks(s, s', Some(c), x);
    case ToNext(c) =>
      PassedRanks(s, s', s.recs[c].next, x);
      if Passed(s, s.recs[c].next, x) {
        PassedNext(s, c, x);
      }
  }

  lemma SweepMoves(s: State, s': State, t: nat)
    requires t < |s.threads| && SweepStep(s, s', t)
    ensures |s'.recs| == |s.recs| && t < |s'.threads| && s'.head == s.head && s.threads[t].Sweep?
    ensures forall y :: 0 <= y < |s.recs| ==> s'.recs[y].rank == s.recs[y].rank
    ensures var (pc, pc') := (s.threads[t], s'.threads[t]);
            && (pc.back.ToNext? ==> pc' == pc || pc.back.src < |s.recs|)
            && (pc' == pc || pc' == After(s, pc.r, pc.back))
  {
  }

  lemma RecGoesOn(s: State, s': State, t: nat, x: nat)
    requires t < |s.threads| && SeekStep(s, s', t) && Linked(s, x) && WalkLinked(s, t) && ListOk(s)
    requires s.threads[t].HelpRec?
    ensures HelpGoesOn(s, s', t, x)
  {
    var cur := s.threads[t].cur;
    if cur.Some? && Passed(s, s.recs[cur.value].next, x) {
      PassedNext(s, cur.value, x);
    }
    hide ListOk, Passed, Adoptable;
  }

  lemma OwnerGoesOn(s: State, s': State, t: nat, x: nat)
    requires t < |s.threads| && SeekStep(s, s', t) && Linked(s, x) && s.threads[t].HelpOwner?
    requires x < |s.recs| && OwnerOk(s, x)
    ensures HelpGoesOn(s, s', t, x)
  {
  }

  lemma AliveGoesOn(s: State, s': State, t: nat, x: nat)
    requires t < |s.threads| && SeekStep(s, s', t) && Linked(s, x) && s.threads[t].HelpAlive?
    ensures HelpGoesOn(s, s', t, x)
  {
    hide NoOrphan;
  }

  lemma CasGoesOn(s: State, s': State, t: nat, x: nat)
    requires t < |s.threads| && SeekStep(s, s', t) && Linked(s, x) && WalkLinked(s, t) && ListOk(s)
    requires s.threads[t].HelpCas?
    ensures HelpGoesOn(s, s', t, x)
  {
    var c := s.threads[t].c;
    if Passed(s, s.recs[c].next, x) {
      PassedNext(s, c, x);
    }
    CasMoves(s, s', t);
    hide ListOk, NoOrphan, SeekStep;
  }

  lemma CasMoves(s: State, s': State, t: nat)
    requires t < |s.threads| && SeekStep(s, s', t) && s.threads[t].HelpCas?
    ensures |s'.recs| == |s.recs| && t < |s'.threads|
    ensures forall y :: 0 <= y < |s.recs| ==> s'.recs[y].rank == s.recs[y].rank
    ensures var (r, c) := (s.threads[t].r, s.threads[t].c);
            && c < |s.recs|
            && s'.threads[t] == if s.recs[c].owner == s.threads[t].expected then HelpCopy(r, c)
                                else HelpRec(r, s.recs[c].next)
  {
  }

  // The record the thread is about to look at is in the list.
  ghost predicate WalkLinked(s: State, t: nat) {
    t < |s.threads| && (Visits(s.threads[t]).Some? ==> Linked(s, Visits(s.threads[t]).value))
  }

  lemma SeekGoesOn(cfg: Config, s: State, s': State, t: nat, x: nat)
    requires t < |s.threads| && SeekStep(s, s', t) && Linked(s, x) && ThreadOk(cfg, s, t) && ListOk(s)
    requires forall y :: 0 <= y < |s.recs| ==> OwnerOk(s, y)
    ensures HelpGoesOn(s, s', t, x)
  {
    hide HelpGoesOn, ListOk, OwnerOk, HeldOk;
    assert x < |s.recs|;
    match s.threads[t]
    case HelpRec(_, _) => RecGoesOn(s, s', t, x);
    case HelpOwner(_, _) => OwnerGoesOn(s, s', t, x);
    case HelpAlive(_, _, _) => AliveGoesOn(s, s', t, x);
    case HelpCas(_, _, _) => CasGoesOn(s, s', t, x);
  }

  lemma AdoptGoesOn(cfg: Config, s: State, s': State, t: nat, x: nat)
    requires t < |s.threads| && AdoptStep(cfg, s, s', t) && Linked(s, x) && ThreadOk(cfg, s, t)
    ensures HelpGoesOn(s, s', t, x)
  {
  }

  // The releasing thread's own steps, of whatever kind.
  lemma StepGoesOn(cfg: Config, s: State, s': State, t: nat, ev: Event, x: nat)
    requires Structured(cfg, s) && Owners(cfg, s) && Next(cfg, s, s', t, ev) && Linked(s, x)
    requires Releasing(s.threads[t]) && t < |s'.threads| && Releasing(s'.threads[t])
    ensures HelpGoesOn(s, s', t, x)
  {
    assert ListOk(s) && forall y :: 0 <= y < |s.recs| ==> OwnerOk(s, y);
    ThreadOf(cfg, s, t);
    NotAttaching(cfg, s, s', t, ev);
    hide Structured, Owners, ListOk, OwnerOk, ThreadOk, Releasing, HelpGoesOn, Linked, UserStep, LeakStep, AllocStep,
         ReleaseStep, ReadStep, SweepStep, SeekStep, AdoptStep;
    if ReleaseStep(s, s', t) {
      ReleaseGoesOn(cfg, s, s', t, x);
    } else if ReadStep(cfg, s, s', t) {
      ReadGoesOn(cfg, s, s', t, x);
    } else if SweepStep(s, s', t) {
      SweepGoesOn(cfg, s, s', t, x);
    } else if SeekStep(s, s', t) {
      SeekGoesOn(cfg, s, s', t, x);
    } else {
      AdoptGoesOn(cfg, s, s', t, x);
    }
  }

  lemma NotAttaching(cfg: Config, s: State, s': State, t: nat, ev: Event)
    requires Next(cfg, s, s', t, ev) && Releasing(s.threads[t]) && t < |s'.threads| && Releasing(s'.threads[t])
    ensures !UserStep(cfg, s, s', t, ev) && !LeakStep(cfg, s, s', t) && !AllocStep(cfg, s, s', t)
  {
    hide ReleaseStep, ReadStep, SweepStep, SeekStep, AdoptStep;
  }

  // Another thread that changes the owner of an adoptable record enters itself.
  lemma OtherAdopts(cfg: Config, s: State, s': State, t: nat, v: nat, ev: Event, x: nat)
    requires Structured(cfg, s) && Owners(cfg, s) && Next(cfg, s, s', v, ev) && t < |s.threads| && t != v
    requires Adoptable(s, s.threads[t], x)
    ensures t < |s'.threads| && (Adoptable(s', s.threads[t], x) || NoOrphan(s', t, x))
  {
    OtherSteps(cfg, s, s', t, v, ev);
    OwnerStays(cfg, s, s', v, ev, x);
    assert OwnerOk(s, x);
    StepOwner(cfg, s, s', v, ev, x);
    hide Next, Structured, Owners, Linked;
  }

  // Nobody but a thread itself takes its name out of a record, and a dead one is not revived.
  lemma OwnerStays(cfg: Config, s: State, s': State, v: nat, ev: Event, x: nat)
    requires Structured(cfg, s) && Next(cfg, s, s', v, ev) && x < |s.recs|
    ensures |s'.threads| == |s.threads| && v < |s.threads| && x < |s'.recs|
    ensures forall u :: 0 <= u < |s.threads| && u != v ==> s'.threads[u] == s.threads[u]
    ensures s'.recs[x].owner == None ==> s.recs[x].owner == None || s.recs[x].owner == Some(v)
    ensures s'.recs[x].owner == Some(v) && s.recs[x].owner != Some(v) ==> !s'.threads[v].Dead?
    ensures !s.threads[v].Dead?
  {
    StepTouches(cfg, s, s', v, ev);
    ThreadOf(cfg, s, v);
    hide Structured, Next, ThreadOk;
    if s'.recs[x].owner != s.recs[x].owner {
      NamesItself(cfg, s, s', v, ev, x);
    }
  }

  lemma OwnersSame(cfg: Config, s: State, s': State, v: nat, ev: Event, x: nat)
    requires v < |s.threads| && x < |s.recs| && x < |s'.recs|
    requires UserStep(cfg, s, s', v, ev) || LeakStep(cfg, s, s', v) || ReadStep(cfg, s, s', v) || SweepStep(s, s', v)
    ensures s'.recs[x].owner == s.recs[x].owner
  {
    hide Even, Sorted;
  }

  lemma NamesItself(cfg: Config, s: State, s': State, v: nat, ev: Event, x: nat)
    requires Next(cfg, s, s', v, ev) && ThreadOk(cfg, s, v) && x < |s.recs| && x < |s'.recs|
    requires s'.recs[x].owner != s.recs[x].owner
    ensures s'.recs[x].owner == None ==> s.recs[x].owner == Some(v)
    ensures s'.recs[x].owner == Some(v) ==> v < |s'.threads| && !s'.threads[v].Dead?
  {
    hide UserStep, LeakStep, ReadStep, SweepStep, Linked, Visits;
    if UserStep(cfg, s, s', v, ev) || LeakStep(cfg, s, s', v) || ReadStep(cfg, s, s', v) || SweepStep(s, s', v) {
      OwnersSame(cfg, s, s', v, ev, x);
      assert false;
    }
  }

  lemma OtherBehind(cfg: Config, s: State, s': State, t: nat, x: nat)
    requires t < |s.threads| && ThreadOk(cfg, s, t) && Linked(s, x) && Releasing(s.threads[t])
    requires forall y: nat :: Linked(s, y) ==> Linked(s', y) && s'.recs[y].rank == s.recs[y].rank
    requires Behind(s', s.threads[t], x)
    ensures Behind(s, s.threads[t], x)
  {
    var pc := s.threads[t];
    hide Passed;
    if DealsWith(pc).Some? {
      PassedSame(s, s', DealsWith(pc), x);
    } else if pc.HelpRec? {
      PassedSame(s, s', pc.cur, x);
    } else if pc.HelpRelease? {
      PassedSame(s, s', Some(pc.c), x);
    } else if Scanning(pc) && pc.back.ToNext? {
      PassedSame(s, s', Some(pc.back.src), x);
    }
  }

  // Thread t calls for the release of its record in state j and has not finished it in state k.
  ghost predicate ReleasesFrom(run: Run, j: nat, k: nat, t: nat) {
    && j < k < |run.states| && j < |run.who| && j < |run.events|
    && t < |run.states[j].threads| && run.states[j].threads[t].Idle? && run.who[j] == t && run.events[j] == Detach
    && forall i :: j < i <= k ==> t < |run.states[i].threads| && Releasing(run.states[i].threads[t])
  }

  lemma {:induction false} WalkCovers(cfg: Config, run: Run, j: nat, k: nat, t: nat, x: nat)
    requires IsRun(cfg, run) && ReleasesFrom(run, j, k, t) && Linked(run.states[j], x)
    ensures var (s, pc) := (run.states[k], run.states[k].threads[t]);
            && (Behind(s, pc, x) || (Decides(pc, x) && !Adoptable(s, pc, x)) ==> WasNoOrphan(run, t, x, j, k))
            && (DealsWith(pc) == Some(x) ==> WasUsed(run, x, j, k))
    decreases k
  {
    hide Next, Init, Inv, Owners, Structured, Releasing, ThreadOk, Behind, Adoptable, NoOrphan, InUse, Linked, IsRun;
    if j + 1 < k {
      RunSizes(cfg, run);
      var s, s', v, ev := run.states[k-1], run.states[k], run.who[k-1], run.events[k-1];
      assert Releasing(s.threads[t]) && Releasing(s'.threads[t]);
      assert ReleasesFrom(run, j, k - 1, t);
      WalkCovers(cfg, run, j, k - 1, t, x);
      LinkedStays(cfg, run, j, k - 1, x);
      RunOwners(cfg, run, k - 1);
      InvIsStructured(cfg, s);
      StepOf(cfg, run, k - 1);
      if v == t {
        StepGoesOn(cfg, s, s', t, ev, x);
      } else {
        OtherSteps(cfg, s, s', t, v, ev);
        ThreadOf(cfg, s, t);
        if Behind(s', s.threads[t], x) {
          OtherBehind(cfg, s, s', t, x);
        }
        if Adoptable(s, s.threads[t], x) {
          OtherAdopts(cfg, s, s', t, v, ev, x);
        }
      }
    } else {
      StepOf(cfg, run, j);
      DetachStarts(cfg, run.states[j], run.states[k], t, x);
    }
  }

  lemma DetachStarts(cfg: Config, s: State, s': State, t: nat, x: nat)
    requires Next(cfg, s, s', t, Detach) && s.threads[t].Idle? && t < |s'.threads|
    ensures !Behind(s', s'.threads[t], x) && !Decides(s'.threads[t], x) && DealsWith(s'.threads[t]) == None
  {
  }

  lemma RunSizes(cfg: Config, run: Run)
    requires IsRun(cfg, run)
    ensures |run.who| == |run.events| == |run.states| - 1
  {
    hide Next, Init;
  }

  lemma StepOf(cfg: Config, run: Run, k: nat)
    requires IsRun(cfg, run) && k < |run.who|
    ensures Next(cfg, run.states[k], run.states[k+1], run.who[k], run.events[k])
  {
    hide Next;
  }

  /** HelpScan passes over no abandoned record: when thread t is about to give its record up, every
      record that was linked when it began to was, at some time since, marked free or owned by a live
      thread, t itself not counting for what it adopts. */
  lemma ReleaseLeavesNoOrphan(cfg: Config, run: Run, j: nat, k: nat, t: nat, x: nat)
    requires IsRun(cfg, run) && ReleasesFrom(run, j, k, t) && Linked(run.states[j], x)
    requires run.states[k].threads[t].Release?
    ensures WasNoOrphan(run, t, x, j, k)
  {
    hide IsRun, WasNoOrphan;
    WalkCovers(cfg, run, j, k, t, x);
  }

  // What HelpScan adopts has been seen not marked free.
  lemma AdoptsOnlyUsed(cfg: Config, run: Run, j: nat, k: nat, t: nat)
    requires IsRun(cfg, run) && ReleasesFrom(run, j, k, t) && run.states[k].threads[t].HelpCopy?
    requires Linked(run.states[j], run.states[k].threads[t].c)
    ensures WasUsed(run, run.states[k].threads[t].c, j, k)
  {
    hide IsRun, WasUsed;
    WalkCovers(cfg, run, j, k, t, run.states[k].threads[t].c);
  }

  // ----- what a scan keeps -----

  ghost predicate InSlot(s: State, p: Word) {
    exists x, i :: 0 <= x < |s.recs| && 0 <= i < |s.recs[x].hzp| && s.recs[x].hzp[i] == p
  }

  ghost predicate WasInSlot(run: Run, p: Word, j: nat, k: nat) {
    exists i :: j <= i <= k && i < |run.states| && InSlot(run.states[i], p)
  }

  // The thread's array has just been scanned, and nothing pushed since.
  predicate Settled(pc: Thread) {
    pc.HelpRec? || pc.HelpOwner? || pc.HelpAlive? || pc.HelpCas? || pc.Release? || pc.Idle?
  }

  predicate Working(pc: Thread) {
    Scanning(pc) || Releasing(pc)
  }

  // Object p is among those seen, or among those left after the last scan.
  predicate Keeps(s: State, t: nat, p: Word) {
    && t < |s.threads|
    && var pc := s.threads[t];
       p in SeenBy(pc) || (Settled(pc) && pc.r < |s.recs| && p in s.recs[pc.r].arr)
  }

  lemma ReadKeeps(cfg: Config, s: State, s': State, t: nat, p: Word)
    requires t < |s.threads| && ReadStep(cfg, s, s', t) && Keeps(s', t, p)
    ensures Keeps(s, t, p) || InSlot(s, p)
  {
    hide Even, Sorted;
  }

  lemma SweepKeeps(s: State, s': State, t: nat, p: Word)
    requires t < |s.threads| && SweepStep(s, s', t) && KeptSeen(s, s.threads[t]) && Keeps(s', t, p)
    ensures Keeps(s, t, p)
  {
  }

  lemma SeekKeeps(s: State, s': State, t: nat, p: Word)
    requires t < |s.threads| && SeekStep(s, s', t) && Keeps(s', t, p)
    ensures Keeps(s, t, p)
  {
  }

  lemma OthersKeepNothing(cfg: Config, s: State, s': State, t: nat, ev: Event, p: Word)
    requires Next(cfg, s, s', t, ev) && Working(s.threads[t]) && Keeps(s', t, p)
    ensures ev.Go? && (ReadStep(cfg, s, s', t) || SweepStep(s, s', t) || SeekStep(s, s', t))
  {
    hide ReadStep, SweepStep, SeekStep, AllocStep, ReleaseStep, AdoptStep;
    if ev.Go? && (AllocStep(cfg, s, s', t) || ReleaseStep(s, s', t) || AdoptStep(cfg, s, s', t)) {
      QuietKeepsNothing(cfg, s, s', t, p);
      assert false;
    }
  }

  lemma QuietKeepsNothing(cfg: Config, s: State, s': State, t: nat, p: Word)
    requires t < |s.threads| && Working(s.threads[t])
    requires AllocStep(cfg, s, s', t) || ReleaseStep(s, s', t) || AdoptStep(cfg, s, s', t)
    ensures !Keeps(s', t, p)
  {
  }

  lemma StepKeeps(cfg: Config, s: State, s': State, t: nat, ev: Event, p: Word)
    requires t < |s.threads| && Next(cfg, s, s', t, ev) && Working(s.threads[t]) && RoomOk(cfg, s, t)
    requires Keeps(s', t, p)
    ensures Keeps(s, t, p) || InSlot(s, p)
  {
    hide Next, ReadStep, SweepStep, SeekStep, Keeps, InSlot, SeenFits, HelperFits, KeptSeen;
    OthersKeepNothing(cfg, s, s', t, ev, p);
    if ReadStep(cfg, s, s', t) {
      ReadKeeps(cfg, s, s', t, p);
    } else if SweepStep(s, s', t) {
      SweepKeeps(s, s', t, p);
    } else {
      SeekKeeps(s, s', t, p);
    }
  }

  lemma OtherKeeps(cfg: Config, s: State, s': State, t: nat, v: nat, ev: Event, p: Word)
    requires Structured(cfg, s) && Next(cfg, s, s', v, ev) && t < |s.threads| && t != v && Working(s.threads[t])
    requires Keeps(s', t, p)
    ensures Keeps(s, t, p)
  {
    OtherSteps(cfg, s, s', t, v, ev);
    ThreadOf(cfg, s, t);
    OwnedUntouched(s, s', v, t, s.threads[t].r);
    hide Next, Structured;
  }

  // Thread t calls a scan, or the release of its record, in state j and is inside it until state k.
  ghost predicate WorksFrom(run: Run, j: nat, k: nat, t: nat) {
    && j < k < |run.states| && j < |run.who| && j < |run.events|
    && t < |run.states[j].threads| && run.states[j].threads[t].Idle? && run.who[j] == t
    && (run.events[j] == CallScan || run.events[j] == Detach)
    && (forall i :: j < i <= k ==> t < |run.states[i].threads|)
    && (forall i :: j < i < k ==> Working(run.states[i].threads[t]))
  }

  lemma {:induction false} WorkKeeps(cfg: Config, run: Run, j: nat, k: nat, t: nat, p: Word)
    requires IsRun(cfg, run) && WorksFrom(run, j, k, t) && Keeps(run.states[k], t, p)
    ensures WasInSlot(run, p, j, k)
    decreases k
  {
    hide Next, Init, Inv, Structured, Working, Keeps, InSlot, RoomOk, IsRun;
    if j + 1 < k {
      RunSizes(cfg, run);
      var s, s', v, ev := run.states[k-1], run.states[k], run.who[k-1], run.events[k-1];
      assert Working(s.threads[t]);
      StepOf(cfg, run, k - 1);
      RunInv(cfg, run, k - 1);
      InvIsStructured(cfg, s);
      RunRoom(cfg, run, k - 1);
      if v == t {
        StepKeeps(cfg, s, s', t, ev, p);
      } else {
        OtherKeeps(cfg, s, s', t, v, ev, p);
      }
      if !InSlot(s, p) {
        assert WorksFrom(run, j, k - 1, t);
        WorkKeeps(cfg, run, j, k - 1, t, p);
      }
    } else {
      StepOf(cfg, run, j);
      CallKeepsNothing(cfg, run.states[j], run.states[k], t, run.events[j], p);
    }
  }

  lemma CallKeepsNothing(cfg: Config, s: State, s': State, t: nat, ev: Event, p: Word)
    requires Next(cfg, s, s', t, ev) && s.threads[t].Idle? && (ev == CallScan || ev == Detach)
    ensures !Keeps(s', t, p)
  {
  }

  /** A scan frees whatever nobody holds: each object left in the array of a thread when its scan
      ends was in some slot at some time since the scan began. */
  lemma ScanLeavesOnlyHeld(cfg: Config, run: Run, j: nat, k: nat, t: nat, p: Word)
    requires IsRun(cfg, run) && WorksFrom(run, j, k, t) && run.states[k].threads[t].Idle?
    requires var r := run.states[k].threads[t].r; r < |run.states[k].recs| && p in run.states[k].recs[r].arr
    ensures WasInSlot(run, p, j, k)
  {
    hide IsRun, WasInSlot;
    assert Keeps(run.states[k], t, p);
    WorkKeeps(cfg, run, j, k, t, p);
  }

  // The same for a release: its scan before HelpScan and the one after every adoption are not skipped.
  lemma ReleaseLeavesOnlyHeld(cfg: Config, run: Run, j: nat, k: nat, t: nat, p: Word)
    requires IsRun(cfg, run) && WorksFrom(run, j, k, t) && run.states[k].threads[t].Release?
    requires var r := run.states[k].threads[t].r; r < |run.states[k].recs| && p in run.states[k].recs[r].arr
    ensures WasInSlot(run, p, j, k)
  {
    hide IsRun, WasInSlot;
    assert Keeps(run.states[k], t, p);
    WorkKeeps(cfg, run, j, k, t, p);
  }
}
