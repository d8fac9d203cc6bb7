/** What a record says about its owner, and what a thread that releases its record has done to it. */
module HazardOwners {
  import opened Wrappers
  import opened HazardScan
  import opened HazardProtocol
  import opened HazardStructure
  import opened HazardAccounts
  import opened HazardGuards

  // The thread has begun to give up its record.
  predicate Releasing(pc: Thread) {
    || pc.Clearing? || (Scanning(pc) && !pc.back.ToIdle?)
    || pc.HelpRec? || pc.HelpOwner? || pc.HelpAlive? || pc.HelpCas? || pc.HelpCopy? || pc.HelpFree? || pc.HelpRelease?
    || pc.Release?
  }

  // Whoever is entered as the owner of a record is dead, or holds it as its own or by adoption.
  ghost predicate OwnerOk(s: State, x: nat)
    requires x < |s.recs|
  {
    s.recs[x].owner.Some? ==>
      var u := s.recs[x].owner.value;
      u < |s.threads| && (s.threads[u].Dead? || Own(s.threads[u]) == Some(x) || Helped(s.threads[u]) == Some(x))
  }

  // The slots of a record are cleared before anything else is done to give it up, and copying is
  // interrupted by a scan only when the array is full.
  ghost predicate OwnOk(cfg: Config, s: State, t: nat)
    requires t < |s.threads|
  {
    var pc := s.threads[t];
    && (Releasing(pc) ==> pc.r < |s.recs|)
    && (pc.Clearing? ==> forall i :: 0 <= i < pc.i && i < |s.recs[pc.r].hzp| ==> s.recs[pc.r].hzp[i] == 0)
    && (Releasing(pc) && !pc.Clearing? ==> forall i :: 0 <= i < |s.recs[pc.r].hzp| ==> s.recs[pc.r].hzp[i] == 0)
    && (pc.ScanStart? && pc.back.ToCopy? ==> |s.recs[pc.r].arr| >= cfg.cap)
  }

  // A scan that reads on passes over free records exactly if it marks entries in place: if in-place
  // scans are configured and no entry has its low bit set; the array is then sorted.
  ghost predicate SkipOk(cfg: Config, s: State, t: nat)
    requires t < |s.threads|
  {
    var pc := s.threads[t];
    pc.ScanRec? || pc.ScanSlot? ==>
      && pc.r < |s.recs|
      && (pc.skip <==> cfg.inplace && Even(s.recs[pc.r].arr))
      && (pc.skip ==> Sorted(s.recs[pc.r].arr))
  }

  ghost predicate Owners(cfg: Config, s: State) {
    && (forall x :: 0 <= x < |s.recs| ==> OwnerOk(s, x))
    && (forall t :: 0 <= t < |s.threads| ==> OwnOk(cfg, s, t) && SkipOk(cfg, s, t))
  }

  // ----- owners -----

  // A step of thread t enters t as the owner of what it then holds, or nobody.
  ghost predicate OwnerStep(s: State, s': State, t: nat, x: nat) {
    && t < |s.threads| && t < |s'.threads| && x < |s'.recs|
    && (s'.recs[x].owner == Some(t) ==>
          s'.threads[t].Dead? || Own(s'.threads[t]) == Some(x) || Helped(s'.threads[t]) == Some(x))
    && (s'.recs[x].owner.Some? && s'.recs[x].owner != Some(t) ==>
          x < |s.recs| && s.recs[x].owner == s'.recs[x].owner)
  }

  lemma UserOwner(cfg: Config, s: State, s': State, t: nat, ev: Event, x: nat)
    requires t < |s.threads| && UserStep(cfg, s, s', t, ev) && x < |s.recs| && OwnerOk(s, x)
    ensures OwnerStep(s, s', t, x)
  {
  }

  lemma LeakOwner(cfg: Config, s: State, s': State, t: nat, x: nat)
    requires t < |s.threads| && LeakStep(cfg, s, s', t) && x < |s.recs| && OwnerOk(s, x)
    ensures OwnerStep(s, s', t, x)
  {
  }

  lemma AllocOwner(cfg: Config, s: State, s': State, t: nat, x: nat)
    requires t < |s.threads| && AllocStep(cfg, s, s', t) && x < |s'.recs| && (x < |s.recs| ==> OwnerOk(s, x))
    ensures OwnerStep(s, s', t, x)
  {
  }

  lemma ReleaseOwner(s: State, s': State, t: nat, x: nat)
    requires t < |s.threads| && ReleaseStep(s, s', t) && x < |s.recs| && OwnerOk(s, x)
    ensures OwnerStep(s, s', t, x)
  {
  }

  lemma ReadOwner(cfg: Config, s: State, s': State, t: nat, x: nat)
    requires t < |s.threads| && ReadStep(cfg, s, s', t) && x < |s.recs| && OwnerOk(s, x)
    ensures OwnerStep(s, s', t, x)
  {
    hide Even, Sorted;
  }

  lemma SweepOwner(s: State, s': State, t: nat, x: nat)
    requires t < |s.threads| && SweepStep(s, s', t) && x < |s.recs| && OwnerOk(s, x)
    ensures OwnerStep(s, s', t, x)
  {
  }

  lemma SeekOwner(s: State, s': State, t: nat, x: nat)
    requires t < |s.threads| && SeekStep(s, s', t) && x < |s.recs| && OwnerOk(s, x)
    ensures OwnerStep(s, s', t, x)
  {
  }

  lemma AdoptOwner(cfg: Config, s: State, s': State, t: nat, x: nat)
    requires t < |s.threads| && AdoptStep(cfg, s, s', t) && x < |s.recs| && OwnerOk(s, x)
    ensures OwnerStep(s, s', t, x)
  {
  }

  // Only an attaching thread makes records.
  lemma NoNewRecord(cfg: Config, s: State, s': State, t: nat, ev: Event)
    requires Next(cfg, s, s', t, ev) && !(ev.Go? && AllocStep(cfg, s, s', t))
    ensures |s'.recs| == |s.recs|
  {
    hide Even, Sorted;
  }

  lemma StepOwner(cfg: Config, s: State, s': State, t: nat, ev: Event, x: nat)
    requires Next(cfg, s, s', t, ev) && x < |s'.recs| && (x < |s.recs| ==> OwnerOk(s, x))
    ensures OwnerStep(s, s', t, x)
  {
    hide OwnerOk, OwnerStep, UserStep, LeakStep, AllocStep, ReleaseStep, ReadStep, SweepStep, SeekStep, AdoptStep;
    if ev.Go? && AllocStep(cfg, s, s', t) {
      AllocOwner(cfg, s, s', t, x);
    } else {
      NoNewRecord(cfg, s, s', t, ev);
      if UserStep(cfg, s, s', t, ev) {
        UserOwner(cfg, s, s', t, ev, x);
      } else if LeakStep(cfg, s, s', t) {
        LeakOwner(cfg, s, s', t, x);
      } else if ReleaseStep(s, s', t) {
        ReleaseOwner(s, s', t, x);
      } else if ReadStep(cfg, s, s', t) {
        ReadOwner(cfg, s, s', t, x);
      } else if SweepStep(s, s', t) {
        SweepOwner(s, s', t, x);
      } else if SeekStep(s, s', t) {
        SeekOwner(s, s', t, x);
      } else {
        AdoptOwner(cfg, s, s', t, x);
      }
    }
  }

  // ----- the record being released -----

  lemma UserOwn(cfg: Config, s: State, s': State, t: nat, ev: Event)
    requires t < |s.threads| && UserStep(cfg, s, s', t, ev)
    ensures t < |s'.threads| && OwnOk(cfg, s', t)
  {
  }

  lemma LeakOwn(cfg: Config, s: State, s': State, t: nat)
    requires t < |s.threads| && LeakStep(cfg, s, s', t)
    ensures t < |s'.threads| && OwnOk(cfg, s', t)
  {
  }

  lemma AllocOwn(cfg: Config, s: State, s': State, t: nat)
    requires t < |s.threads| && AllocStep(cfg, s, s', t)
    ensures t < |s'.threads| && OwnOk(cfg, s', t)
  {
  }

  lemma ReleaseOwn(cfg: Config, s: State, s': State, t: nat)
    requires t < |s.threads| && ReleaseStep(s, s', t) && OwnOk(cfg, s, t)
    ensures t < |s'.threads| && OwnOk(cfg, s', t)
  {
  }

  lemma ReadOwn(cfg: Config, s: State, s': State, t: nat)
    requires t < |s.threads| && ReadStep(cfg, s, s', t) && OwnOk(cfg, s, t)
    ensures t < |s'.threads| && OwnOk(cfg, s', t)
  {
    hide Even, Sorted;
  }

  lemma SweepOwn(cfg: Config, s: State, s': State, t: nat)
    requires t < |s.threads| && SweepStep(s, s', t) && OwnOk(cfg, s, t)
    ensures t < |s'.threads| && OwnOk(cfg, s', t)
  {
  }

  lemma SeekOwn(cfg: Config, s: State, s': State, t: nat)
    requires t < |s.threads| && SeekStep(s, s', t) && OwnOk(cfg, s, t)
    ensures t < |s'.threads| && OwnOk(cfg, s', t)
  {
  }

  lemma AdoptOwn(cfg: Config, s: State, s': State, t: nat)
    requires t < |s.threads| && AdoptStep(cfg, s, s', t) && OwnOk(cfg, s, t) && HeldOk(s, t)
    ensures t < |s'.threads| && OwnOk(cfg, s', t)
  {
  }

  lemma StepOwn(cfg: Config, s: State, s': State, t: nat, ev: Event)
    requires Next(cfg, s, s', t, ev) && OwnOk(cfg, s, t) && HeldOk(s, t)
    ensures t < |s'.threads| && OwnOk(cfg, s', t)
  {
    hide OwnOk, HeldOk, UserStep, LeakStep, AllocStep, ReleaseStep, ReadStep, SweepStep, SeekStep, AdoptStep;
    if UserStep(cfg, s, s', t, ev) {
      UserOwn(cfg, s, s', t, ev);
    } else if LeakStep(cfg, s, s', t) {
      LeakOwn(cfg, s, s', t);
    } else if AllocStep(cfg, s, s', t) {
      AllocOwn(cfg, s, s', t);
    } else if ReleaseStep(s, s', t) {
      ReleaseOwn(cfg, s, s', t);
    } else if ReadStep(cfg, s, s', t) {
      ReadOwn(cfg, s, s', t);
    } else if SweepStep(s, s', t) {
      SweepOwn(cfg, s, s', t);
    } else if SeekStep(s, s', t) {
      SeekOwn(cfg, s, s', t);
    } else {
      AdoptOwn(cfg, s, s', t);
    }
  }

  lemma SortedEven(a: seq<Word>, b: seq<Word>)
    requires multiset(a) == multiset(b)
    ensures Even(a) <==> Even(b)
  {
    InSorted(a, b);
    EvenMembers(a);
    EvenMembers(b);
  }

  lemma EvenMembers(a: seq<Word>)
    ensures Even(a) <==> forall p :: p in a ==> p % 2 == 0
  {
    forall i | 0 <= i < |a| ensures a[i] in a {
    }
  }

  lemma ReadSkips(cfg: Config, s: State, s': State, t: nat)
    requires t < |s.threads| && ReadStep(cfg, s, s', t) && SkipOk(cfg, s, t)
    ensures t < |s'.threads| && SkipOk(cfg, s', t)
  {
    hide Even, Sorted;
    var r := s.threads[t].r;
    if s.threads[t].ScanStart? && r < |s.recs| && r < |s'.recs| && multiset(s'.recs[r].arr) == multiset(s.recs[r].arr) {
      SortedEven(s.recs[r].arr, s'.recs[r].arr);
    }
  }

  lemma StepSkips(cfg: Config, s: State, s': State, t: nat, ev: Event)
    requires Next(cfg, s, s', t, ev) && SkipOk(cfg, s, t)
    ensures t < |s'.threads| && SkipOk(cfg, s', t)
  {
    hide UserStep, LeakStep, AllocStep, ReleaseStep, ReadStep, SeekStep, AdoptStep, Even, Sorted;
    if ev.Go? && ReadStep(cfg, s, s', t) {
      hide SkipOk;
      ReadSkips(cfg, s, s', t);
    } else if !(ev.Go? && SweepStep(s, s', t)) {
      QuietNow(cfg, s, s', t, ev);
    }
  }

  lemma QuietNow(cfg: Config, s: State, s': State, t: nat, ev: Event)
    requires Next(cfg, s, s', t, ev) && !(ev.Go? && ReadStep(cfg, s, s', t)) && !(ev.Go? && SweepStep(s, s', t))
    ensures t < |s'.threads| && !s'.threads[t].ScanRec? && !s'.threads[t].ScanSlot?
  {
    hide Next;
    OutsideCovers(cfg, s, s', t, ev);
  }

  lemma OtherSkips(cfg: Config, s: State, s': State, t: nat, u: nat)
    requires u < |s.threads| && SkipOk(cfg, s, u) && ThreadOk(cfg, s, u) && Touches(s, s', t) && u != t
    ensures u < |s'.threads| && SkipOk(cfg, s', u)
  {
    hide Even, Sorted;
    var pc := s.threads[u];
    if pc.ScanRec? || pc.ScanSlot? {
      OwnedUntouched(s, s', t, u, pc.r);
    }
  }

  lemma OtherOwn(cfg: Config, s: State, s': State, t: nat, u: nat)
    requires u < |s.threads| && OwnOk(cfg, s, u) && ThreadOk(cfg, s, u) && Touches(s, s', t) && u != t
    ensures u < |s'.threads| && OwnOk(cfg, s', u)
  {
    var pc := s.threads[u];
    if Releasing(pc) {
      OwnedUntouched(s, s', t, u, pc.r);
    }
  }

  lemma StepOwners(cfg: Config, s: State, s': State, t: nat, ev: Event)
    requires Structured(cfg, s) && Owners(cfg, s) && Next(cfg, s, s', t, ev)
    ensures Owners(cfg, s')
  {
    hide Structured, Next, OwnOk, SkipOk;
    StepTouches(cfg, s, s', t, ev);
    forall x | 0 <= x < |s'.recs| ensures OwnerOk(s', x) {
      StepOwner(cfg, s, s', t, ev, x);
    }
    forall u | 0 <= u < |s'.threads| ensures OwnOk(cfg, s', u) && SkipOk(cfg, s', u) {
      ThreadOf(cfg, s, u);
      if u == t {
        StepOwn(cfg, s, s', t, ev);
        StepSkips(cfg, s, s', t, ev);
      } else {
        OtherOwn(cfg, s, s', t, u);
        OtherSkips(cfg, s, s', t, u);
      }
    }
  }

  lemma {:induction false} RunOwners(cfg: Config, run: Run, k: nat)
    requires IsRun(cfg, run) && k < |run.states|
    ensures Owners(cfg, run.states[k]) && Inv(cfg, run.states[k])
  {
    RunInv(cfg, run, k);
    if k > 0 {
      RunOwners(cfg, run, k - 1);
      hide Inv, Next, Init;
      assert Structured(cfg, run.states[k-1]) by { InvIsStructured(cfg, run.states[k-1]); }
      StepOwners(cfg, run.states[k-1], run.states[k], run.who[k-1], run.events[k-1]);
    }
  }

  lemma InvIsStructured(cfg: Config, s: State)
    requires Inv(cfg, s)
    ensures Structured(cfg, s)
  {
    hide Structured;
  }

  // ----- main results -----

  // A record's owner is entered exactly while a live thread holds it: as its own, or by adoption.
  lemma OwnerIsHolder(cfg: Config, run: Run, k: nat, x: nat, t: nat)
    requires IsRun(cfg, run) && k < |run.states| && t < |run.states[k].threads| && !run.states[k].threads[t].Dead?
    ensures OwnedBy(run.states[k], x, t) <==>
            Own(run.states[k].threads[t]) == Some(x) || Helped(run.states[k].threads[t]) == Some(x)
  {
    RunOwners(cfg, run, k);
    ThreadOf(cfg, run.states[k], t);
    if x < |run.states[k].recs| {
      assert OwnerOk(run.states[k], x);
    }
  }

  // From the first scan of a release on, the record's slots are null.
  lemma ReleasedSlotsAreNull(cfg: Config, run: Run, k: nat, t: nat, i: nat)
    requires IsRun(cfg, run) && k < |run.states| && t < |run.states[k].threads|
    requires Releasing(run.states[k].threads[t]) && !run.states[k].threads[t].Clearing? && i < cfg.hp
    ensures var r := run.states[k].threads[t].r;
            r < |run.states[k].recs| && |run.states[k].recs[r].hzp| == cfg.hp && run.states[k].recs[r].hzp[i] == 0
  {
    RunOwners(cfg, run, k);
    var s := run.states[k];
    assert OwnOk(cfg, s, t);
    RecordOf(cfg, s, s.threads[t].r);
  }

  // Copying an adopted record is interrupted by a scan only when the helper's array is full.
  lemma CopyScansWhenFull(cfg: Config, run: Run, k: nat, t: nat)
    requires IsRun(cfg, run) && k < |run.states| && t < |run.states[k].threads|
    requires run.states[k].threads[t].ScanStart? && run.states[k].threads[t].back.ToCopy?
    ensures var r := run.states[k].threads[t].r;
            r < |run.states[k].recs| && |run.states[k].recs[r].arr| >= cfg.cap
  {
    RunOwners(cfg, run, k);
    assert OwnOk(cfg, run.states[k], t);
  }

  // A scan passes over records marked free exactly if it is an in-place scan of even pointers.
  lemma SkipsFreeInPlace(cfg: Config, run: Run, k: nat, t: nat)
    requires IsRun(cfg, run) && k < |run.states| && t < |run.states[k].threads| && run.states[k].threads[t].ScanRec?
    ensures var (s, pc) := (run.states[k], run.states[k].threads[t]);
            && pc.r < |s.recs|
            && (pc.skip <==> cfg.inplace && Even(s.recs[pc.r].arr)) && (pc.skip ==> Sorted(s.recs[pc.r].arr))
  {
    RunOwners(cfg, run, k);
    assert SkipOk(cfg, run.states[k], t);
  }
}
