/** A scan leaves at most one retired object per hazard slot, so copying an adopted record's
    objects never overflows the helper's array while there are fewer slots than places. */
module HazardRoom {
  import opened Collections
  import opened Wrappers
  import opened HazardScan
  import opened HazardProtocol
  import opened HazardStructure
  import opened HazardAccounts
  import opened HazardGuards

  // The slots of n records.
  function Slots(cfg: Config, n: nat): nat {
    if n == 0 then 0 else Slots(cfg, n - 1) + cfg.hp
  }

  lemma {:induction false} SlotsGrow(cfg: Config, m: nat, n: nat)
    requires m <= n
    ensures Slots(cfg, m) <= Slots(cfg, n)
  {
    if m < n {
      SlotsGrow(cfg, m, n - 1);
    }
  }

  lemma {:induction false} SlotsAreProduct(cfg: Config, n: nat)
    ensures Slots(cfg, n) == n * cfg.hp
  {
    if n > 0 {
      SlotsAreProduct(cfg, n - 1);
    }
  }

  // Every slot there is would fit into one retired array.
  ghost predicate Roomy(cfg: Config, s: State) {
    Slots(cfg, |s.recs|) < cfg.cap
  }

  // ----- ranks are bounded by the number of records -----

  ghost function Below(s: State, k: nat): set<nat> {
    set x | 0 <= x < |s.recs| && 1 <= s.recs[x].rank <= k
  }

  lemma {:induction false} RankCounts(s: State, x: nat)
    requires ListOk(s) && Linked(s, x)
    ensures |Below(s, s.recs[x].rank)| >= s.recs[x].rank
    decreases s.recs[x].rank
  {
    var k := s.recs[x].rank;
    assert NextOk(s, x);
    assert x in Below(s, k);
    if k == 1 {
      assert |Below(s, k)| > 0;
    } else {
      RankCounts(s, s.recs[x].next.value);
      assert Below(s, k - 1) <= Below(s, k) - {x};
      SubsetSize(Below(s, k - 1), Below(s, k) - {x});
    }
  }

  lemma {:induction false} InitialSize(a: set<nat>, n: nat)
    requires forall x :: x in a ==> x < n
    ensures |a| <= n
  {
    if n == 0 {
      assert a == {};
    } else {
      InitialSize(a - {n - 1}, n - 1);
    }
  }

  lemma RankBounded(s: State, x: nat)
    requires ListOk(s) && Linked(s, x)
    ensures s.recs[x].rank <= |s.recs|
  {
    RankCounts(s, x);
    InitialSize(Below(s, s.recs[x].rank), |s.recs|);
  }

  // ----- what a scan has seen -----

  // n words fit into the slots of the records left behind on the way to cur, and i slots more.
  ghost predicate Fits(cfg: Config, s: State, n: nat, cur: Option<nat>, i: nat) {
    && (cur.Some? ==> cur.value < |s.recs|)
    && RankOf(s, cur) <= |s.recs|
    && n <= Slots(cfg, |s.recs| - RankOf(s, cur)) + i
  }

  ghost predicate SeenFits(cfg: Config, s: State, pc: Thread) {
    && (pc.ScanRec? ==> Fits(cfg, s, |pc.seen|, pc.cur, 0))
    && (pc.ScanSlot? ==> Fits(cfg, s, |pc.seen|, Some(pc.c), pc.i))
    && (pc.Sweep? ==> Fits(cfg, s, |pc.seen|, None, 0))
  }

  // What a sweep has kept was seen.
  ghost predicate KeptSeen(s: State, pc: Thread) {
    pc.Sweep? ==>
      && pc.r < |s.recs| && s.recs[pc.r].kept <= |s.recs[pc.r].arr|
      && forall k :: 0 <= k < s.recs[pc.r].kept ==> s.recs[pc.r].arr[k] in pc.seen
  }

  // A thread that is about to copy, or may soon be, has room.
  ghost predicate HelperFits(cfg: Config, s: State, pc: Thread) {
    (pc.HelpRec? || pc.HelpOwner? || pc.HelpAlive? || pc.HelpCas? || pc.HelpCopy?) && Roomy(cfg, s) ==>
      pc.r < |s.recs| && |s.recs[pc.r].arr| < cfg.cap
  }

  ghost predicate RoomOk(cfg: Config, s: State, t: nat)
    requires t < |s.threads|
  {
    SeenFits(cfg, s, s.threads[t]) && KeptSeen(s, s.threads[t]) && HelperFits(cfg, s, s.threads[t])
  }

  ghost predicate Room(cfg: Config, s: State) {
    forall t :: 0 <= t < |s.threads| ==> RoomOk(cfg, s, t)
  }

  lemma FitsStays(cfg: Config, s: State, s': State, n: nat, cur: Option<nat>, i: nat)
    requires Fits(cfg, s, n, cur, i) && |s'.recs| >= |s.recs|
    requires cur.Some? ==> s'.recs[cur.value].rank == s.recs[cur.value].rank
    ensures Fits(cfg, s', n, cur, i)
  {
    SlotsGrow(cfg, |s.recs| - RankOf(s, cur), |s'.recs| - RankOf(s, cur));
  }

  lemma OtherSeen(cfg: Config, s: State, s': State, t: nat, pc: Thread)
    requires Touches(s, s', t) && SeenFits(cfg, s, pc) && (Visits(pc).Some? ==> Linked(s, Visits(pc).value))
    ensures SeenFits(cfg, s', pc)
  {
    hide Fits, Slots;
    if pc.ScanRec? {
      FitsStays(cfg, s, s', |pc.seen|, pc.cur, 0);
    } else if pc.ScanSlot? {
      FitsStays(cfg, s, s', |pc.seen|, Some(pc.c), pc.i);
    } else if pc.Sweep? {
      FitsStays(cfg, s, s', |pc.seen|, None, 0);
    }
  }

  lemma OtherRoom(cfg: Config, s: State, s': State, t: nat, u: nat)
    requires Structured(cfg, s) && Touches(s, s', t) && u < |s.threads| && u != t && RoomOk(cfg, s, u)
    ensures u < |s'.threads| && RoomOk(cfg, s', u)
  {
    ThreadOf(cfg, s, u);
    hide Structured, ListOk, Fits, SeenFits, Slots, Linked, Visits;
    var pc := s.threads[u];
    OtherSeen(cfg, s, s', t, pc);
    SlotsGrow(cfg, |s.recs|, |s'.recs|);
    if Own(pc).Some? {
      OwnedUntouched(s, s', t, u, Own(pc).value);
    }
  }

  // ----- the stepping thread -----

  lemma NextFits(cfg: Config, s: State, n: nat, c: nat)
    requires ListOk(s) && Linked(s, c) && Fits(cfg, s, n, Some(c), cfg.hp)
    ensures Fits(cfg, s, n, s.recs[c].next, 0)
  {
    assert NextOk(s, c);
  }

  lemma HeadFits(cfg: Config, s: State)
    requires ListOk(s)
    ensures Fits(cfg, s, 0, s.head, 0)
  {
    if s.head.Some? {
      RankBounded(s, s.head.value);
    }
  }

  // The reading adds at most one word per slot.
  lemma ReadSeen(cfg: Config, s: State, s': State, t: nat)
    requires t < |s.threads| && ReadStep(cfg, s, s', t) && SeenFits(cfg, s, s.threads[t])
    requires ListOk(s) && (Visits(s.threads[t]).Some? ==> Linked(s, Visits(s.threads[t]).value))
    requires s.threads[t].ScanSlot? ==> |s.recs[s.threads[t].c].hzp| == cfg.hp && s.threads[t].i <= cfg.hp
    ensures t < |s'.threads| && SeenFits(cfg, s, s'.threads[t])
  {
    hide Even, Sorted, Slots, ListOk, Linked;
    match s.threads[t]
    case ScanStart(_, _) =>
      hide Fits;
      HeadFits(cfg, s);
    case ScanRec(_, _, skip, seen, cur) =>
      if cur.Some? && skip && s.recs[cur.value].free {
        NextFits(cfg, s, |seen|, cur.value);
      }
    case ScanSlot(_, _, _, seen, c, i) =>
      if i == cfg.hp {
        NextFits(cfg, s, |seen|, c);
      } else {
        var p := s.recs[c].hzp[i];
        assert |seen + {p}| <= |seen| + 1;
      }
  }

  // The cursors of a scanning thread's record are at rest until the sweep.
  lemma ScanRests(cfg: Config, s: State, t: nat)
    requires Structured(cfg, s) && t < |s.threads| && s.threads[t].ScanRec?
    ensures var r := s.threads[t].r; r < |s.recs| && s.recs[r].kept == s.recs[r].todo == 0
  {
    ThreadOf(cfg, s, t);
    RecordOf(cfg, s, s.threads[t].r);
    hide Structured, ListOk;
  }

  lemma ReadPlain(cfg: Config, s: State, s': State, t: nat)
    requires t < |s.threads| && ReadStep(cfg, s, s', t)
    ensures t < |s'.threads| && |s'.recs| == |s.recs|
    ensures s'.threads[t].ScanRec? || s'.threads[t].ScanSlot?
              || (s'.threads[t].Sweep? && s.threads[t].ScanRec? && s'.recs == s.recs
                  && s'.threads[t].r == s.threads[t].r)
    ensures forall x :: 0 <= x < |s.recs| ==> s'.recs[x].rank == s.recs[x].rank
  {
    hide Even, Sorted;
  }

  lemma SeenSameRanks(cfg: Config, s: State, s': State, pc: Thread)
    requires SeenFits(cfg, s, pc) && |s'.recs| == |s.recs|
    requires forall x :: 0 <= x < |s.recs| ==> s'.recs[x].rank == s.recs[x].rank
    ensures SeenFits(cfg, s', pc)
  {
    hide Slots;
  }

  lemma ReadRoom(cfg: Config, s: State, s': State, t: nat)
    requires Structured(cfg, s) && t < |s.threads| && ReadStep(cfg, s, s', t) && RoomOk(cfg, s, t)
    ensures t < |s'.threads| && RoomOk(cfg, s', t)
  {
    ThreadOf(cfg, s, t);
    assert ListOk(s);
    hide Structured, ListOk, SeenFits, ReadStep;
    if s.threads[t].ScanSlot? {
      SlotsOf(cfg, s, s.threads[t].c);
    }
    ReadSeen(cfg, s, s', t);
    ReadPlain(cfg, s, s', t);
    SeenSameRanks(cfg, s, s', s'.threads[t]);
    if s.threads[t].ScanRec? {
      ScanRests(cfg, s, t);
    }
  }

  // A sweep keeps at most one object per slot.
  lemma KeptFits(cfg: Config, s: State, t: nat)
    requires Accounts(s) && t < |s.threads| && s.threads[t].Sweep? && RoomOk(cfg, s, t)
    ensures s.recs[s.threads[t].r].kept <= Slots(cfg, |s.recs|)
  {
    var x := s.recs[s.threads[t].r];
    AccountOf(s, s.threads[t].r);
    var kept := x.arr[..x.kept];
    forall i, j | 0 <= i < j < |kept| ensures kept[i] != kept[j] {
      assert kept[i] == Pending(x)[i] && kept[j] == Pending(x)[j];
    }
    DistinctBound(kept, s.threads[t].seen);
  }

  // The sweep goes on to the next entry: it was kept because it was seen, or it is gone.
  lemma SweepOn(cfg: Config, s: State, s': State, t: nat)
    requires t < |s.threads| && SweepStep(s, s', t) && RoomOk(cfg, s, t)
    requires s.recs[s.threads[t].r].todo < |s.recs[s.threads[t].r].arr|
    ensures t < |s'.threads| && RoomOk(cfg, s', t)
  {
    hide Slots;
  }

  lemma SweepEnds(cfg: Config, s: State, s': State, t: nat)
    requires t < |s.threads| && SweepStep(s, s', t)
    requires s.recs[s.threads[t].r].todo >= |s.recs[s.threads[t].r].arr|
    requires s.recs[s.threads[t].r].kept <= Slots(cfg, |s.recs|)
    ensures t < |s'.threads| && RoomOk(cfg, s', t)
  {
    hide Slots, Fits;
  }

  lemma SweepRoom(cfg: Config, s: State, s': State, t: nat)
    requires Structured(cfg, s) && Accounts(s) && t < |s.threads| && SweepStep(s, s', t) && RoomOk(cfg, s, t)
    ensures t < |s'.threads| && RoomOk(cfg, s', t)
  {
    hide Structured, Accounts, RoomOk;
    KeptFits(cfg, s, t);
    if s.recs[s.threads[t].r].todo < |s.recs[s.threads[t].r].arr| {
      SweepOn(cfg, s, s', t);
    } else {
      SweepEnds(cfg, s, s', t);
    }
  }

  lemma SeekRoom(cfg: Config, s: State, s': State, t: nat)
    requires Structured(cfg, s) && t < |s.threads| && SeekStep(s, s', t) && RoomOk(cfg, s, t)
    ensures t < |s'.threads| && RoomOk(cfg, s', t)
  {
    ThreadOf(cfg, s, t);
    hide Structured, ListOk, Slots;
  }

  lemma AdoptRoom(cfg: Config, s: State, s': State, t: nat)
    requires Structured(cfg, s) && t < |s.threads| && AdoptStep(cfg, s, s', t) && RoomOk(cfg, s, t)
    ensures t < |s'.threads| && RoomOk(cfg, s', t)
  {
    ThreadOf(cfg, s, t);
    hide Structured, ListOk, Slots;
  }

  // Other steps end neither in a scan nor in HelpScan.
  lemma QuietRoom(cfg: Config, s: State, s': State, t: nat, ev: Event)
    requires t < |s.threads|
    requires UserStep(cfg, s, s', t, ev) || LeakStep(cfg, s, s', t) || AllocStep(cfg, s, s', t)
             || ReleaseStep(s, s', t)
    ensures t < |s'.threads| && RoomOk(cfg, s', t)
  {
    hide Slots, Fits, UserStep, AllocStep, ReleaseStep;
    if UserStep(cfg, s, s', t, ev) {
      UserQuiet(cfg, s, s', t, ev);
    } else if LeakStep(cfg, s, s', t) {
    } else if AllocStep(cfg, s, s', t) {
      AllocQuiet(cfg, s, s', t);
    } else {
      ReleaseQuiet(s, s', t);
    }
  }

  // The thread neither reads, nor sweeps, nor looks for records to adopt.
  predicate Quiet(s: State, t: nat) {
    && t < |s.threads|
    && var pc := s.threads[t];
       pc.Out? || pc.Dead? || pc.Probe? || pc.Taken? || pc.Linking? || pc.Idle? || pc.Clearing? || pc.ScanStart?
  }

  lemma UserQuiet(cfg: Config, s: State, s': State, t: nat, ev: Event)
    requires t < |s.threads| && UserStep(cfg, s, s', t, ev)
    ensures Quiet(s', t)
  {
  }

  lemma AllocQuiet(cfg: Config, s: State, s': State, t: nat)
    requires t < |s.threads| && AllocStep(cfg, s, s', t)
    ensures Quiet(s', t)
  {
  }

  lemma ReleaseQuiet(s: State, s': State, t: nat)
    requires t < |s.threads| && ReleaseStep(s, s', t)
    ensures Quiet(s', t)
  {
  }

  lemma StepRoom(cfg: Config, s: State, s': State, t: nat, ev: Event)
    requires Inv(cfg, s) && Room(cfg, s) && Next(cfg, s, s', t, ev)
    ensures Room(cfg, s')
  {
    hide Structured, Accounts, Guards, RoomOk, UserStep, LeakStep, AllocStep, ReleaseStep, ReadStep, SweepStep,
         SeekStep, AdoptStep;
    StepTouches(cfg, s, s', t, ev);
    forall u | 0 <= u < |s'.threads| ensures RoomOk(cfg, s', u) {
      assert RoomOk(cfg, s, u);
      if u != t {
        OtherRoom(cfg, s, s', t, u);
      } else if UserStep(cfg, s, s', t, ev) || LeakStep(cfg, s, s', t) || AllocStep(cfg, s, s', t)
                || ReleaseStep(s, s', t) {
        QuietRoom(cfg, s, s', t, ev);
      } else if ReadStep(cfg, s, s', t) {
        ReadRoom(cfg, s, s', t);
      } else if SweepStep(s, s', t) {
        SweepRoom(cfg, s, s', t);
      } else if SeekStep(s, s', t) {
        SeekRoom(cfg, s, s', t);
      } else {
        AdoptRoom(cfg, s, s', t);
      }
    }
  }

  lemma {:induction false} RunRoom(cfg: Config, run: Run, k: nat)
    requires IsRun(cfg, run) && k < |run.states|
    ensures Room(cfg, run.states[k])
  {
    hide Inv, Next, RoomOk;
    if k == 0 {
      forall t | 0 <= t < |run.states[0].threads| ensures RoomOk(cfg, run.states[0], t) {
        OutRoom(cfg, run.states[0], t);
      }
    } else {
      RunRoom(cfg, run, k - 1);
      RunInv(cfg, run, k - 1);
      StepRoom(cfg, run.states[k-1], run.states[k], run.who[k-1], run.events[k-1]);
    }
  }

  lemma OutRoom(cfg: Config, s: State, t: nat)
    requires t < |s.threads| && s.threads[t] == Out
    ensures RoomOk(cfg, s, t)
  {
  }
}
