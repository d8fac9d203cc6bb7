/** One cycle of a test as seen by the trackers: what running the kids of a section, and closing
    the section, does to what has been entered and to the cycles still to come. */
module SectionWalk {
  import opened SectionTrees

  // A section that was opened in this cycle, before and after: one cycle fewer to come, at most
  // one leaf more entered, and that at the end of the one trail of sections that were opened.
  ghost predicate SectionRan(sec: Section, before: Track, after: Track, thrown: bool, log: seq<Path>, trail: Path) {
    && WellFormed(sec, after) && after.state != NotStarted
    && Entered(after) == Entered(before) + log
    && Remaining(sec, after) + 1 == Remaining(sec, before)
    && trail != [] && trail[0] == sec.name && (log == [] || log == [trail])
    && (if thrown then after.state != CompletedSuccessfully else after.state != Failed)
  }

  /** The kids of an opened section, k of them asked for so far. ts0 are the kids at the start, ts
      those now, state is the section's own. Until a kid is trail nothing changes; afterwards
      nothing is opened and the kids still asked for are only discovered. */
  ghost predicate Walk(secs: seq<Section>, ts0: seq<Track>, ts: seq<Track>, k: nat, state: CycleState, done: bool,
                       thrown: bool, log: seq<Path>, trail: Path)
  {
    && KidsOk(secs, ts) && k <= |secs| && k <= |ts|
    && (log == [] || log == [trail])
    && if trail == [] then
         && ts == ts0 && state == Executing && !done && !thrown && log == []
         && forall i :: 0 <= i < k ==> Complete(ts[i])
       else
         && done && k > 0
         && AllEntered(ts) == AllEntered(ts0) + log
         && AllRemaining(secs, ts) + 1 == AllRemaining(secs, ts0)
         && (forall i :: k <= i < |ts| ==> ts[i].state == NotStarted)
         && if thrown then
              && ts[k-1].state != CompletedSuccessfully
              && (state == NeedsAnotherRun || (state == ExecutingChildren && !Complete(ts[k-1])))
            else state == ExecutingChildren && ts[k-1].state != Failed
  }

  // The state of the parent after a kid has run.
  function ParentState(kid: Section, thrown: bool): CycleState {
    if thrown && FailingLeaf(kid) then NeedsAnotherRun else ExecutingChildren
  }

  // Asked for a kid that is complete: it is skipped.
  lemma WalkSkips(secs: seq<Section>, ts0: seq<Track>, ts: seq<Track>, k: nat, state: CycleState, done: bool,
                  log: seq<Path>, trail: Path)
    requires Walk(secs, ts0, ts, k, state, done, false, log, trail) && k < |secs| && k < |ts|
    requires trail == [] ==> Complete(ts[k])
    ensures Walk(secs, ts0, ts, k + 1, state, done, false, log, trail)
  {
    hide KidsOk;
  }

  // Asked for a kid after the cycle is complete: it is at most discovered.
  lemma WalkDiscovers(secs: seq<Section>, ts0: seq<Track>, ts: seq<Track>, k: nat, state: CycleState, done: bool,
                      log: seq<Path>, trail: Path)
    requires Walk(secs, ts0, ts, k, state, done, false, log, trail) && trail != [] && k == |ts| < |secs|
    ensures Walk(secs, ts0, ts + [Fresh(secs[k].name)], k + 1, state, done, false, log, trail)
  {
    var t := Fresh(secs[k].name);
    KidDiscovered(secs, ts);
    hide KidsOk, AllEntered, AllRemaining;
  }

  lemma KidDiscovered(secs: seq<Section>, ts: seq<Track>)
    requires KidsOk(secs, ts) && |ts| < |secs|
    ensures var ts' := ts + [Fresh(secs[|ts|].name)];
            KidsOk(secs, ts') && AllEntered(ts') == AllEntered(ts) && AllRemaining(secs, ts') == AllRemaining(secs, ts)
  {
    var k, t := |ts|, Fresh(secs[|ts|].name);
    FreshFits(secs, ts, t);
    FreshEntersNothing(ts, t);
    FreshRemains(secs, ts, t);
  }

  lemma FreshFits(secs: seq<Section>, ts: seq<Track>, t: Track)
    requires KidsOk(secs, ts) && |ts| < |secs| && t == Fresh(secs[|ts|].name)
    ensures KidsOk(secs, ts + [t])
  {
    assert WellFormed(secs[|ts|], t);
    hide WellFormed;
  }

  lemma FreshEntersNothing(ts: seq<Track>, t: Track)
    requires t.state == NotStarted && t.kids == []
    ensures AllEntered(ts + [t]) == AllEntered(ts)
  {
    assert (ts + [t])[..|ts|] == ts;
  }

  lemma FreshRemains(secs: seq<Section>, ts: seq<Track>, t: Track)
    requires |ts| < |secs| && t == Fresh(secs[|ts|].name)
    ensures AllRemaining(secs, ts + [t]) == AllRemaining(secs, ts)
  {
    hide AllRemaining, Remaining;
    RemainingMoves(secs, ts, |secs|, |ts|, t);
    assert secs[..|secs|] == secs;
  }

  // The first kid that is not complete runs.
  lemma WalkOpens(secs: seq<Section>, ts: seq<Track>, k: nat, after: Track, thrown: bool, log: seq<Path>, trail: Path)
    requires KidsOk(secs, ts) && k < |secs| && k <= |ts| && (forall i :: 0 <= i < k ==> Complete(ts[i]))
    requires !Complete(KidAt(secs, ts, k)) && SectionRan(secs[k], KidAt(secs, ts, k), after, thrown, log, trail)
    ensures Walk(secs, ts, WithKid(ts, k, after), k + 1, ParentState(secs[k], thrown), true, thrown, log, trail)
  {
    assert WellFormed(secs[k], after);
    assert Complete(after) && thrown ==> FailingLeaf(secs[k]);
    assert FailingLeaf(secs[k]) && thrown ==> Complete(after) || after.kids != [];
    hide WellFormed;
    assert Frontier(ts, k);
    KidMoves(secs, ts, k, after);
    EnteredMoves(secs, ts, k, after, log);
    RemainingMoves(secs, ts, |secs|, k, after);
    assert secs[..|secs|] == secs;
    hide KidsOk, AllEntered, AllRemaining, Entered, Remaining;
  }

  // ----- closing -----

  // The state after closing, given whether the last child is complete.
  function Closed(state: CycleState, lastDone: bool): CycleState {
    match state
    case Executing => CompletedSuccessfully
    case ExecutingChildren => if lastDone then CompletedSuccessfully else state
    case _ => state
  }

  function CloseState(state: CycleState, ts: seq<Track>): CycleState {
    Closed(state, ts == [] || Complete(ts[|ts|-1]))
  }

  // The walk over the kids has come to its end, or was cut short by a throw.
  ghost predicate WalkEnds(secs: seq<Section>, ts: seq<Track>, k: nat, thrown: bool) {
    thrown || k == |secs| == |ts|
  }

  lemma LastComplete(secs: seq<Section>, ts: seq<Track>)
    requires KidsOk(secs, ts) && |ts| == |secs| && (ts != [] ==> Complete(ts[|ts|-1]))
    ensures KidsDone(secs, ts)
  {
    assert forall i, j :: 0 <= i < j < |ts| && ts[j].state != NotStarted ==> Complete(ts[i]);
    forall i | 0 <= i < |ts| ensures Complete(ts[i]) {
      var last := |ts| - 1;
      if i < last {
        assert Complete(ts[last]);
      }
    }
  }

  lemma {:induction false} NothingRemaining(secs: seq<Section>)
    ensures AllRemaining(secs, []) == AllCycles(secs)
  {
    if secs != [] {
      NothingRemaining(secs[..|secs|-1]);
    }
  }

  // What is still to come for a section, before it is opened once more, in terms of its kids.
  lemma BeforeOpening(sec: Section, before: Track)
    requires WellFormed(sec, before) && !Complete(before) && sec.kids != []
    ensures KidsOk(sec.kids, before.kids)
    ensures Remaining(sec, before) == AllRemaining(sec.kids, before.kids) + Extra(sec.kids)
    ensures Entered(before) == Under(sec.name, AllEntered(before.kids))
    ensures KidsDone(sec.kids, before.kids) ==> Extra(sec.kids) == 1
  {
    NothingRemaining(sec.kids);
    if KidsDone(sec.kids, before.kids) {
      var last := |sec.kids| - 1;
      assert WellFormed(sec.kids[last], before.kids[last]) && before.kids != [];
    }
  }

  lemma UnderAppend(name: string, a: seq<Path>, b: seq<Path>)
    ensures Under(name, a + b) == Under(name, a) + Under(name, b)
  {
    var l, r := Under(name, a + b), Under(name, a) + Under(name, b);
    assert |l| == |r| && forall i :: 0 <= i < |l| ==> l[i] == r[i];
  }

  // A complete last kid that did not fail is no failing leaf.
  lemma LastIsNoFailure(secs: seq<Section>, ts: seq<Track>)
    requires KidsDone(secs, ts) && secs != [] && ts[|ts|-1].state != Failed
    ensures Extra(secs) == 0
  {
    var last := |secs| - 1;
    assert WellFormed(secs[last], ts[last]);
  }

  lemma ClosedForGood(sec: Section, ts: seq<Track>)
    requires sec.kids != [] && KidsDone(sec.kids, ts)
    ensures var after := Track(sec.name, CompletedSuccessfully, ts);
            WellFormed(sec, after) && Remaining(sec, after) == 0
  {
  }

  lemma StillOpen(sec: Section, state: CycleState, ts: seq<Track>)
    requires sec.kids != [] && KidsOk(sec.kids, ts) && ts != []
    requires state == ExecutingChildren || state == NeedsAnotherRun
    requires Complete(ts[|ts|-1]) ==> state == NeedsAnotherRun && ts[|ts|-1].state == Failed
    ensures var after := Track(sec.name, state, ts);
            WellFormed(sec, after) && Remaining(sec, after) == AllRemaining(sec.kids, ts) + Extra(sec.kids)
  {
    hide KidsOk;
  }

  lemma ClosedEntered(sec: Section, before: Track, ts: seq<Track>, log: seq<Path>)
    requires WellFormed(sec, before) && !Complete(before) && sec.kids != [] && ts != []
    requires AllEntered(ts) == AllEntered(before.kids) + log
    ensures forall state :: Entered(Track(sec.name, state, ts)) == Entered(before) + Under(sec.name, log)
  {
    BeforeOpening(sec, before);
    UnderAppend(sec.name, AllEntered(before.kids), log);
  }

  // All kids were complete already: the section is closed for good without entering anything.
  lemma CloseEmptyWalk(sec: Section, before: Track)
    requires WellFormed(sec, before) && !Complete(before) && sec.kids != [] && KidsDone(sec.kids, before.kids)
    requires before.kids != []
    ensures SectionRan(sec, before, Track(sec.name, CompletedSuccessfully, before.kids), false, [], [sec.name])
  {
    hide *;
    var ts := before.kids;
    BeforeOpening(sec, before);
    DoneEnteredAll(sec.kids, ts);
    ClosedForGood(sec, ts);
    ClosedEntered(sec, before, ts, []);
    UnderOne(sec.name, []);
    Ran(sec, before, Track(sec.name, CompletedSuccessfully, ts), false, [], []);
    assert [sec.name] + [] == [sec.name];
  }

  // The pieces of a run that has left the section in the given state.
  lemma Ran(sec: Section, before: Track, after: Track, thrown: bool, log: seq<Path>, trail: Path)
    requires WellFormed(sec, after) && after.state != NotStarted
    requires if thrown then after.state != CompletedSuccessfully else after.state != Failed
    requires Remaining(sec, after) + 1 == Remaining(sec, before)
    requires Entered(after) == Entered(before) + Under(sec.name, log) && (log == [] || log == [trail])
    ensures SectionRan(sec, before, after, thrown, Under(sec.name, log), [sec.name] + trail)
  {
    UnderOne(sec.name, trail);
    hide WellFormed, Remaining, Entered, Under;
    assert ([sec.name] + trail)[0] == sec.name;
  }

  lemma UnderOne(name: string, p: Path)
    ensures Under(name, []) == [] && Under(name, [p]) == [[name] + p]
  {
  }

  // A kid ran and completed the section.
  lemma CloseDoneWalk(sec: Section, before: Track, ts: seq<Track>, log: seq<Path>, trail: Path)
    requires WellFormed(sec, before) && !Complete(before) && sec.kids != [] && ts != []
    requires KidsDone(sec.kids, ts) && ts[|ts|-1].state != Failed && (log == [] || log == [trail])
    requires AllEntered(ts) == AllEntered(before.kids) + log
    requires AllRemaining(sec.kids, ts) + 1 == AllRemaining(sec.kids, before.kids)
    ensures SectionRan(sec, before, Track(sec.name, CompletedSuccessfully, ts), false,
                       Under(sec.name, log), [sec.name] + trail)
  {
    hide *;
    DoneRemaining(sec, before, ts);
    ClosedForGood(sec, ts);
    ClosedEntered(sec, before, ts, log);
    Ran(sec, before, Track(sec.name, CompletedSuccessfully, ts), false, log, trail);
  }

  lemma DoneRemaining(sec: Section, before: Track, ts: seq<Track>)
    requires WellFormed(sec, before) && !Complete(before) && sec.kids != [] && ts != []
    requires KidsDone(sec.kids, ts) && ts[|ts|-1].state != Failed
    requires AllRemaining(sec.kids, ts) + 1 == AllRemaining(sec.kids, before.kids)
    ensures Remaining(sec, before) == 1
  {
    hide WellFormed, KidsDone, AllRemaining, Remaining, Extra;
    BeforeOpening(sec, before);
    DoneEnteredAll(sec.kids, ts);
    LastIsNoFailure(sec.kids, ts);
  }

  // A kid ran and the section stays open.
  lemma CloseOpenWalk(sec: Section, before: Track, state: CycleState, ts: seq<Track>, thrown: bool, log: seq<Path>,
                      trail: Path)
    requires WellFormed(sec, before) && !Complete(before) && sec.kids != []
    requires KidsOk(sec.kids, ts) && ts != [] && (state == ExecutingChildren || state == NeedsAnotherRun)
    requires Complete(ts[|ts|-1]) ==> state == NeedsAnotherRun && ts[|ts|-1].state == Failed
    requires log == [] || log == [trail]
    requires AllEntered(ts) == AllEntered(before.kids) + log
    requires AllRemaining(sec.kids, ts) + 1 == AllRemaining(sec.kids, before.kids)
    ensures SectionRan(sec, before, Track(sec.name, state, ts), thrown, Under(sec.name, log), [sec.name] + trail)
  {
    hide *;
    BeforeOpening(sec, before);
    StillOpen(sec, state, ts);
    ClosedEntered(sec, before, ts, log);
    Ran(sec, before, Track(sec.name, state, ts), thrown, log, trail);
  }

  // Closing a section with kids after its walk.
  lemma CloseAfterWalk(sec: Section, before: Track, ts: seq<Track>, k: nat, state: CycleState, done: bool,
                       thrown: bool, log: seq<Path>, trail: Path)
    requires WellFormed(sec, before) && !Complete(before) && sec.kids != []
    requires Walk(sec.kids, before.kids, ts, k, state, done, thrown, log, trail) && WalkEnds(sec.kids, ts, k, thrown)
    ensures SectionRan(sec, before, Track(sec.name, CloseState(state, ts), ts), thrown,
                       Under(sec.name, log), [sec.name] + trail)
  {
    hide WellFormed, SectionRan, KidsOk, AllEntered, AllRemaining;
    if trail == [] {
      AllDone(sec.kids, ts);
      CloseEmptyWalk(sec, before);
      assert [sec.name] + trail == [sec.name];
    } else {
      assert thrown && k < |ts| ==> ts[|ts|-1].state == NotStarted;
      if CloseState(state, ts) == CompletedSuccessfully {
        LastComplete(sec.kids, ts);
        CloseDoneWalk(sec, before, ts, log, trail);
      } else {
        CloseOpenWalk(sec, before, state, ts, thrown, log, trail);
      }
    }
  }

  lemma AllDone(secs: seq<Section>, ts: seq<Track>)
    requires KidsOk(secs, ts) && |ts| == |secs| && forall i :: 0 <= i < |ts| ==> Complete(ts[i])
    ensures KidsDone(secs, ts)
  {
  }

  // Running a leaf.
  lemma LeafRan(sec: Section, before: Track)
    requires sec.kids == [] && WellFormed(sec, before) && !Complete(before)
    ensures before.state == NotStarted && before.kids == []
    ensures SectionRan(sec, before, Track(sec.name, if sec.fails then Failed else CompletedSuccessfully, []),
                       sec.fails, [[sec.name]], [sec.name])
  {
  }
}
