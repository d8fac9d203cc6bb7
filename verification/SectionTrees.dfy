/** Nested test sections and what the trackers remember about them between two cycles. */
module SectionTrees {
  import opened Collections

  // A section is known to its siblings by name. A section without kids is a leaf; it may throw.
  datatype Section = Section(name: string, kids: seq<Section>, fails: bool)

  datatype CycleState = NotStarted | Executing | ExecutingChildren | NeedsAnotherRun | CompletedSuccessfully | Failed

  // What a tracker says: its state and the kids discovered so far, in the order of discovery.
  datatype Track = Track(name: string, state: CycleState, kids: seq<Track>)

  type Path = seq<string>

  predicate IsComplete(state: CycleState) {
    state == CompletedSuccessfully || state == Failed
  }

  predicate Complete(t: Track) {
    IsComplete(t.state)
  }

  function Fresh(name: string): Track {
    Track(name, NotStarted, [])
  }

  predicate FailingLeaf(sec: Section) {
    sec.kids == [] && sec.fails
  }

  // Siblings have distinct names, on every level.
  predicate DistinctNames(secs: seq<Section>) {
    && (forall i, j :: 0 <= i < j < |secs| ==> secs[i].name != secs[j].name)
    && (forall i :: 0 <= i < |secs| ==> DistinctNames(secs[i].kids))
  }

  // ----- leaves -----

  function Under(name: string, paths: seq<Path>): (r: seq<Path>)
    ensures |r| == |paths| && forall i :: 0 <= i < |r| ==> r[i] == [name] + paths[i]
  {
    if paths == [] then [] else Under(name, paths[..|paths|-1]) + [[name] + paths[|paths|-1]]
  }

  // The leaves from left to right, each by the names on the way to it.
  function Leaves(sec: Section): seq<Path> {
    if sec.kids == [] then [[sec.name]] else Under(sec.name, AllLeaves(sec.kids))
  }

  function AllLeaves(secs: seq<Section>): seq<Path> {
    if secs == [] then [] else AllLeaves(secs[..|secs|-1]) + Leaves(secs[|secs|-1])
  }

  // The leaves a tracker has seen through to their end.
  function Entered(t: Track): seq<Path> {
    if t.kids == [] then (if Complete(t) then [[t.name]] else []) else Under(t.name, AllEntered(t.kids))
  }

  function AllEntered(ts: seq<Track>): seq<Path> {
    if ts == [] then [] else AllEntered(ts[..|ts|-1]) + Entered(ts[|ts|-1])
  }

  // ----- how many cycles are still to come -----

  // A section whose last kid is a failing leaf needs one more cycle just to be closed.
  function Extra(secs: seq<Section>): nat {
    if secs != [] && FailingLeaf(secs[|secs|-1]) then 1 else 0
  }

  function Cycles(sec: Section): nat {
    if sec.kids == [] then 1 else AllCycles(sec.kids) + Extra(sec.kids)
  }

  function AllCycles(secs: seq<Section>): nat {
    if secs == [] then 0 else AllCycles(secs[..|secs|-1]) + Cycles(secs[|secs|-1])
  }

  function Remaining(sec: Section, t: Track): nat {
    if t.state == NotStarted then Cycles(sec)
    else if Complete(t) || sec.kids == [] then 0
    else AllRemaining(sec.kids, t.kids) + Extra(sec.kids)
  }

  // Sections not discovered yet still have all their cycles to come.
  function AllRemaining(secs: seq<Section>, ts: seq<Track>): nat
    decreases secs
  {
    if secs == [] then 0
    else
      var k := |secs| - 1;
      AllRemaining(secs[..k], ts) + if k < |ts| then Remaining(secs[k], ts[k]) else Cycles(secs[k])
  }

  // ----- what holds between two cycles -----

  // The discovered kids are the first ones, and one is started only when all before it are complete.
  ghost predicate KidsOk(secs: seq<Section>, ts: seq<Track>)
    decreases secs, 0
  {
    && |ts| <= |secs|
    && (forall i :: 0 <= i < |ts| ==> WellFormed(secs[i], ts[i]))
    && (forall i, j :: 0 <= i < j < |ts| && ts[j].state != NotStarted ==> Complete(ts[i]))
  }

  ghost predicate WellFormed(sec: Section, t: Track)
    decreases sec, 1
  {
    && t.name == sec.name
    && match t.state
       case NotStarted => t.kids == []
       case Executing => false
       case Failed => FailingLeaf(sec) && t.kids == []
       case CompletedSuccessfully => KidsDone(sec.kids, t.kids) && !FailingLeaf(sec)
       case _ => KidsOk(sec.kids, t.kids) && t.kids != [] && (Complete(t.kids[|t.kids|-1]) ==> LeftToClose(t))
  }

  // All discovered kids are complete, the last one by failing.
  predicate LeftToClose(t: Track) {
    t.state == NeedsAnotherRun && t.kids != [] && t.kids[|t.kids|-1].state == Failed
  }

  ghost predicate KidsDone(secs: seq<Section>, ts: seq<Track>)
    decreases secs, 1
  {
    KidsOk(secs, ts) && |ts| == |secs| && forall i :: 0 <= i < |ts| ==> Complete(ts[i])
  }

  // ----- all leaves have been entered once a section is complete -----

  lemma {:induction false} CompleteEnteredAll(sec: Section, t: Track)
    requires WellFormed(sec, t) && Complete(t)
    ensures Entered(t) == Leaves(sec) && Remaining(sec, t) == 0
    decreases sec, 1
  {
    if sec.kids != [] {
      DoneEnteredAll(sec.kids, t.kids);
    }
  }

  lemma {:induction false} DoneEnteredAll(secs: seq<Section>, ts: seq<Track>)
    requires KidsDone(secs, ts)
    ensures AllEntered(ts) == AllLeaves(secs) && AllRemaining(secs, ts) == 0
    decreases secs, 0
  {
    if secs != [] {
      var k := |secs| - 1;
      DoneFront(secs, ts);
      DoneEnteredAll(secs[..k], ts[..k]);
      CompleteEnteredAll(secs[k], ts[k]);
      RemainingFront(secs[..k], ts, k);
    }
  }

  lemma DoneFront(secs: seq<Section>, ts: seq<Track>)
    requires KidsDone(secs, ts) && secs != []
    ensures KidsDone(secs[..|secs|-1], ts[..|ts|-1]) && WellFormed(secs[|secs|-1], ts[|ts|-1])
  {
    hide WellFormed;
    var front, first := secs[..|secs|-1], ts[..|ts|-1];
    assert KidsOk(secs, ts);
    forall i | 0 <= i < |first| ensures WellFormed(front[i], first[i]) && Complete(first[i]) {
      assert WellFormed(secs[i], ts[i]) && Complete(ts[i]);
    }
    assert forall i, j :: 0 <= i < j < |first| && first[j].state != NotStarted ==> Complete(first[i]);
  }

  lemma {:induction false} RemainingFront(secs: seq<Section>, ts: seq<Track>, k: nat)
    requires |secs| <= k <= |ts|
    ensures AllRemaining(secs, ts[..k]) == AllRemaining(secs, ts)
  {
    if secs != [] {
      RemainingFront(secs[..|secs|-1], ts, k);
    }
  }

  // ----- one kid moves on -----

  function KidAt(secs: seq<Section>, ts: seq<Track>, k: nat): Track
    requires k < |secs|
  {
    if k < |ts| then ts[k] else Fresh(secs[k].name)
  }

  function WithKid(ts: seq<Track>, k: nat, t: Track): seq<Track>
    requires k <= |ts|
  {
    if k < |ts| then ts[k := t] else ts + [t]
  }

  // The kids before k are complete, those after it have not been started.
  ghost predicate Frontier(ts: seq<Track>, k: nat) {
    && k <= |ts|
    && (forall i :: 0 <= i < k ==> Complete(ts[i]))
    && (forall i :: k < i < |ts| ==> ts[i].state == NotStarted)
  }

  lemma KidMoves(secs: seq<Section>, ts: seq<Track>, k: nat, t: Track)
    requires KidsOk(secs, ts) && k < |secs| && Frontier(ts, k) && WellFormed(secs[k], t)
    ensures KidsOk(secs, WithKid(ts, k, t))
  {
    hide WellFormed;
  }

  lemma {:induction false} RemainingMoves(secs: seq<Section>, ts: seq<Track>, n: nat, k: nat, t: Track)
    requires n <= |secs| && k <= |ts| && k < |secs|
    ensures AllRemaining(secs[..n], WithKid(ts, k, t)) ==
              AllRemaining(secs[..n], ts)
              + if k < n then Remaining(secs[k], t) - Remaining(secs[k], KidAt(secs, ts, k)) else 0
  {
    if n > 0 {
      RemainingMoves(secs, ts, n - 1, k, t);
      assert secs[..n][..n-1] == secs[..n-1];
      hide Remaining;
      assert k >= |ts| ==> Remaining(secs[k], Fresh(secs[k].name)) == Cycles(secs[k]) by {
        FreshRemaining(secs[k]);
      }
    }
  }

  lemma FreshRemaining(sec: Section)
    ensures Remaining(sec, Fresh(sec.name)) == Cycles(sec)
  {
  }

  lemma {:induction false} NothingEntered(ts: seq<Track>, k: nat)
    requires k <= |ts| && forall i :: k <= i < |ts| ==> ts[i].state == NotStarted && ts[i].kids == []
    ensures AllEntered(ts) == AllEntered(ts[..k])
  {
    if k == |ts| {
      assert ts[..k] == ts;
    } else {
      var n := |ts| - 1;
      NothingEntered(ts[..n], k);
      assert ts[..n][..k] == ts[..k];
      assert Entered(ts[n]) == [];
    }
  }

  lemma NotStartedIsBare(secs: seq<Section>, ts: seq<Track>, i: nat)
    requires KidsOk(secs, ts) && i < |ts| && ts[i].state == NotStarted
    ensures ts[i].kids == []
  {
    assert WellFormed(secs[i], ts[i]);
  }

  lemma EnteredUpTo(ts: seq<Track>, k: nat)
    requires k < |ts| && forall i :: k < i < |ts| ==> ts[i].state == NotStarted && ts[i].kids == []
    ensures AllEntered(ts) == AllEntered(ts[..k]) + Entered(ts[k])
  {
    NothingEntered(ts, k + 1);
    assert ts[..k+1][..k] == ts[..k];
  }

  // Two kid lists alike up to k, with nothing started after it, differ by what kid k has entered.
  lemma EnteredDiffers(ts: seq<Track>, ts': seq<Track>, k: nat, a: seq<Path>, log: seq<Path>)
    requires k <= |ts| && k < |ts'| && ts'[..k] == ts[..k]
    requires AllEntered(ts) == AllEntered(ts[..k]) + a
    requires AllEntered(ts') == AllEntered(ts'[..k]) + (a + log)
    ensures AllEntered(ts') == AllEntered(ts) + log
  {
    hide AllEntered;
  }

  lemma BareAfter(secs: seq<Section>, ts: seq<Track>, k: nat)
    requires KidsOk(secs, ts) && Frontier(ts, k)
    ensures forall i :: k < i < |ts| ==> ts[i].state == NotStarted && ts[i].kids == []
  {
    forall i | k < i < |ts| ensures ts[i].kids == [] {
      NotStartedIsBare(secs, ts, i);
    }
  }

  // What has been entered grows at its end.
  lemma EnteredMoves(secs: seq<Section>, ts: seq<Track>, k: nat, t: Track, log: seq<Path>)
    requires KidsOk(secs, ts) && k < |secs| && Frontier(ts, k)
    requires Entered(t) == Entered(KidAt(secs, ts, k)) + log
    ensures AllEntered(WithKid(ts, k, t)) == AllEntered(ts) + log
  {
    hide KidsOk, Entered, AllEntered;
    var ts', before := WithKid(ts, k, t), KidAt(secs, ts, k);
    BareAfter(secs, ts, k);
    EnteredUpTo(ts', k);
    if k < |ts| {
      EnteredUpTo(ts, k);
    } else {
      FreshEntered(secs[k]);
      assert ts[..k] == ts;
    }
    EnteredDiffers(ts, ts', k, Entered(before), log);
  }

  lemma FreshEntered(sec: Section)
    ensures Entered(Fresh(sec.name)) == []
  {
  }

  // ----- counts -----

  predicate NoFailures(secs: seq<Section>) {
    forall i :: 0 <= i < |secs| ==> !FailingLeaf(secs[i]) && NoFailures(secs[i].kids)
  }

  function Size(sec: Section): nat {
    1 + Sizes(sec.kids)
  }

  // The number of sections, on all levels.
  function Sizes(secs: seq<Section>): nat {
    if secs == [] then 0 else Sizes(secs[..|secs|-1]) + Size(secs[|secs|-1])
  }

  lemma {:induction false} CyclesBounded(secs: seq<Section>)
    ensures AllCycles(secs) <= Sizes(secs)
  {
    if secs != [] {
      var last := secs[|secs|-1];
      CyclesBounded(secs[..|secs|-1]);
      CyclesBounded(last.kids);
    }
  }

  // The sections, on all levels, whose last kid is a failing leaf.
  function LeftOpen(secs: seq<Section>): nat {
    if secs == [] then 0
    else LeftOpen(secs[..|secs|-1]) + LeftOpen(secs[|secs|-1].kids) + Extra(secs[|secs|-1].kids)
  }

  // Each leaf costs one cycle, each section whose last kid is a failing leaf one more.
  lemma {:induction false} CyclesCountLeaves(secs: seq<Section>)
    ensures AllCycles(secs) == |AllLeaves(secs)| + LeftOpen(secs)
  {
    if secs != [] {
      var last := secs[|secs|-1];
      CyclesCountLeaves(secs[..|secs|-1]);
      CyclesCountLeaves(last.kids);
    }
  }

  lemma {:induction false} NothingLeftOpen(secs: seq<Section>)
    requires NoFailures(secs)
    ensures LeftOpen(secs) == 0 && Extra(secs) == 0
  {
    if secs != [] {
      var front, last := secs[..|secs|-1], secs[|secs|-1];
      forall i | 0 <= i < |front| ensures !FailingLeaf(front[i]) && NoFailures(front[i].kids) {
        assert front[i] == secs[i];
      }
      NothingLeftOpen(front);
      NothingLeftOpen(last.kids);
    }
  }

  ghost predicate StartWith(paths: seq<Path>, name: string) {
    forall i :: 0 <= i < |paths| ==> paths[i] != [] && paths[i][0] == name
  }

  // With distinct sibling names no two leaves have the same path.
  lemma {:induction false} LeavesAreDistinct(secs: seq<Section>)
    requires DistinctNames(secs)
    ensures Distinct(AllLeaves(secs))
    ensures forall i :: 0 <= i < |AllLeaves(secs)| ==>
              AllLeaves(secs)[i] != [] && exists j :: 0 <= j < |secs| && secs[j].name == AllLeaves(secs)[i][0]
  {
    if secs != [] {
      var front, last := secs[..|secs|-1], secs[|secs|-1];
      LeavesAreDistinct(front);
      LeavesAreDistinct(last.kids);
      var a, b := AllLeaves(front), Leaves(last);
      assert Distinct(b) && StartWith(b, last.name) by {
        UnderKeeps(last.name, AllLeaves(last.kids));
      }
      forall i | 0 <= i < |a| ensures a[i] != [] && a[i][0] != last.name {
        var j :| 0 <= j < |front| && front[j].name == a[i][0];
        assert secs[j].name != last.name;
      }
      forall i | 0 <= i < |a + b| ensures exists j :: 0 <= j < |secs| && secs[j].name == (a + b)[i][0] {
        if i < |a| {
          var j :| 0 <= j < |front| && front[j].name == a[i][0];
          assert secs[j].name == a[i][0];
        } else {
          assert secs[|secs|-1].name == last.name;
        }
      }
    }
  }

  lemma UnderKeeps(name: string, paths: seq<Path>)
    requires Distinct(paths)
    ensures Distinct(Under(name, paths)) && StartWith(Under(name, paths), name)
  {
    var r := Under(name, paths);
    forall i, j | 0 <= i < j < |r| ensures r[i] != r[j] {
      assert r[i][1..] == paths[i] && r[j][1..] == paths[j];
    }
  }
}
