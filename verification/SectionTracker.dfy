/** The trackers of a test's sections and the loop that runs the test again until every leaf
    section has been entered. */
module SectionTracker {
  import opened Collections
  import opened SectionTrees
  import opened SectionWalk

  datatype RunState = NoRun | InCycle | CompletedCycle

  class TrackerContext {
    var current: Tracker?
    var runState: RunState

    constructor ()
      ensures current == null && runState == NoRun
    {
      current := null;
      runState := NoRun;
    }

    method StartCycle(root: Tracker)
      modifies this
      ensures current == root && runState == InCycle
    {
      current := root;
      runState := InCycle;
    }
  }

  /** One section seen so far. For the proofs, line holds the trackers above it, parent first, repr
      those of the whole subtree, and kids what the children say. */
  class Tracker {
    const name: string
    const parent: Tracker?
    ghost const line: seq<Tracker>
    var state: CycleState
    var children: seq<Tracker>
    ghost var repr: set<Tracker>
    ghost var kids: seq<Track>

    ghost function View(): Track
      reads this
    {
      Track(name, state, kids)
    }

    // line leads from the parent up to the root.
    ghost predicate Rooted()
      decreases |line|
    {
      if parent == null then line == []
      else line != [] && line[0] == parent && parent.line == line[1..] && parent.Rooted()
    }

    // The children hang below this tracker.
    ghost predicate HasKin()
      reads this
    {
      forall i :: 0 <= i < |children| ==> children[i].parent == this && children[i].line == [this] + line
    }

    // The state of the tracker itself is not constrained, so steps that change only that keep it.
    ghost predicate Valid()
      reads this, repr
      decreases repr
    {
      && this in repr && |kids| == |children|
      && (forall i :: 0 <= i < |children| ==>
            && children[i] in repr && children[i].repr <= repr && this !in children[i].repr
            && children[i].View() == kids[i] && children[i].Valid())
      && HasKin()
      && (forall i, j :: 0 <= i < j < |children| ==> children[i].repr !! children[j].repr)
    }

    constructor (name: string, parent: Tracker?)
      requires parent != null ==> parent.Rooted()
      ensures this.name == name && this.parent == parent && Rooted()
      ensures line == if parent == null then [] else [parent] + parent.line
      ensures state == NotStarted && children == [] && kids == [] && repr == {this} && Valid()
    {
      this.name, this.parent := name, parent;
      line := if parent == null then [] else [parent] + parent.line;
      state, children := NotStarted, [];
      repr, kids := {this}, [];
    }

    // Valid but for what is noted about child k, whose subtree may have changed and grown.
    ghost predicate ValidBut(k: nat)
      reads this, repr, children, set i, o | 0 <= i < |children| && o in children[i].repr :: o
    {
      && this in repr && |kids| == |children| && k < |children|
      && (forall i :: 0 <= i < |children| ==>
            && this !in children[i].repr && children[i].Valid()
            && (i != k ==> children[i].repr <= repr && children[i].View() == kids[i]))
      && (forall i, j :: 0 <= i < j < |children| ==> children[i].repr !! children[j].repr)
      && HasKin()
    }

    // Notes the change of child k.
    ghost method Note(k: nat)
      requires ValidBut(k)
      modifies this`kids, this`repr
      ensures Valid()
      ensures kids == old(kids)[k := children[k].View()] && repr == old(repr) + children[k].repr
    {
      kids := kids[k := children[k].View()];
      repr := repr + children[k].repr;
    }

    method AddChild(c: Tracker)
      requires Valid() && c.Valid() && c.repr == {c} && c !in repr && c.parent == this && c.line == [this] + line
      modifies this
      ensures Valid() && state == old(state)
      ensures children == old(children) + [c] && kids == old(kids) + [c.View()] && repr == old(repr) + {c}
    {
      children := children + [c];
      kids := kids + [c.View()];
      repr := repr + {c};
    }

    predicate IsOpen()
      reads this
    {
      StateOpen(state)
    }

    // The first child of that name, if there is one.
    method FindChild(name: string) returns (k: nat)
      ensures k <= |children| && (forall i :: 0 <= i < k ==> children[i].name != name)
      ensures k < |children| ==> children[k].name == name
    {
      k := 0;
      while k < |children| && children[k].name != name
        invariant k <= |children| && forall i :: 0 <= i < k ==> children[i].name != name
      {
        k := k + 1;
      }
    }

    // The trackers above are others, each with fewer above it.
    lemma Ancestors(a: Tracker)
      requires Rooted() && a in line
      ensures a.Rooted() && |a.line| < |line| && a != this
      ensures parent != null && (a == parent || a in parent.line)
      decreases |line|
    {
      if a != parent {
        parent.Ancestors(a);
      }
    }

    // From here upward, the trackers below the first that is executing children.
    ghost function Upward(): (ts: set<Tracker>)
      requires Rooted()
      reads this, line
      ensures forall t :: t in ts ==> t == this || t in line
      decreases |line|
    {
      if state == ExecutingChildren then {}
      else {this} + if parent == null then {} else parent.Upward()
    }

    // Everything from here upward is executing children, up to where that was so already.
    method OpenChild()
      requires Rooted()
      modifies Upward()`state
      ensures state == ExecutingChildren
      ensures forall t :: t in old(Upward()) ==> t.state == ExecutingChildren
      decreases |line|
    {
      if state != ExecutingChildren {
        state := ExecutingChildren;
        if parent != null {
          NotAbove();
          parent.OpenChild();
        }
      }
    }

    lemma NotAbove()
      requires Rooted()
      ensures this !in line
      ensures parent != null ==> parent in line && parent != this && forall a :: a in parent.line ==> a in line
    {
      if this in line {
        Ancestors(this);
      }
    }

    method Open(ctx: TrackerContext)
      requires Rooted()
      modifies ctx`current, this`state, (if parent == null then {} else parent.Upward())`state
      ensures state == Executing && ctx.current == this
      ensures parent != null ==> parent.state == ExecutingChildren
      ensures parent != null ==> forall t :: t in old(parent.Upward()) ==> t.state == ExecutingChildren
    {
      NotAbove();
      state := Executing;
      ctx.current := this;
      if parent != null {
        parent.OpenChild();
      }
    }

    // ----- closing -----

    predicate LastDone()
      reads this, children
    {
      children == [] || IsComplete(children[|children|-1].state)
    }

    // Each tracker above has the rest of the line above it.
    lemma LineFacts(j: nat)
      requires Rooted() && j < |line|
      ensures line[j].Rooted() && line[j].line == line[j+1..]
      ensures j + 1 < |line| ==> line[j].parent == line[j+1]
      ensures (if j == 0 then this else line[j-1]).parent == line[j]
      decreases |line|
    {
      if j > 0 {
        parent.LineFacts(j - 1);
      }
    }

    // The trackers from this one up to the n-th above it.
    ghost function Path(n: nat): (path: seq<Tracker>)
      requires n <= |line|
      ensures |path| == n + 1 && path[0] == this && forall j :: 0 < j <= n ==> path[j] == line[j-1]
    {
      [this] + line[..n]
    }

    // The tracker itself, when nothing below it is open; that a closed section is closed again is
    // a logic error, reported and without effect.
    method Leave(ctx: TrackerContext) returns (ok: bool)
      requires parent != null && ctx.current == this
      modifies ctx, this`state
      ensures ok <==> StateOpen(old(state))
      ensures ok ==>
                state == Closed(old(state), old(LastDone())) && ctx.current == parent && ctx.runState == CompletedCycle
      ensures !ok ==> state == old(state) && ctx.current == this && ctx.runState == old(ctx.runState)
    {
      if state == NotStarted || state == CompletedSuccessfully || state == Failed {
        return false;
      }
      match state {
        case Executing =>
          state := CompletedSuccessfully;
        case ExecutingChildren =>
          if children == [] || IsComplete(children[|children|-1].state) {
            state := CompletedSuccessfully;
          }
        case _ =>
      }
      ctx.current := parent;
      ctx.runState := CompletedCycle;
      ok := true;
    }

    method Fail(ctx: TrackerContext)
      requires parent != null && parent != this
      modifies ctx, this`state, parent`state
      ensures state == Failed && parent.state == NeedsAnotherRun && ctx.current == parent
      ensures ctx.runState == CompletedCycle
    {
      state := Failed;
      parent.state := NeedsAnotherRun;
      ctx.current := parent;
      ctx.runState := CompletedCycle;
    }

    /** Closes the current tracker and those above it up to this one, the n-th above it, each
        deciding by the last child it has then. A section among them that is not open is a logic
        error: the ones below it have been closed, it and those above are untouched. */
    method Close(ctx: TrackerContext, ghost n: nat) returns (ok: bool)
      requires parent != null && ctx.current != null && ctx.current.Rooted()
      requires n <= |ctx.current.line| && this == ctx.current.Path(n)[n]
      requires forall t :: t in ctx.current.Path(n) ==> t.HasKin()
      modifies ctx, (set t | t in ctx.current.Path(n))`state
      ensures var path := old(ctx.current.Path(n));
              var was := old(States(ctx.current.Path(n)));
              && (ok <==> forall j :: 0 <= j <= n ==> StateOpen(was[j]))
              && (ok ==> ClosedBelow(path, was, n + 1) && ctx.current == parent && ctx.runState == CompletedCycle)
              && (!ok ==> exists i ::
                    0 <= i <= n && !StateOpen(was[i]) && ClosedBelow(path, was, i) && ctx.current == path[i])
    {
      ghost var first, path := ctx.current, ctx.current.Path(n);
      ghost var was := States(path);
      ghost var i := 0;
      hide ClosedBelow, Rooted;
      NothingClosed(path, was);
      PathLengths(first, n);
      while ctx.current != this
        invariant i <= n && ctx.current == path[i] && ClosedBelow(path, was, i)
        invariant forall t :: t in path ==> t.HasKin()
        invariant forall j :: 0 <= j < i ==> StateOpen(was[j])
        decreases n - i
      {
        assert path[n] == this && path[i].parent == path[i+1];
        ok := CloseNext(ctx, ctx.current, first, n, was, i);
        if !ok {
          return;
        }
        i := i + 1;
      }
      PathEnds(path, first, n, i);
      ok := CloseNext(ctx, this, first, n, was, n);
    }
  }

  lemma NothingClosed(path: seq<Tracker>, was: seq<CycleState>)
    requires |was| == |path| && forall j :: 0 <= j < |path| ==> path[j].state == was[j]
    ensures ClosedBelow(path, was, 0)
  {
  }

  // Closes t, the i-th tracker on the way up from first.
  method CloseNext(ctx: TrackerContext, t: Tracker, ghost first: Tracker, ghost n: nat, ghost was: seq<CycleState>,
                   ghost i: nat)
    returns (ok: bool)
    requires ctx.current == t && t.parent != null
    requires first.Rooted() && i <= n <= |first.line| && |was| == n + 1 && t == first.Path(n)[i]
    requires ClosedBelow(first.Path(n), was, i) && forall x :: x in first.Path(n) ==> x.HasKin()
    modifies ctx, t`state
    ensures ok <==> StateOpen(was[i])
    ensures ok ==> ClosedBelow(first.Path(n), was, i + 1) && ctx.current == t.parent && ctx.runState == CompletedCycle
    ensures !ok ==> ClosedBelow(first.Path(n), was, i) && ctx.current == t
    ensures ok && i < n ==> t.parent == first.Path(n)[i+1]
  {
    hide Tracker.Rooted, Closed;
    ghost var path := first.Path(n);
    PathLengths(first, n);
    forall j, c | 0 <= j <= i && c in path[j].children ensures c != t {
      assert path[j] in path && path[j].HasKin();
      assert |c.line| == |path[j].line| + 1;
    }
    ok := t.Leave(ctx);
    forall j | 0 <= j <= i ensures path[j].LastDone() == old(path[j].LastDone()) {
      var kids := path[j].children;
      assert kids != [] ==> kids[|kids|-1] in old(path[j].children);
    }
  }

  // The trackers on a path have fewer and fewer above them.
  lemma PathLengths(first: Tracker, n: nat)
    requires first.Rooted() && n <= |first.line|
    ensures var path := first.Path(n);
            && (forall j :: 0 <= j <= n ==> |path[j].line| == |first.line| - j)
            && (forall j :: 0 <= j < n ==> path[j].parent == path[j+1])
  {
    forall j | 0 <= j < n
      ensures |first.line[j].line| == |first.line| - j - 1 && first.Path(n)[j].parent == first.Path(n)[j+1]
    {
      first.LineFacts(j);
    }
  }

  // A tracker occurs only once on its path.
  lemma PathEnds(path: seq<Tracker>, first: Tracker, n: nat, i: nat)
    requires first.Rooted() && n <= |first.line| && path == first.Path(n) && i <= n && path[i] == path[n]
    ensures i == n
  {
    if i > 0 {
      first.LineFacts(i - 1);
    }
    if n > 0 {
      first.LineFacts(n - 1);
    }
  }

  predicate StateOpen(state: CycleState) {
    state != NotStarted && !IsComplete(state)
  }

  ghost function States(path: seq<Tracker>): (r: seq<CycleState>)
    reads path
    ensures |r| == |path| && forall j :: 0 <= j < |path| ==> r[j] == path[j].state
  {
    seq(|path|, j requires 0 <= j < |path| reads path => path[j].state)
  }

  ghost function KidsOf(path: seq<Tracker>): set<Tracker>
    reads path
  {
    set t, c | t in path && c in t.children :: c
  }

  // The first i trackers of the path were open and have been closed, the others are as they were.
  ghost predicate ClosedBelow(path: seq<Tracker>, was: seq<CycleState>, i: nat)
    requires i <= |path| == |was|
    reads path, KidsOf(path)
  {
    && (forall j :: 0 <= j < i ==>
          && StateOpen(was[j])
          && (assert path[j] in path; assert forall c :: c in path[j].children ==> c in KidsOf(path);
              path[j].state == Closed(was[j], path[j].LastDone())))
    && (forall j :: i <= j < |path| ==> path[j].state == was[j])
  }

  // The position of a name among the children, and what is known about it.
  ghost predicate PlaceOf(p: Tracker, name: string, k: nat)
    reads p, p.children
  {
    && k <= |p.children|
    && (k < |p.children| ==> p.children[k].name == name)
    && (forall i :: 0 <= i < |p.children| && i != k ==> p.children[i].name != name)
  }

  // The trackers above p are outside its subtree.
  ghost predicate Above(p: Tracker)
    reads p
  {
    p.Rooted() && forall a :: a in p.line ==> a !in p.repr
  }

  // Opening a child of p reaches no further up than p.
  ghost predicate MayOpen(p: Tracker)
    reads p, p.parent
  {
    Above(p) && (p.parent != null ==> p.parent.state == ExecutingChildren)
  }

  lemma UpwardOfOpen(p: Tracker)
    requires MayOpen(p)
    ensures p.Upward() <= {p}
  {
  }

  function KidOr(ts: seq<Track>, k: nat, name: string): Track {
    if k < |ts| then ts[k] else Fresh(name)
  }

  // A child of a valid tracker, seen on its own.
  lemma ChildOf(p: Tracker, i: nat)
    requires p.Valid() && i < |p.children|
    ensures var c := p.children[i];
            c.Valid() && c in c.repr && c.repr <= p.repr && p !in c.repr && c.parent == p && c.View() == p.kids[i]
    ensures Above(p) ==> Above(p.children[i])
    ensures forall j :: 0 <= j < |p.children| && j != i ==> p.children[j].repr !! p.children[i].repr
  {
  }

  method OpenKid(ctx: TrackerContext, p: Tracker, c: Tracker, ghost k: nat)
    requires p.Valid() && Above(p) && k < |p.children| && c == p.children[k]
    modifies ctx`current, p, p.repr, p.Upward()`state
    ensures forall t :: t in old(p.Upward()) ==> t.state == ExecutingChildren
    ensures p.Valid() && p.repr == old(p.repr) && p.children == old(p.children)
    ensures p.kids == old(p.kids)[k := old(p.kids)[k].(state := Executing)]
    ensures p.state == ExecutingChildren && ctx.current == c
  {
    hide Tracker.Rooted, Tracker.Upward;
    ChildOf(p, k);
    forall i | 0 <= i < |p.children| ensures c !in p.children[i].repr || i == k {
      assert i != k ==> p.children[i].repr !! c.repr;
    }
    c.Open(ctx);
    assert p.ValidBut(k);
    p.Note(k);
  }

  // Finds or discovers the child of the current tracker with that name, and opens it unless the
  // cycle or the child is complete.
  method Acquire(ctx: TrackerContext, name: string, ghost k: nat) returns (c: Tracker)
    requires ctx.current != null && ctx.current.Valid() && Above(ctx.current) && PlaceOf(ctx.current, name, k)
    modifies ctx`current, ctx.current, ctx.current.repr, ctx.current.Upward()`state
    ensures ctx.current != old(ctx.current) ==>
              forall t :: t in old(ctx.current.Upward()) ==> t.state == ExecutingChildren
    ensures var p := old(ctx.current);
            var before := KidOr(old(ctx.current.kids), k, name);
            var opens := ctx.runState != CompletedCycle && !Complete(before);
            && p.Valid() && old(ctx.current.repr) <= p.repr && fresh(p.repr - old(ctx.current.repr))
            && k < |p.children| && p.children[k] == c && c.name == name
            && p.kids == WithKid(old(ctx.current.kids), k, if opens then before.(state := Executing) else before)
            && p.state == (if opens then ExecutingChildren else old(ctx.current.state))
            && ctx.current == (if opens then c else p)
  {
    hide Tracker.Valid, Tracker.Rooted, WithKid;
    var p := ctx.current;
    ChildCount(p);
    c := FindOrAdd(p, name, k);
    ChildOf(p, k);
    ChildCount(p);
    Replaced(old(p.kids), k, KidOr(old(p.kids), k, name), Executing);
    if ctx.runState != CompletedCycle && !IsComplete(c.state) {
      OpenKid(ctx, p, c, k);
    }
  }

  lemma Replaced(ts: seq<Track>, k: nat, t: Track, state: CycleState)
    requires k <= |ts|
    ensures k < |WithKid(ts, k, t)| && WithKid(ts, k, t)[k] == t
    ensures WithKid(ts, k, t)[k := t.(state := state)] == WithKid(ts, k, t.(state := state))
  {
  }

  // The child of that name, discovered now if it is new.
  method FindOrAdd(p: Tracker, name: string, ghost k: nat) returns (c: Tracker)
    requires p.Valid() && Above(p) && PlaceOf(p, name, k)
    modifies p
    ensures p.Valid() && Above(p) && old(p.repr) <= p.repr && fresh(p.repr - old(p.repr)) && p.state == old(p.state)
    ensures p.Upward() == old(p.Upward())
    ensures p.kids == WithKid(old(p.kids), k, KidOr(old(p.kids), k, name))
    ensures k < |p.children| && p.children[k] == c && c.name == name
  {
    var j := p.FindChild(name);
    if j == |p.children| {
      c := new Tracker(name, p);
      p.AddChild(c);
    }
    c := p.children[j];
    assert j == k;
    p.NotAbove();
  }

  // The children of a tracker stand in the places of the sections they are for.
  lemma PlaceKnown(p: Tracker, secs: seq<Section>, k: nat)
    requires p.Valid() && KidsOk(secs, p.kids) && k < |secs| && k <= |p.children| && DistinctNames(secs)
    ensures PlaceOf(p, secs[k].name, k) && KidOr(p.kids, k, secs[k].name) == KidAt(secs, p.kids, k)
    ensures WellFormed(secs[k], KidAt(secs, p.kids, k))
  {
    forall i | 0 <= i < |p.children| ensures p.children[i].name == secs[i].name {
      assert WellFormed(secs[i], p.kids[i]) && p.children[i].View() == p.kids[i];
    }
    hide Tracker.Valid, KidsOk;
    assert WellFormed(secs[k], Fresh(secs[k].name));
  }

  lemma DistinctKids(secs: seq<Section>, k: nat)
    requires DistinctNames(secs) && k < |secs|
    ensures DistinctNames(secs[k].kids)
  {
  }

  lemma WalkStarts(secs: seq<Section>, ts0: seq<Track>)
    requires KidsOk(secs, ts0)
    ensures Walk(secs, ts0, ts0, 0, Executing, false, false, [], [])
  {
    hide KidsOk;
  }

  // What the next kid is like when it is asked for.
  lemma WalkAsks(secs: seq<Section>, ts0: seq<Track>, ts: seq<Track>, k: nat, state: CycleState, done: bool,
                 log: seq<Path>, trail: Path)
    requires Walk(secs, ts0, ts, k, state, done, false, log, trail) && k < |secs|
    ensures KidsOk(secs, ts) && k <= |ts|
    ensures !done ==> ts == ts0 && log == [] && trail == [] && forall i :: 0 <= i < k ==> Complete(ts[i])
    ensures done ==> KidAt(secs, ts, k).state == NotStarted
  {
    hide KidsOk;
  }

  lemma WalkFinished(secs: seq<Section>, ts0: seq<Track>, ts: seq<Track>, k: nat, state: CycleState, done: bool,
                     thrown: bool, log: seq<Path>, trail: Path)
    requires Walk(secs, ts0, ts, k, state, done, thrown, log, trail) && (thrown || k == |secs|)
    ensures WalkEnds(secs, ts, k, thrown)
  {
  }

  lemma WalkLeavesOpen(secs: seq<Section>, ts0: seq<Track>, ts: seq<Track>, k: nat, state: CycleState, done: bool,
                       thrown: bool, log: seq<Path>, trail: Path)
    requires Walk(secs, ts0, ts, k, state, done, thrown, log, trail)
    ensures state == Executing || state == ExecutingChildren || state == NeedsAnotherRun
  {
    hide KidsOk;
  }

  lemma ChildCount(p: Tracker)
    requires p.Valid()
    ensures |p.kids| == |p.children|
  {
  }

  lemma WalkPasses(secs: seq<Section>, ts0: seq<Track>, ts: seq<Track>, k: nat, state: CycleState, done: bool,
                   log: seq<Path>, trail: Path)
    requires Walk(secs, ts0, ts, k, state, done, false, log, trail) && k < |secs|
    requires done || Complete(KidAt(secs, ts, k))
    ensures k <= |ts| && Walk(secs, ts0, WithKid(ts, k, KidAt(secs, ts, k)), k + 1, state, done, false, log, trail)
  {
    if k < |ts| {
      WalkSkips(secs, ts0, ts, k, state, done, log, trail);
      assert WithKid(ts, k, ts[k]) == ts;
    } else {
      WalkDiscovers(secs, ts0, ts, k, state, done, log, trail);
    }
    hide KidsOk;
  }

  lemma TestStarts(test: Section)
    ensures var before := Fresh(test.name);
            WellFormed(test, before) && Entered(before) == [] && Remaining(test, before) == Cycles(test)
            && !Complete(before)
  {
  }

  lemma EmptyPlace(root: Tracker, name: string)
    requires root.children == []
    ensures PlaceOf(root, name, 0)
  {
  }

  lemma OnePlaceStays(root: Tracker, test: Section)
    requires root.Valid() && |root.kids| == 1 && WellFormed(test, root.kids[0])
    ensures PlaceOf(root, test.name, 0)
  {
    ChildOf(root, 0);
  }

  lemma CycleRan(test: Section, before: Track, after: Track, thrown: bool, log: seq<Path>, trail: Path)
    requires SectionRan(test, before, after, thrown, log, trail) && !test.fails
    ensures WellFormed(test, after) && Entered(after) == Entered(before) + log
    ensures Remaining(test, after) + 1 == Remaining(test, before)
    ensures log == [] || log == [trail]
    ensures Complete(after) <==> after.state == CompletedSuccessfully
  {
  }

  lemma TestLeavesDistinct(test: Section)
    requires DistinctNames(test.kids)
    ensures Distinct(Leaves(test))
  {
    LeavesAreDistinct(test.kids);
    UnderKeeps(test.name, AllLeaves(test.kids));
  }

  lemma TestEnds(test: Section, t: Track)
    requires WellFormed(test, t) && Complete(t) && !test.fails
    ensures Entered(t) == Leaves(test) && Remaining(test, t) == 0
    ensures Cycles(test) <= Sizes(test.kids) + 1
    ensures NoFailures(test.kids) ==> Cycles(test) == |Leaves(test)|
  {
    CompleteEnteredAll(test, t);
    CyclesBounded(test.kids);
    CyclesCountLeaves(test.kids);
    if NoFailures(test.kids) {
      NothingLeftOpen(test.kids);
    }
  }

  // Closing the tracker that is current: with sections only, nothing below it is ever open then.
  method CloseCurrent(ctx: TrackerContext, c: Tracker) returns (ok: bool)
    requires c.parent != null && ctx.current == c && c.Valid() && c.Rooted()
    modifies ctx, c`state
    ensures ok <==> old(c.IsOpen())
    ensures ok ==>
              c.state == CloseState(old(c.state), c.kids) && ctx.current == c.parent && ctx.runState == CompletedCycle
    ensures c.Valid()
  {
    ghost var path := c.Path(0);
    assert path == [c];
    assert c.children != [] ==> c.children[|c.children|-1].View() == c.kids[|c.kids|-1];
    ok := c.Close(ctx, 0);
    assert c.children != [] ==> c.children[|c.children|-1].View() == c.kids[|c.kids|-1];
  }

  class RunContext {
    const trackers: TrackerContext
    var active: seq<Tracker>     // the sections the test is in
    var unfinished: nat          // sections left by a throw in this cycle

    constructor ()
      ensures fresh(trackers) && active == [] && unfinished == 0
    {
      trackers := new TrackerContext();
      active, unfinished := [], 0;
    }

    method SectionStarted(name: string, ghost k: nat) returns (started: bool)
      requires trackers.current != null && trackers.current.Valid() && Above(trackers.current)
      requires PlaceOf(trackers.current, name, k)
      modifies this`active, trackers`current, trackers.current, trackers.current.repr, trackers.current.Upward()`state
      ensures var p := old(trackers.current);
              var before := KidOr(old(trackers.current.kids), k, name);
              var opens := trackers.runState != CompletedCycle && !Complete(before);
              && p.Valid() && old(trackers.current.repr) <= p.repr && fresh(p.repr - old(trackers.current.repr))
              && k < |p.children|
              && p.kids == WithKid(old(trackers.current.kids), k, if opens then before.(state := Executing) else before)
              && p.state == (if opens then ExecutingChildren else old(trackers.current.state))
              && trackers.current == (if opens then p.children[k] else p)
              && started == p.children[k].IsOpen()
              && active == old(active) + if started then [p.children[k]] else []
    {
      var c := Acquire(trackers, name, k);
      started := c.IsOpen();
      if started {
        active := active + [c];
      }
    }

    method SectionEnded() returns (ok: bool)
      requires active != [] ==>
                 var c := active[|active|-1];
                 && c.parent != null && trackers.current == c && c.Valid() && c.Rooted()
      modifies this`active, trackers, (if active != [] then {active[|active|-1]} else {})`state
      ensures old(active) == [] ==>
                ok && active == [] && trackers.current == old(trackers.current)
                && trackers.runState == old(trackers.runState)
      ensures old(active) != [] ==>
                var c := old(active[|active|-1]);
                && active == old(active[..|active|-1])
                && ok == old(c.IsOpen())
                && (ok ==> c.state == CloseState(old(c.state), c.kids)
                           && trackers.current == c.parent && trackers.runState == CompletedCycle)
    {
      ok := true;
      if active != [] {
        var c := active[|active|-1];
        ok := CloseCurrent(trackers, c);
        active := active[..|active|-1];
      }
    }

    // The innermost section that is left by a throw fails, those around it are closed.
    method SectionEndedEarly() returns (ok: bool)
      requires active != []
      requires var c := active[|active|-1]; c.parent != null && trackers.current == c && c.Valid() && c.Rooted()
      modifies this, trackers, {active[|active|-1], active[|active|-1].parent}`state
      ensures var c := old(active[|active|-1]);
              && active == old(active[..|active|-1]) && unfinished == old(unfinished) + 1
              && (if old(unfinished) == 0 then ok && c.state == Failed && c.parent.state == NeedsAnotherRun
                  else ok == old(c.IsOpen()) && c.parent.state == old(c.parent.state)
                       && (ok ==> c.state == CloseState(old(c.state), c.kids)))
              && (ok ==> trackers.current == c.parent && trackers.runState == CompletedCycle)
    {
      var c := active[|active|-1];
      if unfinished == 0 {
        c.NotAbove();
        c.Fail(trackers);
        ok := true;
      } else {
        ok := CloseCurrent(trackers, c);
      }
      active := active[..|active|-1];
      unfinished := unfinished + 1;
    }

    // Runs the kids of the open section t, one sectionStarted call after the other, until the end
    // or a throw.
    method RunKids(secs: seq<Section>, t: Tracker) returns (thrown: bool, log: seq<Path>, trail: Path, ghost k: nat)
      requires t == trackers.current && t.Valid() && MayOpen(t) && t.state == Executing
      requires trackers.runState == InCycle && unfinished == 0
      requires DistinctNames(secs) && KidsOk(secs, t.kids)
      modifies this, trackers, t, t.repr
      ensures t.Valid() && old(t.repr) <= t.repr && fresh(t.repr - old(t.repr))
      ensures trackers.current == t && active == old(active) && (unfinished == 0 <==> !thrown)
      ensures Walk(secs, old(t.kids), t.kids, k, t.state, trackers.runState == CompletedCycle, thrown, log, trail)
      ensures WalkEnds(secs, t.kids, k, thrown)
      decreases secs, 0
    {
      hide Walk, Tracker.Valid, KidsOk;
      thrown, log, trail, k := false, [], [], 0;
      var i := 0;
      ghost var ts0 := t.kids;
      WalkStarts(secs, ts0);
      while i < |secs| && !thrown
        invariant i == k <= |secs|
        invariant t.Valid() && MayOpen(t) && old(t.repr) <= t.repr && fresh(t.repr - old(t.repr))
        invariant trackers.current == t && active == old(active) && (unfinished == 0 <==> !thrown)
        invariant trackers.runState != NoRun
        invariant Walk(secs, ts0, t.kids, k, t.state, trackers.runState == CompletedCycle, thrown, log, trail)
        decreases |secs| - i
      {
        ghost var ts, done := t.kids, trackers.runState == CompletedCycle;
        WalkAsks(secs, ts0, ts, k, t.state, done, log, trail);
        ChildCount(t);
        PlaceKnown(t, secs, k);
        DistinctKids(secs, k);
        ghost var ran;
        var log', trail';
        ran, thrown, log', trail' := RunSection(secs[i], k);
        if ran {
          WalkOpens(secs, ts, k, t.kids[k], thrown, log', trail');
          assert log + log' == log' && trail + trail' == trail';
        } else {
          WalkPasses(secs, ts0, ts, k, t.state, done, log, trail);
          assert log + log' == log && trail + trail' == trail;
        }
        log, trail := log + log', trail + trail';
        i, k := i + 1, k + 1;
      }
      WalkFinished(secs, ts0, t.kids, k, t.state, trackers.runState == CompletedCycle, thrown, log, trail);
    }

    // One section of the body: asks for it, and runs it if it has been opened.
    method RunSection(sec: Section, ghost k: nat) returns (ghost ran: bool, thrown: bool, log: seq<Path>, trail: Path)
      requires trackers.current != null && trackers.current.Valid() && MayOpen(trackers.current)
      requires PlaceOf(trackers.current, sec.name, k) && DistinctNames(sec.kids)
      requires unfinished == 0 && trackers.runState != NoRun
      requires var before := KidOr(trackers.current.kids, k, sec.name);
               WellFormed(sec, before)
               && (trackers.runState == CompletedCycle ==> before.state == NotStarted || Complete(before))
      modifies this, trackers, trackers.current, trackers.current.repr
      ensures var p := old(trackers.current);
              && p.Valid() && old(trackers.current.repr) <= p.repr && fresh(p.repr - old(trackers.current.repr))
              && trackers.current == p && active == old(active) && (unfinished == 0 <==> !thrown)
      ensures var p := old(trackers.current);
              var kids := old(trackers.current.kids);
              var before := KidOr(kids, k, sec.name);
              && ran == (old(trackers.runState) == InCycle && !Complete(before))
              && k < |p.kids| && p.kids == WithKid(kids, k, p.kids[k])
              && (!ran ==> !thrown && log == [] && trail == [] && p.kids[k] == before
                           && p.state == old(trackers.current.state) && trackers.runState == old(trackers.runState))
              && (ran ==> SectionRan(sec, before, p.kids[k], thrown, log, trail)
                          && p.state == ParentState(sec, thrown) && trackers.runState == CompletedCycle)
      decreases sec, 4
    {
      hide Tracker.Valid, WellFormed, SectionRan, DistinctNames;
      var p := trackers.current;
      ghost var before := KidOr(p.kids, k, sec.name);
      UpwardOfOpen(p);
      var started := SectionStarted(sec.name, k);
      ran, thrown, log, trail := started, false, [], [];
      ChildOf(p, k);
      ChildCount(p);
      if started {
        thrown, log, trail := RunOpened(sec, p, k, before);
      }
    }

    // The section just opened is child k of p.
    method RunOpened(sec: Section, p: Tracker, ghost k: nat, ghost before: Track)
      returns (thrown: bool, log: seq<Path>, trail: Path)
      requires p.Valid() && Above(p) && k < |p.children| && trackers.current == p.children[k]
      requires p.state == ExecutingChildren
      requires active != [] && active[|active|-1] == p.children[k] && trackers.runState == InCycle && unfinished == 0
      requires DistinctNames(sec.kids) && WellFormed(sec, before) && !Complete(before)
      requires |p.kids| == |p.children| && p.kids[k] == before.(state := Executing)
      modifies this, trackers, p, p.repr
      ensures p.Valid() && old(p.repr) <= p.repr && fresh(p.repr - old(p.repr))
      ensures k < |p.kids| && p.kids == old(p.kids)[k := p.kids[k]]
      ensures SectionRan(sec, before, p.kids[k], thrown, log, trail) && p.state == ParentState(sec, thrown)
      ensures trackers.current == p && trackers.runState == CompletedCycle
      ensures active == old(active[..|active|-1]) && (unfinished == 0 <==> !thrown)
      decreases sec, 3
    {
      hide SectionRan, DistinctNames;
      assert before.name == sec.name;
      hide WellFormed;
      var c := active[|active|-1];
      ChildOf(p, k);
      thrown, log, trail := RunBody(sec, c, before);
      forall i | 0 <= i < |p.children|
        ensures p !in p.children[i].repr && p.children[i].Valid()
        ensures i != k ==> p.children[i].repr <= p.repr && p.children[i].View() == p.kids[i]
      {
      }
      assert p.ValidBut(k);
      p.Note(k);
    }

    // What is inside section c, which has just been opened: a leaf, or its kids. Leaving it then,
    // by failing or by closing, completes its run.
    method RunInside(sec: Section, c: Tracker, ghost before: Track) returns (thrown: bool, log: seq<Path>, trail: Path)
      requires c == trackers.current && c.Valid() && MayOpen(c) && c.state == Executing && c.name == sec.name
      requires trackers.runState == InCycle && unfinished == 0
      requires DistinctNames(sec.kids) && WellFormed(sec, before) && !Complete(before) && c.kids == before.kids
      modifies this, trackers, c, c.repr
      ensures c.Valid() && old(c.repr) <= c.repr && fresh(c.repr - old(c.repr))
      ensures trackers.current == c && active == old(active)
      ensures c.IsOpen() && thrown == (unfinished > 0 || FailingLeaf(sec)) && (unfinished > 0 ==> !FailingLeaf(sec))
      ensures var after := if FailingLeaf(sec) then Failed else CloseState(c.state, c.kids);
              SectionRan(sec, before, c.View().(state := after), thrown, log, trail)
      decreases sec, 1
    {
      hide Walk, SectionRan, DistinctNames, Under, WalkEnds, Tracker.Valid;
      if sec.kids == [] {
        LeafRan(sec, before);
        thrown, log, trail := sec.fails, [[sec.name]], [sec.name];
      } else {
        assert KidsOk(sec.kids, before.kids);
        hide WellFormed, KidsOk;
        ghost var k;
        ghost var done;
        thrown, log, trail, k := RunKids(sec.kids, c);
        done := trackers.runState == CompletedCycle;
        WalkLeavesOpen(sec.kids, before.kids, c.kids, k, c.state, done, thrown, log, trail);
        CloseAfterWalk(sec, before, c.kids, k, c.state, done, thrown, log, trail);
        log, trail := Under(sec.name, log), [sec.name] + trail;
      }
    }

    // Runs section c, which has just been opened, and leaves it.
    method RunBody(sec: Section, c: Tracker, ghost before: Track) returns (thrown: bool, log: seq<Path>, trail: Path)
      requires c == trackers.current && c.Valid() && c.state == Executing && c.name == sec.name
      requires c.parent != null && MayOpen(c)
      requires active != [] && active[|active|-1] == c && trackers.runState == InCycle && unfinished == 0
      requires DistinctNames(sec.kids) && WellFormed(sec, before) && !Complete(before) && c.kids == before.kids
      modifies this, trackers, c, c.repr, c.parent`state
      ensures c.Valid() && old(c.repr) <= c.repr && fresh(c.repr - old(c.repr))
      ensures SectionRan(sec, before, c.View(), thrown, log, trail)
      ensures c.parent.state == ParentState(sec, thrown)
      ensures trackers.current == c.parent && trackers.runState == CompletedCycle
      ensures active == old(active[..|active|-1]) && (unfinished == 0 <==> !thrown)
      decreases sec, 2
    {
      hide SectionRan, DistinctNames, WellFormed, CloseState;
      thrown, log, trail := RunInside(sec, c, before);
      var ok;
      if thrown {
        ok := SectionEndedEarly();
      } else {
        ok := SectionEnded();
      }
      assert ok;
    }

    // Runs the body of the test, which has just been opened; a throw out of it is caught here.
    method RunCurrentTest(test: Section, t: Tracker, ghost before: Track)
      returns (log: seq<Path>, trail: Path, ghost thrown: bool)
      requires t == trackers.current && t.Valid() && t.state == Executing && t.name == test.name && !test.fails
      requires t.parent != null && MayOpen(t)
      requires active == [] && trackers.runState == InCycle && unfinished == 0
      requires DistinctNames(test.kids) && WellFormed(test, before) && !Complete(before) && t.kids == before.kids
      modifies this, trackers, t, t.repr
      ensures t.Valid() && old(t.repr) <= t.repr && fresh(t.repr - old(t.repr))
      ensures SectionRan(test, before, t.View(), thrown, log, trail)
      ensures active == [] && unfinished == 0
    {
      hide SectionRan, DistinctNames, WellFormed, CloseState;
      thrown, log, trail := RunInside(test, t, before);
      var ok := CloseCurrent(trackers, t);
      assert ok;
      unfinished := 0;
    }

    // One cycle: open the test's tracker under the root, run the test, see whether it is complete.
    method RunCycle(test: Section, root: Tracker, ghost before: Track)
      returns (log: seq<Path>, trail: Path, complete: bool, ghost thrown: bool)
      requires root.Valid() && root.Rooted() && root.parent == null && PlaceOf(root, test.name, 0) && |root.kids| <= 1
      requires before == KidOr(root.kids, 0, test.name) && WellFormed(test, before) && !Complete(before)
      requires DistinctNames(test.kids) && !test.fails && active == [] && unfinished == 0
      modifies this, trackers, root, root.repr
      ensures root.Valid() && fresh(root.repr - old(root.repr)) && |root.kids| == 1
      ensures SectionRan(test, before, root.kids[0], thrown, log, trail)
      ensures complete <==> root.kids[0].state == CompletedSuccessfully
      ensures active == [] && unfinished == 0
    {
      hide SectionRan, DistinctNames, Tracker.Valid;
      assert before.name == test.name;
      hide WellFormed;
      trackers.StartCycle(root);
      var t := Acquire(trackers, test.name, 0);
      ChildCount(root);
      log, trail, thrown := RunAcquired(test, root, t, before);
      complete := t.state == CompletedSuccessfully;
    }

    // The test's tracker t is the only child of the root and has just been opened.
    method RunAcquired(test: Section, root: Tracker, t: Tracker, ghost before: Track)
      returns (log: seq<Path>, trail: Path, ghost thrown: bool)
      requires root.Valid() && Above(root) && root.children == [t] && root.state == ExecutingChildren
      requires t == trackers.current && root.kids == [before.(state := Executing)] && t.name == test.name
      requires active == [] && trackers.runState == InCycle && unfinished == 0
      requires DistinctNames(test.kids) && !test.fails && WellFormed(test, before) && !Complete(before)
      modifies this, trackers, root, root.repr
      ensures root.Valid() && fresh(root.repr - old(root.repr)) && root.children == [t] && root.kids == [t.View()]
      ensures SectionRan(test, before, root.kids[0], thrown, log, trail)
      ensures active == [] && unfinished == 0
    {
      hide SectionRan, DistinctNames, WellFormed;
      ChildOf(root, 0);
      log, trail, thrown := RunCurrentTest(test, t, before);
      assert root.ValidBut(0);
      root.Note(0);
    }

    /** The whole test, section by section and cycle by cycle, whatever leaves throw: every leaf is
        entered exactly once and in order, in as many cycles as there are leaves and sections left
        to close. trails holds the sections each cycle opened, from the test down. */
    method RunTest(name: string, secs: seq<Section>) returns (log: seq<Path>, trails: seq<Path>)
      requires DistinctNames(secs) && active == [] && unfinished == 0
      modifies this, trackers
      ensures log == Leaves(Section(name, secs, false)) && Distinct(log)
      ensures |trails| == Cycles(Section(name, secs, false)) <= Sizes(secs) + 1
      ensures NoFailures(secs) ==> trails == log
      ensures active == [] && unfinished == 0
    {
      var test := Section(name, secs, false);
      hide WellFormed, SectionRan, Tracker.Valid, Entered, Remaining, Cycles, Leaves, NoFailures;
      var root := new Tracker("{root}", null);
      log, trails := [], [];
      ghost var before := Fresh(name);
      TestStarts(test);
      EmptyPlace(root, name);
      var complete := false;
      ghost var left := Cycles(test);
      while !complete
        invariant root.Valid() && root.Rooted() && fresh(root.repr) && root.parent == null && |root.kids| <= 1
        invariant active == [] && unfinished == 0
        invariant before == KidOr(root.kids, 0, name) && WellFormed(test, before) && PlaceOf(root, name, 0)
        invariant complete <==> before.state == CompletedSuccessfully
        invariant complete <==> Complete(before)
        invariant log == Entered(before) && left == Remaining(test, before) && |trails| + left == Cycles(test)
        invariant |log| <= |trails| && (|log| == |trails| ==> log == trails)
        decreases left
      {
        var log', trail;
        ghost var thrown;
        log', trail, complete, thrown := RunCycle(test, root, before);
        CycleRan(test, before, root.kids[0], thrown, log', trail);
        OnePlaceStays(root, test);
        log, trails := log + log', trails + [trail];
        before := root.kids[0];
        left := left - 1;
      }
      TestEnds(test, before);
      TestLeavesDistinct(test);
    }
  }
}
