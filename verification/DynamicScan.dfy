/** A dynamic hazard-pointer scan over one privatised list of retired nodes and one snapshot of
    the guards. */
module DynamicScan {
  import opened Collections
  import opened LiberateSet

  // The nodes are linked on next, in this order, and the list ends.
  ghost predicate NextList(first: RetiredNode?, s: seq<RetiredNode>)
    reads s
  {
    && first == (if s == [] then null else s[0])
    && (forall i :: 0 <= i < |s| - 1 ==> s[i].next == s[i+1])
    && (s != [] ==> s[|s|-1].next == null)
  }

  ghost function NodeSet(s: seq<RetiredNode>): set<RetiredNode> {
    set n | n in s
  }

  ghost predicate Guarded(guards: seq<Ptr>, p: Ptr) {
    p != 0 && p in guards
  }

  // No pointer under a guard was retired twice.
  ghost predicate NoGuardedTwice(retired: seq<RetiredNode>, guards: seq<Ptr>) {
    forall i, j :: 0 <= i < j < |retired| && retired[i].ptr == retired[j].ptr ==> !Guarded(guards, retired[i].ptr)
  }

  // The smallest power of two that is at least x.
  function Ceil2(x: nat): (r: nat)
    ensures r >= x && r > 0
    decreases x
  {
    if x <= 1 then 1 else 2 * Ceil2((x + 1) / 2)
  }

  ghost predicate PowerOfTwo(r: nat) {
    r == 1 || (r > 1 && r % 2 == 0 && PowerOfTwo(r / 2))
  }

  // It is a power of two, and half of it is too small.
  lemma {:induction false} Ceil2Least(x: nat)
    ensures PowerOfTwo(Ceil2(x)) && (x > 1 ==> Ceil2(x) < 2 * x)
    decreases x
  {
    if x > 1 {
      Ceil2Least((x + 1) / 2);
    }
  }

  // Moves every node of the list into the set.
  method InsertAll(first: RetiredNode?, ghost retired: seq<RetiredNode>, s: LiberateSet) returns (count: nat)
    requires NextList(first, retired) && Distinct(retired)
    requires s.Valid() && s.nodes == {}
    modifies s`chains, s`bags, s`nodes, s.buckets, retired
    ensures s.Valid() && s.nodes == NodeSet(retired) && count == |retired|
  {
    hide LiberateSet.Valid;
    var pHead := first;
    count := 0;
    while pHead != null
      invariant s.Valid() && count <= |retired|
      invariant s.nodes == NodeSet(retired[..count])
      invariant pHead == if count < |retired| then retired[count] else null
      invariant forall j :: count <= j < |retired| ==>
                  retired[j].next == if j + 1 < |retired| then retired[j+1] else null
      decreases |retired| - count
    {
      var pNext := pHead.next;
      assert pNext == if count + 1 < |retired| then retired[count+1] else null;
      NotYetInserted(retired, count);
      PrefixNodes(retired, count);
      pHead.nextFree := null;
      s.Insert(pHead);
      pHead := pNext;
      count := count + 1;
    }
    assert retired[..count] == retired;
  }

  lemma NotYetInserted(s: seq<RetiredNode>, k: nat)
    requires Distinct(s) && k < |s|
    ensures forall j :: k <= j < |s| ==> s[j] !in NodeSet(s[..k])
    ensures forall j :: k < j < |s| ==> s[j] != s[k]
  {
  }

  lemma PrefixNodes(s: seq<RetiredNode>, k: nat)
    requires k < |s|
    ensures NodeSet(s[..k+1]) == NodeSet(s[..k]) + {s[k]}
  {
    assert s[..k+1] == s[..k] + [s[k]];
  }

  // The state of the pass over the guards: the nodes taken out so far, linked on next.
  datatype Busy = Busy(first: RetiredNode?, last: RetiredNode?, count: nat)

  ghost predicate BusyList(b: Busy, busy: seq<RetiredNode>)
    reads busy
  {
    NextList(b.first, busy) && Distinct(busy) && b.count == |busy|
    && b.last == (if busy == [] then null else busy[|busy|-1])
  }

  // Nodes are either still in the set or busy; busy are those under one of the guards.
  ghost predicate Split(retired: set<RetiredNode>, inSet: set<RetiredNode>, busy: seq<RetiredNode>, guards: seq<Ptr>) {
    && (forall n :: n in retired ==> (n in inSet <==> !Guarded(guards, n.ptr)))
    && (forall n :: n in retired ==> (n in busy <==> Guarded(guards, n.ptr)))
    && (forall n :: n in inSet ==> n in retired)
    && (forall n :: n in busy ==> n in retired)
  }

  // The node becomes the last of the busy list.
  method AppendBusy(r: RetiredNode, b0: Busy, ghost busy0: seq<RetiredNode>) returns (b: Busy)
    requires BusyList(b0, busy0) && r !in busy0 && r.next == null
    modifies busy0`next
    ensures BusyList(b, busy0 + [r]) && b.last == r && r.next == null
  {
    b := b0;
    if b.last != null {
      b.last.next := r;
    } else {
      b := b.(first := r);
    }
    b := b.(last := r, count := b.count + 1);
  }

  // The bag's duplicates behind its head. The loop never moves p on, so unless there are none
  // no number of turns completes it.
  method TakeDuplicates(b0: Busy, fuel: nat, ghost nodes: set<RetiredNode>) returns (b: Busy, completed: bool)
    requires b0.last != null && b0.last in nodes && (b0.last.nextFree != null ==> b0.last.nextFree in nodes)
    modifies nodes`next
    ensures completed <==> old(b0.last.nextFree) == null
    ensures completed ==> b == b0 && forall n :: n in nodes ==> n.next == old(n.next)
  {
    b := b0;
    var p := b.last.nextFree;
    var turns := fuel;
    while p != null && turns > 0
      invariant b.last != null && b.last in nodes
      invariant p == null ==> b == b0 && forall n :: n in nodes ==> n.next == old(n.next)
      decreases turns
    {
      b.last.next := p;
      b := b.(last := p, count := b.count + 1);
      turns := turns - 1;
    }
    completed := p == null;
  }

  lemma BagInSet(s: LiberateSet, g: Ptr)
    requires s.Valid()
    ensures g in s.bags ==> forall n :: n in s.bags[g] ==> n in s.nodes && n.ptr == g
  {
    assert g in s.bags ==> IsBag(g, s.bags[g]);
  }

  lemma BagHead(g: Ptr, bag: seq<RetiredNode>)
    requires IsBag(g, bag)
    ensures bag[0].nextFree == if |bag| == 1 then null else bag[1]
  {
  }

  // One guard: the bag it protects, if any, joins the busy list.
  method TakeGuarded(g: Ptr, s: LiberateSet, b0: Busy, ghost busy0: seq<RetiredNode>, fuel: nat)
    returns (b: Busy, completed: bool, ghost bag: seq<RetiredNode>)
    requires s.Valid() && g != 0 && BusyList(b0, busy0)
    requires forall n :: n in busy0 ==> n !in s.nodes
    modifies s`chains, s`bags, s`nodes, s.buckets, s.nodes, busy0
    ensures bag == if g in old(s.bags) then old(s.bags)[g] else []
    ensures completed <==> |bag| <= 1
    ensures completed ==> s.Valid() && BusyList(b, busy0 + bag)
    ensures completed ==> s.nodes == set n | n in old(s.nodes) && n.ptr != g
  {
    hide LiberateSet.Valid, BusyList, Distinct, FreeLinked;
    b := b0;
    completed := true;
    bag := if g in s.bags then s.bags[g] else [];
    assert busy0 + [] == busy0;
    BagInSet(s, g);
    var pRetired := s.Erase(g);
    if pRetired != null {
      assert IsBag(g, bag) && pRetired == bag[0];
      BagHead(g, bag);
      b := AppendBusy(pRetired, b, busy0);
      b, completed := TakeDuplicates(b, fuel, NodeSet(bag));
      if completed {
        assert bag == [pRetired];
      }
    }
  }

  ghost predicate RetiredOnce(retired: seq<RetiredNode>, g: Ptr) {
    forall i, j :: 0 <= i < j < |retired| && retired[i].ptr == retired[j].ptr ==> retired[i].ptr != g
  }

  lemma NoGuardedTwiceStep(retired: seq<RetiredNode>, guards: seq<Ptr>, k: nat)
    requires k < |guards|
    ensures NoGuardedTwice(retired, guards[..k+1]) <==>
              NoGuardedTwice(retired, guards[..k]) && (guards[k] == 0 || RetiredOnce(retired, guards[k]))
    ensures NoGuardedTwice(retired, guards) ==> NoGuardedTwice(retired, guards[..k+1])
  {
    assert guards[..k+1] == guards[..k] + [guards[k]];
    forall p ensures Guarded(guards[..k+1], p) <==> Guarded(guards[..k], p) || (p != 0 && p == guards[k]) {
    }
  }

  lemma SplitStep(retired: set<RetiredNode>, inSet: set<RetiredNode>, busy: seq<RetiredNode>, bag: seq<RetiredNode>,
                  guards: seq<Ptr>, k: nat)
    requires k < |guards| && Split(retired, inSet, busy, guards[..k])
    requires guards[k] != 0
    requires forall n :: n in bag ==> n in inSet && n.ptr == guards[k]
    requires forall n :: n in inSet && n.ptr == guards[k] ==> n in bag
    ensures Split(retired, (set n | n in inSet && n.ptr != guards[k]), busy + bag, guards[..k+1])
  {
    assert guards[..k+1] == guards[..k] + [guards[k]];
    forall p ensures Guarded(guards[..k+1], p) <==> Guarded(guards[..k], p) || p == guards[k] {
    }
  }

  lemma NothingTaken(retired: seq<RetiredNode>, inSet: set<RetiredNode>, guards: seq<Ptr>)
    requires inSet == NodeSet(retired)
    ensures BusyList(Busy(null, null, 0), []) && NoGuardedTwice(retired, guards[..0])
    ensures Split(NodeSet(retired), inSet, [], guards[..0])
  {
  }

  // The whole pass over the guards.
  method TakeAllGuarded(guards: seq<Ptr>, s: LiberateSet, ghost retired: seq<RetiredNode>, fuel: nat)
    returns (b: Busy, completed: bool, ghost busy: seq<RetiredNode>)
    requires s.Valid() && Distinct(retired) && s.nodes == NodeSet(retired)
    modifies s`chains, s`bags, s`nodes, s.buckets, retired
    ensures completed <==> NoGuardedTwice(retired, guards)
    ensures completed ==> s.Valid() && BusyList(b, busy) && Split(NodeSet(retired), s.nodes, busy, guards)
  {
    hide BusyList, NoGuardedTwice, RetiredOnce, NextList, Distinct;
    b, busy, completed := Busy(null, null, 0), [], true;
    NothingTaken(retired, s.nodes, guards);
    for i := 0 to |guards|
      invariant s.Valid() && BusyList(b, busy) && completed
      invariant Split(NodeSet(retired), s.nodes, busy, guards[..i])
      invariant NoGuardedTwice(retired, guards[..i])
    {
      NoGuardedTwiceStep(retired, guards, i);
      var g := guards[i];
      if g != 0 {
        BagSizeNow(s, retired, guards[..i], busy, g);
        ghost var inSet, bag := s.nodes, [];
        b, completed, bag := TakeGuarded(g, s, b, busy, fuel);
        if !completed {
          return;
        }
        SplitStep(NodeSet(retired), inSet, busy, bag, guards, i);
        busy := busy + bag;
      } else {
        assert guards[..i+1] == guards[..i] + [0];
      }
    }
    assert guards[..|guards|] == guards;
  }

  lemma BagSizeNow(s: LiberateSet, retired: seq<RetiredNode>, guards: seq<Ptr>, busy: seq<RetiredNode>, g: Ptr)
    requires s.Valid() && Distinct(retired) && g != 0
    requires Split(NodeSet(retired), s.nodes, busy, guards) && NoGuardedTwice(retired, guards)
    ensures (g in s.bags ==> |s.bags[g]| <= 1) <==> RetiredOnce(retired, g)
    ensures g in s.bags ==> forall n :: n in s.bags[g] ==> n in s.nodes && n.ptr == g
    ensures forall n :: n in s.nodes && n.ptr == g ==> g in s.bags && n in s.bags[g]
  {
    if g in s.bags {
      var bag := s.bags[g];
      assert IsBag(g, bag);
      assert bag[0] in s.nodes && !Guarded(guards, g);
      if |bag| > 1 {
        var i :| 0 <= i < |retired| && retired[i] == bag[0];
        var j :| 0 <= j < |retired| && retired[j] == bag[1];
        assert i != j;
      }
    }
    if i, j :| 0 <= i < j < |retired| && retired[i].ptr == retired[j].ptr == g {
      assert retired[i] in NodeSet(retired) && retired[j] in NodeSet(retired);
      assert !Guarded(guards, g);
      assert retired[i] in s.nodes && retired[j] in s.nodes && retired[i] != retired[j];
    }
  }

  lemma NothingRetired(retired: seq<RetiredNode>, guards: seq<Ptr>)
    requires retired == []
    ensures NoGuardedTwice(retired, guards) && BusyList(Busy(null, null, 0), []) && IsSplit(retired, [], [], guards)
    ensures ListSoFar([], null, null)
  {
  }

  lemma JoinSplit(retired: seq<RetiredNode>, inSet: set<RetiredNode>, busy: Busy, kept: seq<RetiredNode>,
                  freed: seq<RetiredNode>, guards: seq<Ptr>)
    requires BusyList(busy, kept) && Split(NodeSet(retired), inSet, kept, guards)
    requires Distinct(freed)
    requires forall n :: n in freed ==> n in inSet
    requires forall n :: n in inSet ==> n in freed
    ensures IsSplit(retired, kept, freed, guards)
  {
    forall n | n in retired
      ensures n in kept <==> Guarded(guards, n.ptr)
      ensures n in freed <==> !Guarded(guards, n.ptr)
    {
      assert n in NodeSet(retired);
    }
  }

  // The scan. It completes exactly when no guarded pointer was retired twice; it then keeps
  // exactly the nodes under a guard, in a list of busy.count nodes, calls the free function of every
  // other node once and of no node else, and doubles the threshold when nothing could be freed.
  method Scan(first: RetiredNode?, retiredCount: nat, ghost retired: seq<RetiredNode>, guards: seq<Ptr>, threshold: nat,
              hash: Ptr -> nat, fuel: nat, log: FreeLog)
    returns (completed: bool, busy: Busy, freeFirst: RetiredNode?, freeLast: RetiredNode?, newThreshold: nat,
             ghost kept: seq<RetiredNode>, ghost freed: seq<RetiredNode>)
    requires NextList(first, retired) && Distinct(retired) && retiredCount == |retired|
    modifies retired, log
    ensures completed <==> NoGuardedTwice(retired, guards)
    ensures log.calls == old(log.calls) + freed && (!completed ==> freed == [])
    ensures completed ==> BusyList(busy, kept) && IsSplit(retired, kept, freed, guards)
    ensures completed ==> ListSoFar(freed, freeFirst, freeLast) && (freeLast != null ==> freeLast.nextFree == null)
    ensures completed ==>
              newThreshold == if freed == [] && |retired| >= threshold && retired != [] then threshold * 2
              else threshold
  {
    hide LiberateSet.Valid, BusyList, NoGuardedTwice, Distinct, Threaded;
    freeFirst, freeLast, newThreshold, kept, freed := null, null, threshold, [], [];
    busy := Busy(null, null, 0);
    if first == null {
      NothingRetired(retired, guards);
      return true, busy, null, null, threshold, [], [];
    }
    var s := new LiberateSet(Ceil2(if retiredCount > threshold then retiredCount else threshold), hash, log);
    var nRetiredCount := InsertAll(first, retired, s);
    busy, completed, kept := TakeAllGuarded(guards, s, retired, fuel);
    if !completed {
      return;
    }
    s.FlatIsEverything();
    freed := s.Flat();
    freeFirst, freeLast := s.FreeAll();
    JoinSplit(retired, s.nodes, busy, kept, freed, guards);
    if freeFirst == null && nRetiredCount >= threshold {
      newThreshold := threshold * 2;
    }
  }

  // kept and freed divide the retired nodes, each node once, by whether a guard holds its pointer.
  ghost predicate IsSplit(retired: seq<RetiredNode>, kept: seq<RetiredNode>, freed: seq<RetiredNode>,
                          guards: seq<Ptr>) {
    && Distinct(kept) && Distinct(freed)
    && (forall n :: n in retired ==> (n in kept <==> Guarded(guards, n.ptr)))
    && (forall n :: n in retired ==> (n in freed <==> !Guarded(guards, n.ptr)))
    && (forall n :: n in kept ==> n in retired)
    && (forall n :: n in freed ==> n in retired)
  }

  // Two nodes retired with the same pointer and a guard on it: however many turns the scan is
  // given, it does not complete.
  method ScanNeverEnds(p: Ptr, threshold: nat, hash: Ptr -> nat, fuel: nat, log: FreeLog) returns (completed: bool)
    requires p != 0
    modifies log
    ensures !completed && log.calls == old(log.calls)
  {
    var b := new RetiredNode(p);
    var a := new RetiredNode(p);
    a.next := b;
    ghost var retired := [a, b];
    assert Guarded([p], retired[0].ptr) && retired[0].ptr == retired[1].ptr;
    assert !NoGuardedTwice(retired, [p]);
    var busy, freeFirst, freeLast, newThreshold;
    ghost var kept, freed;
    completed, busy, freeFirst, freeLast, newThreshold, kept, freed :=
      Scan(a, 2, retired, [p], threshold, hash, fuel, log);
  }
}
