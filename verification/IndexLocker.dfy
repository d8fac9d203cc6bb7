/** The keyed lock table: one mutex object per key, created by the first client that asks for the
    key and erased by the last one that lets go of it. Each client below is one lock/unlock
    session; a thread that holds several keys at once is several clients. Between two steps of
    one client the others may do anything. */
module IndexLocker {
  import opened Wrappers

  type ObjId = nat

  // Where a client is. Names of lock steps come first, then those of unlock.
  datatype Client<K> =
    | Idle
    | Entering(k: K)                 // about to take the global mutex
    | Inside(k: K)                   // global taken, about to look the key up
    | Looked(k: K, o: ObjId)         // global taken, has a reference to the key's object
    | Counted(k: K, o: ObjId)        // global taken, counter raised, about to try the key mutex
    | TryFailed(k: K, o: ObjId)      // global taken, about to release it and block
    | TryTaken(k: K, o: ObjId)       // global taken, key mutex taken, about to release global
    | Blocked(k: K, o: ObjId)        // waiting for the key mutex
    | Holding(k: K, o: ObjId)        // in the caller's critical section
    | Finding(k: K, o: ObjId)        // unlock has found the entry, about to release the key mutex
    | Released(k: K, o: ObjId)       // about to take the global mutex
    | Lowering(k: K, o: ObjId)       // global taken, about to lower the counter
    | Lowered(k: K, o: ObjId)        // global taken, about to erase the entry if unused
    | Leaving(k: K)                  // global taken, about to release it

  datatype SyncObject<K> = SyncObject(key: K, owner: Option<nat>, catchCnt: int)

  datatype State<K> = State(
    clients: seq<Client<K>>,
    global: Option<nat>,
    lockers: map<K, ObjId>,
    objects: map<ObjId, SyncObject<K>>)   // the objects alive now

  ghost predicate Init<K>(s: State<K>) {
    && s.global == None && s.lockers == map[] && s.objects == map[]
    && forall t :: 0 <= t < |s.clients| ==> s.clients[t] == Idle
  }

  ghost predicate Move<K>(s: State<K>, s': State<K>, t: nat, c: Client<K>, global: Option<nat>, lockers: map<K, ObjId>,
                          objects: map<ObjId, SyncObject<K>>)
    requires t < |s.clients|
  {
    s' == State(s.clients[t := c], global, lockers, objects)
  }

  // One atomic step of client t inside lock: up to raising the counter.
  ghost predicate EnterStep<K(!new)>(s: State<K>, s': State<K>, t: nat) {
    && t < |s.clients|
    && match s.clients[t]
       case Idle =>
         exists k: K :: Move(s, s', t, Entering(k), s.global, s.lockers, s.objects)
       case Entering(k) =>
         s.global == None && Move(s, s', t, Inside(k), Some(t), s.lockers, s.objects)
       case Inside(k) =>
         if k in s.lockers then Move(s, s', t, Looked(k, s.lockers[k]), s.global, s.lockers, s.objects)
         else exists o: ObjId :: o !in s.objects
                && Move(s, s', t, Looked(k, o), s.global, s.lockers[k := o], s.objects[o := SyncObject(k, None, 0)])
       case Looked(k, o) =>
         o in s.objects
         && Move(s, s', t, Counted(k, o), s.global, s.lockers,
                 s.objects[o := s.objects[o].(catchCnt := s.objects[o].catchCnt + 1)])
       case _ => false
  }

  // Then taking the key mutex.
  ghost predicate TakeStep<K>(s: State<K>, s': State<K>, t: nat) {
    && t < |s.clients|
    && match s.clients[t]
       case Counted(k, o) =>
         o in s.objects
         && if s.objects[o].owner == None
            then Move(s, s', t, TryTaken(k, o), s.global, s.lockers, s.objects[o := s.objects[o].(owner := Some(t))])
            else Move(s, s', t, TryFailed(k, o), s.global, s.lockers, s.objects)
       case TryFailed(k, o) => Move(s, s', t, Blocked(k, o), None, s.lockers, s.objects)
       case TryTaken(k, o) => Move(s, s', t, Holding(k, o), None, s.lockers, s.objects)
       case Blocked(k, o) =>
         o in s.objects && s.objects[o].owner == None
         && Move(s, s', t, Holding(k, o), s.global, s.lockers, s.objects[o := s.objects[o].(owner := Some(t))])
       case _ => false
  }

  // One atomic step of client t inside unlock: giving up the key mutex.
  ghost predicate GiveUpStep<K>(s: State<K>, s': State<K>, t: nat) {
    && t < |s.clients|
    && match s.clients[t]
       case Holding(k, o) =>
         k in s.lockers && Move(s, s', t, Finding(k, s.lockers[k]), s.global, s.lockers, s.objects)
       case Finding(k, o) =>
         o in s.objects
         && Move(s, s', t, Released(k, o), s.global, s.lockers, s.objects[o := s.objects[o].(owner := None)])
       case Released(k, o) =>
         s.global == None && Move(s, s', t, Lowering(k, o), Some(t), s.lockers, s.objects)
       case _ => false
  }

  // Then lowering the counter and erasing an unused entry.
  ghost predicate LeaveStep<K>(s: State<K>, s': State<K>, t: nat) {
    && t < |s.clients|
    && match s.clients[t]
       case Lowering(k, o) =>
         o in s.objects
         && Move(s, s', t, Lowered(k, o), s.global, s.lockers,
                 s.objects[o := s.objects[o].(catchCnt := s.objects[o].catchCnt - 1)])
       case Lowered(k, o) =>
         o in s.objects
         && if s.objects[o].catchCnt == 0
            then Move(s, s', t, Leaving(k), s.global, s.lockers - {k}, s.objects - {o})
            else Move(s, s', t, Leaving(k), s.global, s.lockers, s.objects)
       case Leaving(k) => Move(s, s', t, Idle, None, s.lockers, s.objects)
       case _ => false
  }

  ghost predicate Next<K(!new)>(s: State<K>, s': State<K>, t: nat) {
    EnterStep(s, s', t) || TakeStep(s, s', t) || GiveUpStep(s, s', t) || LeaveStep(s, s', t)
  }

  ghost predicate Run<K(!new)>(run: seq<State<K>>, who: seq<nat>) {
    && run != [] && |who| == |run| - 1 && Init(run[0])
    && forall i :: 0 <= i < |who| ==> Next(run[i], run[i+1], who[i])
  }

  // ----- invariant -----

  // The client stands between raising and lowering the counter of key k.
  predicate CountedIn<K(==)>(c: Client<K>, k: K) {
    (c.Counted? || c.TryFailed? || c.TryTaken? || c.Blocked? || c.Holding? || c.Finding? || c.Released? || c.Lowering?)
    && c.k == k
  }

  // The client has a reference to an object.
  predicate Refers<K>(c: Client<K>) {
    c.Looked? || c.Counted? || c.TryFailed? || c.TryTaken? || c.Blocked? || c.Holding? || c.Finding? || c.Released?
    || c.Lowering? || c.Lowered?
  }

  predicate HoldsGlobal<K>(c: Client<K>) {
    c.Inside? || c.Looked? || c.Counted? || c.TryFailed? || c.TryTaken? || c.Lowering? || c.Lowered? || c.Leaving?
  }

  predicate HoldsKey<K>(c: Client<K>) {
    c.TryTaken? || c.Holding? || c.Finding?
  }

  ghost function Counters<K>(s: State<K>, k: K): set<nat> {
    set t | 0 <= t < |s.clients| && CountedIn(s.clients[t], k)
  }

  ghost predicate GlobalExact<K>(s: State<K>) {
    && (s.global.Some? ==> s.global.value < |s.clients|)
    && (forall t :: 0 <= t < |s.clients| ==> (HoldsGlobal(s.clients[t]) <==> s.global == Some(t)))
  }

  // Entries and live objects correspond one to one.
  ghost predicate TableExact<K>(s: State<K>) {
    && (forall k :: k in s.lockers ==> s.lockers[k] in s.objects && s.objects[s.lockers[k]].key == k)
    && (forall o :: o in s.objects ==> s.objects[o].key in s.lockers && s.lockers[s.objects[o].key] == o)
  }

  // Whoever has a reference refers to the object now in the table under its key.
  ghost predicate RefsAlive<K>(s: State<K>) {
    forall t :: 0 <= t < |s.clients| && Refers(s.clients[t]) ==>
      s.clients[t].k in s.lockers && s.lockers[s.clients[t].k] == s.clients[t].o
  }

  ghost predicate OwnersExact<K>(s: State<K>) {
    && (forall t :: 0 <= t < |s.clients| && HoldsKey(s.clients[t]) ==>
          s.clients[t].o in s.objects && s.objects[s.clients[t].o].owner == Some(t))
    && (forall o :: o in s.objects && s.objects[o].owner.Some? ==>
          var t := s.objects[o].owner.value;
          t < |s.clients| && HoldsKey(s.clients[t]) && s.clients[t].o == o)
  }

  ghost predicate CountsExact<K>(s: State<K>) {
    && (forall o :: o in s.objects ==> s.objects[o].catchCnt == |Counters(s, s.objects[o].key)|)
    && (forall o :: o in s.objects && s.objects[o].catchCnt == 0 ==>
          && s.global.Some? && s.global.value < |s.clients|
          && (s.clients[s.global.value].Looked? || s.clients[s.global.value].Lowered?)
          && s.clients[s.global.value].o == o)
  }

  ghost predicate Inv<K>(s: State<K>) {
    GlobalExact(s) && TableExact(s) && RefsAlive(s) && OwnersExact(s) && CountsExact(s)
  }

  lemma InitInv<K>(s: State<K>)
    requires Init(s)
    ensures Inv(s)
  {
  }

  // What a change of client t does to the set of clients counted in for a key.
  lemma CountersStep<K>(s: State<K>, s': State<K>, t: nat, k: K)
    requires t < |s.clients| == |s'.clients| && s'.clients == s.clients[t := s'.clients[t]]
    ensures |Counters(s', k)| == |Counters(s, k)|
              + (if CountedIn(s'.clients[t], k) then 1 else 0) - (if CountedIn(s.clients[t], k) then 1 else 0)
  {
    var a, b := Counters(s, k), Counters(s', k);
    assert forall u :: 0 <= u < |s.clients| && u != t ==> s'.clients[u] == s.clients[u];
    assert a - {t} == b - {t};
    assert t in a ==> |a - {t}| == |a| - 1;
    assert t !in a ==> a - {t} == a;
    assert t in b ==> |b - {t}| == |b| - 1;
    assert t !in b ==> b - {t} == b;
  }

  // What a step can do to an object: its key never changes, its owner and its counter change only
  // together with client t's standing, it appears with a fresh lookup and disappears with an erase.
  ghost predicate ObjectEffect<K>(s: State<K>, s': State<K>, t: nat, o: ObjId)
    requires t < |s.clients| && t < |s'.clients|
  {
    var c, c' := s.clients[t], s'.clients[t];
    if o in s.objects && o in s'.objects then
      var x, x' := s.objects[o], s'.objects[o];
      && x'.key == x.key
      && (x'.owner == x.owner
          || (x'.owner == Some(t) && x.owner == None && HoldsKey(c') && !HoldsKey(c) && c'.o == o)
          || (x'.owner == None && HoldsKey(c) && !HoldsKey(c') && c.o == o))
      && (HoldsKey(c) && !HoldsKey(c') && c.o == o ==> x'.owner == None)
      && x'.catchCnt == x.catchCnt + (if CountedIn(c', x.key) then 1 else 0) - (if CountedIn(c, x.key) then 1 else 0)
      && (x'.catchCnt == 0 ==>
            || (s'.global == Some(t) && (c'.Looked? || c'.Lowered?) && c'.o == o)
            || (x.catchCnt == 0 && s.global != Some(t) && s'.global == s.global))
    else if o in s'.objects then
      s'.objects[o].owner == None && s'.objects[o].catchCnt == 0 && s'.objects[o].key !in s.lockers
      && c' == Looked(s'.objects[o].key, o)
    else if o in s.objects then c.Lowered? && c.o == o && s.objects[o].catchCnt == 0
    else true
  }

  // What a step can do to the global mutex and to the table.
  ghost predicate TableEffect<K>(s: State<K>, s': State<K>, t: nat)
    requires t < |s.clients| && t < |s'.clients|
  {
    var c, c' := s.clients[t], s'.clients[t];
    && (|| s'.global == s.global
        || (s.global == None && s'.global == Some(t))
        || (s.global == Some(t) && s'.global == None))
    && (HoldsGlobal(c') <==> s'.global == Some(t))
    && ((s'.lockers == s.lockers && s'.objects.Keys == s.objects.Keys)
        || (c'.Looked? && c'.k !in s.lockers && c'.o !in s.objects && s'.lockers == s.lockers[c'.k := c'.o]
            && s'.objects == s.objects[c'.o := SyncObject(c'.k, None, 0)])
        || (c.Lowered? && c.k in s.lockers && s.lockers[c.k] == c.o && s'.lockers == s.lockers - {c.k}
            && s'.objects == s.objects - {c.o}))
    && (Refers(c') ==> c'.k in s'.lockers && s'.lockers[c'.k] == c'.o)
  }

  ghost predicate Effect<K>(s: State<K>, s': State<K>, t: nat) {
    && t < |s.clients| && |s'.clients| == |s.clients|
    && s'.clients == s.clients[t := s'.clients[t]]
    && (forall o :: ObjectEffect(s, s', t, o))
    && TableEffect(s, s', t)
    && (HoldsKey(s'.clients[t]) ==> s'.clients[t].o in s'.objects && s'.objects[s'.clients[t].o].owner == Some(t))
    && (HoldsKey(s.clients[t]) && HoldsKey(s'.clients[t]) ==> s'.clients[t].o == s.clients[t].o)
  }

  lemma CountUp<K(!new)>(s: State<K>, s': State<K>, t: nat, o: ObjId)
    requires Inv(s) && EnterStep(s, s', t) && s.clients[t].Looked?
    ensures |s'.clients| == |s.clients| && ObjectEffect(s, s', t, o)
  {
    hide GlobalExact, OwnersExact, RefsAlive;
    GlobalOf(s, t);
    RefOf(s, t);
    if o in s.objects {
      assert s.objects[o].catchCnt >= 0;
      assert o != s.clients[t].o ==> s.objects[o].key != s.clients[t].k && s.objects[o].catchCnt > 0;
    }
  }

  lemma EnterObject<K(!new)>(s: State<K>, s': State<K>, t: nat, o: ObjId)
    requires Inv(s) && EnterStep(s, s', t)
    ensures |s'.clients| == |s.clients| && ObjectEffect(s, s', t, o)
  {
    hide GlobalExact, OwnersExact, RefsAlive;
    if s.clients[t].Looked? {
      CountUp(s, s', t, o);
    } else {
      GlobalOf(s, t);
    }
  }

  lemma GlobalOf<K>(s: State<K>, t: nat)
    requires Inv(s) && t < |s.clients|
    ensures HoldsGlobal(s.clients[t]) <==> s.global == Some(t)
  {
  }

  lemma RefOf<K>(s: State<K>, t: nat)
    requires Inv(s) && t < |s.clients| && Refers(s.clients[t])
    ensures s.clients[t].k in s.lockers && s.lockers[s.clients[t].k] == s.clients[t].o
  {
  }

  lemma EnterEffect<K(!new)>(s: State<K>, s': State<K>, t: nat)
    requires Inv(s) && EnterStep(s, s', t)
    ensures Effect(s, s', t)
  {
    hide ObjectEffect, CountsExact;
    forall o { EnterObject(s, s', t, o); }
  }

  lemma TakeObject<K>(s: State<K>, s': State<K>, t: nat, o: ObjId)
    requires Inv(s) && TakeStep(s, s', t)
    ensures |s'.clients| == |s.clients| && ObjectEffect(s, s', t, o)
  {
  }

  lemma TakeEffect<K>(s: State<K>, s': State<K>, t: nat)
    requires Inv(s) && TakeStep(s, s', t)
    ensures Effect(s, s', t)
  {
    hide ObjectEffect, CountsExact;
    forall o { TakeObject(s, s', t, o); }
  }

  lemma GiveUpObject<K>(s: State<K>, s': State<K>, t: nat, o: ObjId)
    requires Inv(s) && GiveUpStep(s, s', t)
    ensures |s'.clients| == |s.clients| && ObjectEffect(s, s', t, o)
  {
  }

  lemma GiveUpEffect<K>(s: State<K>, s': State<K>, t: nat)
    requires Inv(s) && GiveUpStep(s, s', t)
    ensures Effect(s, s', t)
  {
    hide ObjectEffect, CountsExact;
    forall o { GiveUpObject(s, s', t, o); }
  }

  lemma LeaveObject<K>(s: State<K>, s': State<K>, t: nat, o: ObjId)
    requires Inv(s) && LeaveStep(s, s', t)
    ensures |s'.clients| == |s.clients| && ObjectEffect(s, s', t, o)
  {
  }

  lemma LeaveEffect<K>(s: State<K>, s': State<K>, t: nat)
    requires Inv(s) && LeaveStep(s, s', t)
    ensures Effect(s, s', t)
  {
    hide ObjectEffect, CountsExact;
    forall o { LeaveObject(s, s', t, o); }
  }

  lemma StepEffect<K(!new)>(s: State<K>, s': State<K>, t: nat)
    requires Inv(s) && Next(s, s', t)
    ensures Effect(s, s', t)
  {
    if EnterStep(s, s', t) {
      EnterEffect(s, s', t);
    } else if TakeStep(s, s', t) {
      TakeEffect(s, s', t);
    } else if GiveUpStep(s, s', t) {
      GiveUpEffect(s, s', t);
    } else {
      LeaveEffect(s, s', t);
    }
  }

  lemma StepGlobal<K>(s: State<K>, s': State<K>, t: nat)
    requires Inv(s) && Effect(s, s', t)
    ensures GlobalExact(s')
  {
  }

  lemma StepTable<K>(s: State<K>, s': State<K>, t: nat)
    requires Inv(s) && Effect(s, s', t)
    ensures TableExact(s')
  {
    forall o | o in s'.objects ensures s'.objects[o].key in s'.lockers && s'.lockers[s'.objects[o].key] == o {
      assert ObjectEffect(s, s', t, o);
    }
    forall k | k in s'.lockers ensures s'.lockers[k] in s'.objects && s'.objects[s'.lockers[k]].key == k {
      assert ObjectEffect(s, s', t, s'.lockers[k]);
    }
  }

  // Before the entry of a key is erased, nobody refers to its object.
  lemma EraseIsSafe<K>(s: State<K>, t: nat, u: nat)
    requires Inv(s) && t < |s.clients| && u < |s.clients| && u != t
    requires s.clients[t].Lowered? && s.clients[t].o in s.objects && s.objects[s.clients[t].o].catchCnt == 0
    requires Refers(s.clients[u])
    ensures s.clients[u].k != s.clients[t].k
  {
    assert s.global == Some(t) && !HoldsGlobal(s.clients[u]);
    assert CountedIn(s.clients[u], s.clients[u].k);
    assert u in Counters(s, s.clients[u].k);
    assert Counters(s, s.clients[t].k) == {};
  }

  lemma StepRefs<K>(s: State<K>, s': State<K>, t: nat)
    requires Inv(s) && Effect(s, s', t)
    ensures RefsAlive(s')
  {
    forall u | 0 <= u < |s'.clients| && Refers(s'.clients[u])
      ensures s'.clients[u].k in s'.lockers && s'.lockers[s'.clients[u].k] == s'.clients[u].o
    {
      if u != t && s.clients[u].k !in s'.lockers {
        assert ObjectEffect(s, s', t, s.clients[t].o);
        EraseIsSafe(s, t, u);
      }
    }
  }

  lemma StepOwners<K>(s: State<K>, s': State<K>, t: nat)
    requires Inv(s) && Effect(s, s', t)
    ensures OwnersExact(s')
  {
    forall u | 0 <= u < |s'.clients| && HoldsKey(s'.clients[u])
      ensures s'.clients[u].o in s'.objects && s'.objects[s'.clients[u].o].owner == Some(u)
    {
      if u != t {
        var o := s.clients[u].o;
        assert ObjectEffect(s, s', t, o);
        if o !in s'.objects {
          EraseIsSafe(s, t, u);
        }
      }
    }
    forall o | o in s'.objects && s'.objects[o].owner.Some?
      ensures var u := s'.objects[o].owner.value;
              u < |s'.clients| && HoldsKey(s'.clients[u]) && s'.clients[u].o == o
    {
      assert ObjectEffect(s, s', t, o);
    }
  }

  lemma StepCounts<K>(s: State<K>, s': State<K>, t: nat)
    requires Inv(s) && Effect(s, s', t)
    ensures forall o :: o in s'.objects ==> s'.objects[o].catchCnt == |Counters(s', s'.objects[o].key)|
  {
    forall o | o in s'.objects ensures s'.objects[o].catchCnt == |Counters(s', s'.objects[o].key)| {
      var k := s'.objects[o].key;
      assert ObjectEffect(s, s', t, o);
      CountersStep(s, s', t, k);
      if o !in s.objects {
        assert forall u :: 0 <= u < |s.clients| ==> !CountedIn(s.clients[u], k);
        assert Counters(s, k) == {};
      }
    }
  }

  // An unused object can only be seen inside the global critical section that made or empties it.
  lemma StepZeroCounts<K>(s: State<K>, s': State<K>, t: nat)
    requires Inv(s) && Effect(s, s', t)
    ensures forall o :: o in s'.objects && s'.objects[o].catchCnt == 0 ==>
              && s'.global.Some? && s'.global.value < |s'.clients|
              && (s'.clients[s'.global.value].Looked? || s'.clients[s'.global.value].Lowered?)
              && s'.clients[s'.global.value].o == o
  {
    forall o | o in s'.objects && s'.objects[o].catchCnt == 0
      ensures && s'.global.Some? && s'.global.value < |s'.clients|
              && (s'.clients[s'.global.value].Looked? || s'.clients[s'.global.value].Lowered?)
              && s'.clients[s'.global.value].o == o
    {
      assert ObjectEffect(s, s', t, o);
    }
  }

  lemma StepInv<K(!new)>(s: State<K>, s': State<K>, t: nat)
    requires Inv(s) && Next(s, s', t)
    ensures Inv(s')
  {
    hide Next;
    StepEffect(s, s', t);
    StepGlobal(s, s', t);
    StepTable(s, s', t);
    StepRefs(s, s', t);
    StepOwners(s, s', t);
    StepCounts(s, s', t);
    StepZeroCounts(s, s', t);
  }

  lemma {:induction false} RunInv<K(!new)>(run: seq<State<K>>, who: seq<nat>, i: nat)
    requires Run(run, who) && i < |run|
    ensures Inv(run[i])
  {
    if i == 0 {
      InitInv(run[0]);
    } else {
      RunInv(run, who, i - 1);
      StepInv(run[i-1], run[i], who[i-1]);
    }
  }

  // ----- main results -----

  // At most one client is inside the critical section of a key.
  lemma MutualExclusion<K(!new)>(run: seq<State<K>>, who: seq<nat>, i: nat, t: nat, u: nat)
    requires Run(run, who) && i < |run| && t < |run[i].clients| && u < |run[i].clients|
    requires run[i].clients[t].Holding? && run[i].clients[u].Holding? && run[i].clients[t].k == run[i].clients[u].k
    ensures t == u
  {
    RunInv(run, who, i);
  }

  // A counter is the number of clients counted in and not yet counted out, and whenever the global
  // mutex is free an entry exists exactly for the keys that somebody is counted in for.
  lemma EntriesMatchUse<K(!new)>(run: seq<State<K>>, who: seq<nat>, i: nat, k: K)
    requires Run(run, who) && i < |run|
    ensures k in run[i].lockers ==>
              run[i].lockers[k] in run[i].objects && run[i].objects[run[i].lockers[k]].catchCnt == |Counters(run[i], k)|
    ensures run[i].global == None ==> (k in run[i].lockers <==> Counters(run[i], k) != {})
  {
    RunInv(run, who, i);
    var s := run[i];
    if t :| t in Counters(s, k) {
      assert Refers(s.clients[t]);
    }
  }

  // The object a waiting client blocks on, or a holder will unlock, is still the one in the table.
  lemma WaitersObjectLives<K(!new)>(run: seq<State<K>>, who: seq<nat>, i: nat, t: nat)
    requires Run(run, who) && i < |run| && t < |run[i].clients| && Refers(run[i].clients[t])
    ensures var c := run[i].clients[t];
            c.o in run[i].objects && c.k in run[i].lockers && run[i].lockers[c.k] == c.o
  {
    RunInv(run, who, i);
  }

  // The holder of the global mutex can always take its next step: it never blocks on a key mutex.
  lemma GlobalHolderMoves<K(!new)>(s: State<K>, t: nat) returns (s': State<K>)
    requires Inv(s) && t < |s.clients| && s.global == Some(t)
    ensures Next(s, s', t)
  {
    hide CountsExact;
    var g, l, m := s.global, s.lockers, s.objects;
    assert HoldsGlobal(s.clients[t]);
    match s.clients[t]
    case Inside(k) =>
      if k in l {
        s' := State(s.clients[t := Looked(k, l[k])], g, l, m);
      } else {
        var o := FreshId(m);
        s' := State(s.clients[t := Looked(k, o)], g, l[k := o], m[o := SyncObject(k, None, 0)]);
        assert Move(s, s', t, Looked(k, o), s.global, s.lockers[k := o], s.objects[o := SyncObject(k, None, 0)]);
      }
    case Looked(k, o) => s' := State(s.clients[t := Counted(k, o)], g, l, m[o := m[o].(catchCnt := m[o].catchCnt + 1)]);
    case Counted(k, o) =>
      if m[o].owner == None {
        s' := State(s.clients[t := TryTaken(k, o)], g, l, m[o := m[o].(owner := Some(t))]);
      } else {
        s' := State(s.clients[t := TryFailed(k, o)], g, l, m);
      }
    case TryFailed(k, o) => s' := State(s.clients[t := Blocked(k, o)], None, l, m);
    case TryTaken(k, o) => s' := State(s.clients[t := Holding(k, o)], None, l, m);
    case Lowering(k, o) => s' := State(s.clients[t := Lowered(k, o)], g, l,
                                       m[o := m[o].(catchCnt := m[o].catchCnt - 1)]);
    case Lowered(k, o) =>
      if m[o].catchCnt == 0 {
        s' := State(s.clients[t := Leaving(k)], g, l - {k}, m - {o});
      } else {
        s' := State(s.clients[t := Leaving(k)], g, l, m);
      }
    case Leaving(k) => s' := State(s.clients[t := Idle], None, l, m);
  }

  lemma FreshId<V>(m: map<nat, V>) returns (o: nat)
    ensures o !in m
  {
    if m.Keys == {} {
      o := 0;
    } else {
      o := MaxKey(m.Keys);
      o := o + 1;
    }
  }

  lemma MaxKey(s: set<nat>) returns (x: nat)
    requires s != {}
    ensures x in s && forall y :: y in s ==> y <= x
  {
    x :| x in s;
    var rest := s - {x};
    assert forall y :: y in s ==> y == x || y in rest;
    if rest != {} {
      var y := MaxKey(rest);
      if y > x {
        x := y;
      }
    }
  }

  // ----- sessions end -----

  // An upper bound of the steps a session still takes.
  function StepsLeft<K>(c: Client<K>): nat {
    match c
    case Idle => 0
    case Leaving(_) => 1
    case Lowered(_, _) => 2
    case Lowering(_, _) => 3
    case Released(_, _) => 4
    case Finding(_, _) => 5
    case Holding(_, _) => 6
    case Blocked(_, _) => 7
    case TryTaken(_, _) => 7
    case TryFailed(_, _) => 8
    case Counted(_, _) => 9
    case Looked(_, _) => 10
    case Inside(_) => 11
    case Entering(_) => 12
  }

  function AllStepsLeft<K>(cs: seq<Client<K>>): nat {
    if cs == [] then 0 else AllStepsLeft(cs[..|cs|-1]) + StepsLeft(cs[|cs|-1])
  }

  lemma {:induction false} AllStepsChange<K>(cs: seq<Client<K>>, t: nat, c: Client<K>)
    requires t < |cs|
    ensures AllStepsLeft(cs[t := c]) + StepsLeft(cs[t]) == AllStepsLeft(cs) + StepsLeft(c)
  {
    var n := |cs| - 1;
    if t < n {
      AllStepsChange(cs[..n], t, c);
      assert cs[t := c][..n] == cs[..n][t := c];
    } else {
      assert cs[t := c][..n] == cs[..n];
    }
  }

  lemma {:induction false} AllStepsBound<K>(cs: seq<Client<K>>)
    ensures AllStepsLeft(cs) <= 12 * |cs|
  {
    if cs != [] {
      AllStepsBound(cs[..|cs|-1]);
    }
  }

  // Every step of a session brings it nearer to its end.
  lemma StepGoesOn<K(!new)>(s: State<K>, s': State<K>, t: nat)
    requires Next(s, s', t) && s.clients[t] != Idle
    ensures t < |s.clients| == |s'.clients| && StepsLeft(s'.clients[t]) < StepsLeft(s.clients[t])
    ensures s'.clients == s.clients[t := s'.clients[t]]
  {
  }

  // While no new session begins, whatever the order of the steps, all of them together take at most
  // twelve steps a client; and as long as one has not ended, one can step (see NoDeadlock).
  lemma {:induction false} SessionsEnd<K(!new)>(run: seq<State<K>>, who: seq<nat>, j: nat, k: nat)
    requires Run(run, who) && j <= k < |run|
    requires forall i :: j <= i < k ==> who[i] < |run[i].clients| && run[i].clients[who[i]] != Idle
    ensures |run[k].clients| == |run[j].clients|
    ensures k - j + AllStepsLeft(run[k].clients) <= AllStepsLeft(run[j].clients) <= 12 * |run[j].clients|
    decreases k
  {
    AllStepsBound(run[j].clients);
    hide Next, Init;
    if j < k {
      SessionsEnd(run, who, j, k - 1);
      StepGoesOn(run[k-1], run[k], who[k-1]);
      AllStepsChange(run[k-1].clients, who[k-1], run[k].clients[who[k-1]]);
    }
  }

  // ----- threads that hold several keys -----

  // The client is inside lock or unlock.
  predicate Busy<K>(c: Client<K>) {
    !c.Idle? && !c.Holding?
  }

  // The clients with the same thread are its sessions; a thread is inside one call at a time.
  ghost predicate OneCall<K>(s: State<K>, thread: nat -> nat) {
    forall t: nat, u: nat :: t < |s.clients| && u < |s.clients| && t != u && thread(t) == thread(u) ==>
      !Busy(s.clients[t]) || !Busy(s.clients[u])
  }

  // The thread of client u is not inside a call of another of its sessions.
  ghost predicate CanGoOn<K>(s: State<K>, thread: nat -> nat, u: nat) {
    forall v: nat :: v < |s.clients| && v != u && thread(v) == thread(u) ==> !Busy(s.clients[v])
  }

  // The client is inside lock.
  predicate Locking<K>(c: Client<K>) {
    c.Entering? || c.Inside? || c.Looked? || c.Counted? || c.TryFailed? || c.TryTaken? || c.Blocked?
  }

  // A thread inside lock holds only keys of lower rank than the one it asks for.
  ghost predicate Ordered<K>(s: State<K>, thread: nat -> nat, rank: K -> nat) {
    forall t: nat, u: nat ::
      t < |s.clients| && u < |s.clients| && thread(t) == thread(u) && Locking(s.clients[t]) && s.clients[u].Holding? ==>
        rank(s.clients[u].k) < rank(s.clients[t].k)
  }

  // A step that threads take one call at a time, calling lock only for keys of higher rank than
  // those they hold.
  ghost predicate Disciplined<K>(s: State<K>, s': State<K>, thread: nat -> nat, rank: K -> nat, t: nat)
    requires t < |s.clients| == |s'.clients|
  {
    && CanGoOn(s, thread, t)
    && (s.clients[t].Idle? && s'.clients[t].Entering? ==>
          forall u: nat :: u < |s.clients| && thread(u) == thread(t) && s.clients[u].Holding? ==>
            rank(s.clients[u].k) < rank(s'.clients[t].k))
  }

  lemma StepSize<K(!new)>(s: State<K>, s': State<K>, t: nat)
    requires Next(s, s', t)
    ensures t < |s.clients| == |s'.clients|
    ensures forall u :: 0 <= u < |s.clients| && u != t ==> s'.clients[u] == s.clients[u]
  {
  }

  lemma DisciplineKept<K(!new)>(s: State<K>, s': State<K>, thread: nat -> nat, rank: K -> nat, t: nat)
    requires Next(s, s', t) && |s'.clients| == |s.clients| && Disciplined(s, s', thread, rank, t)
    requires OneCall(s, thread) && Ordered(s, thread, rank)
    ensures OneCall(s', thread) && Ordered(s', thread, rank)
  {
    var c, c' := s.clients[t], s'.clients[t];
    StepSize(s, s', t);
    assert Locking(c') ==> c'.Entering? || (Locking(c) && c'.k == c.k);
    hide Next;
  }

  ghost predicate DisciplinedRun<K(!new)>(run: seq<State<K>>, who: seq<nat>, thread: nat -> nat, rank: K -> nat) {
    && Run(run, who)
    && forall i :: 0 <= i < |who| ==>
         && who[i] < |run[i].clients| == |run[i+1].clients|
         && Disciplined(run[i], run[i+1], thread, rank, who[i])
  }

  lemma {:induction false} RunOrdered<K(!new)>(run: seq<State<K>>, who: seq<nat>, thread: nat -> nat, rank: K -> nat,
                                               i: nat)
    requires DisciplinedRun(run, who, thread, rank) && i < |run|
    ensures OneCall(run[i], thread) && Ordered(run[i], thread, rank)
  {
    hide Next, Disciplined;
    if i > 0 {
      RunOrdered(run, who, thread, rank, i - 1);
      assert Disciplined(run[i-1], run[i], thread, rank, who[i-1]);
      DisciplineKept(run[i-1], run[i], thread, rank, who[i-1]);
    }
  }

  ghost function RankBound<K>(cs: seq<Client<K>>, rank: K -> nat): nat {
    if cs == [] then 0
    else
      var (c, n) := (cs[|cs|-1], RankBound(cs[..|cs|-1], rank));
      if c.Blocked? && rank(c.k) >= n then rank(c.k) + 1 else n
  }

  lemma {:induction false} BelowRankBound<K>(cs: seq<Client<K>>, rank: K -> nat, t: nat)
    requires t < |cs| && cs[t].Blocked?
    ensures rank(cs[t].k) < RankBound(cs, rank)
  {
    if t < |cs| - 1 {
      BelowRankBound(cs[..|cs|-1], rank, t);
    }
  }

  lemma KeyHolderMoves<K(!new)>(s: State<K>, t: nat) returns (s': State<K>)
    requires Inv(s) && t < |s.clients| && HoldsKey(s.clients[t]) && !HoldsGlobal(s.clients[t])
    ensures Next(s, s', t)
  {
    var l, m := s.lockers, s.objects;
    match s.clients[t]
    case Holding(k, o) => s' := State(s.clients[t := Finding(k, l[k])], s.global, l, m);
    case Finding(k, o) => s' := State(s.clients[t := Released(k, o)], s.global, l, m[o := m[o].(owner := None)]);
  }

  lemma GlobalHolder<K>(s: State<K>) returns (u: nat)
    requires Inv(s) && s.global.Some?
    ensures s.global == Some(u) && u < |s.clients| && Busy(s.clients[u])
  {
    u := s.global.value;
    assert HoldsGlobal(s.clients[u]);
  }

  // With the global mutex free, only a key can hold up a client that is inside a call.
  lemma UnblockedMoves<K(!new)>(s: State<K>, t: nat) returns (s': State<K>)
    requires Inv(s) && s.global == None && t < |s.clients| && Busy(s.clients[t])
    requires s.clients[t].Blocked? ==> s.clients[t].o in s.objects && s.objects[s.clients[t].o].owner == None
    ensures Next(s, s', t)
  {
    var l, m := s.lockers, s.objects;
    GlobalOf(s, t);
    match s.clients[t]
    case Entering(k) => s' := State(s.clients[t := Inside(k)], Some(t), l, m);
    case Blocked(k, o) => s' := State(s.clients[t := Holding(k, o)], s.global, l, m[o := m[o].(owner := Some(t))]);
    case Released(k, o) => s' := State(s.clients[t := Lowering(k, o)], Some(t), l, m);
    case Finding(k, o) => s' := KeyHolderMoves(s, t);
  }

  // Whoever holds the key that client t waits for.
  lemma HolderOf<K>(s: State<K>, t: nat) returns (w: nat)
    requires Inv(s) && t < |s.clients| && s.clients[t].Blocked? && s.global == None
    requires s.clients[t].o in s.objects && s.objects[s.clients[t].o].owner.Some?
    ensures w < |s.clients| && HoldsKey(s.clients[w]) && !HoldsGlobal(s.clients[w]) && s.clients[w].k == s.clients[t].k
  {
    w := s.objects[s.clients[t].o].owner.value;
    RefOf(s, t);
    RefOf(s, w);
    GlobalOf(s, w);
  }

  lemma BlockedMoves<K(!new)>(s: State<K>, thread: nat -> nat, rank: K -> nat, t: nat) returns (u: nat, s': State<K>)
    requires Inv(s) && OneCall(s, thread) && Ordered(s, thread, rank) && s.global == None
    requires t < |s.clients| && s.clients[t].Blocked?
    ensures u < |s.clients| && s.clients[u] != Idle && CanGoOn(s, thread, u) && Next(s, s', u)
    decreases RankBound(s.clients, rank) - rank(s.clients[t].k)
  {
    hide Inv, Next;
    RefOf(s, t);
    assert s.clients[t].o in s.objects by { ObjectOf(s, t); }
    if s.objects[s.clients[t].o].owner == None {
      u := t;
      s' := UnblockedMoves(s, t);
    } else {
      var w := HolderOf(s, t);
      if v: nat :| v < |s.clients| && v != w && thread(v) == thread(w) && Busy(s.clients[v]) {
        assert s.clients[w].Holding?;
        if s.clients[v].Blocked? {
          BelowRankBound(s.clients, rank, v);
          u, s' := BlockedMoves(s, thread, rank, v);
        } else {
          u := v;
          s' := UnblockedMoves(s, v);
        }
      } else {
        u := w;
        s' := KeyHolderMoves(s, w);
      }
    }
  }

  lemma ObjectOf<K>(s: State<K>, t: nat)
    requires Inv(s) && t < |s.clients| && Refers(s.clients[t])
    ensures s.clients[t].o in s.objects
  {
  }

  // No deadlock: if threads ask only for keys of higher rank than those they hold, then while some
  // client is inside lock or unlock, or holds a key, one that is can step and its thread is free to.
  lemma NoDeadlock<K(!new)>(s: State<K>, thread: nat -> nat, rank: K -> nat, t: nat) returns (u: nat, s': State<K>)
    requires Inv(s) && OneCall(s, thread) && Ordered(s, thread, rank)
    requires t < |s.clients| && s.clients[t] != Idle
    ensures u < |s.clients| && s.clients[u] != Idle && CanGoOn(s, thread, u) && Next(s, s', u)
  {
    hide Inv, Next, Ordered;
    u := t;
    if s.global.Some? {
      u := GlobalHolder(s);
      s' := GlobalHolderMoves(s, u);
    } else {
      if v: nat :| v < |s.clients| && v != t && thread(v) == thread(t) && Busy(s.clients[v]) {
        u := v;
      }
      if s.clients[u].Blocked? {
        u, s' := BlockedMoves(s, thread, rank, u);
      } else if Busy(s.clients[u]) {
        s' := UnblockedMoves(s, u);
      } else {
        GlobalOf(s, u);
        s' := KeyHolderMoves(s, u);
      }
    }
  }

  // In every run in which threads take further keys only in increasing rank, somebody can go on
  // while anybody is inside lock or unlock or holds a key.
  lemma DisciplinedRunsGoOn<K(!new)>(run: seq<State<K>>, who: seq<nat>, thread: nat -> nat, rank: K -> nat, i: nat,
                                     t: nat) returns (u: nat, s': State<K>)
    requires DisciplinedRun(run, who, thread, rank) && i < |run| && t < |run[i].clients| && run[i].clients[t] != Idle
    ensures u < |run[i].clients| && run[i].clients[u] != Idle
    ensures CanGoOn(run[i], thread, u) && Next(run[i], s', u)
  {
    RunOrdered(run, who, thread, rank, i);
    RunInv(run, who, i);
    hide Inv, Next, OneCall, Ordered, CanGoOn;
    u, s' := NoDeadlock(run[i], thread, rank, t);
  }

  // ----- two threads that take two keys in opposite orders -----

  ghost predicate Reaches<K(!new)>(s: State<K>) {
    exists run, who :: Run(run, who) && run[|run|-1] == s
  }

  lemma Reach<K(!new)>(s: State<K>, s': State<K>, t: nat)
    requires Reaches(s) && Next(s, s', t)
    ensures Reaches(s')
  {
    hide Next, Init;
    var run, who :| Run(run, who) && run[|run|-1] == s;
    var run', who' := run + [s'], who + [t];
    forall i | 0 <= i < |who'| ensures Next(run'[i], run'[i+1], who'[i]) {
      if i < |who| {
        assert run'[i] == run[i] && run'[i+1] == run[i+1];
      }
    }
    assert Run(run', who') && run'[|run'|-1] == s';
  }

  // A free key is locked.
  lemma LocksFree<K(!new)>(s: State<K>, t: nat, k: K) returns (s': State<K>, o: ObjId)
    requires Reaches(s) && t < |s.clients| && s.clients[t] == Idle && s.global == None && k !in s.lockers
    ensures Reaches(s') && o !in s.objects
    ensures s' == State(s.clients[t := Holding(k, o)], None, s.lockers[k := o],
                        s.objects[o := SyncObject(k, Some(t), 1)])
  {
    hide Reaches;
    o := FreshId(s.objects);
    var cs, l := s.clients, s.lockers[k := o];
    var s1 := State(cs[t := Entering(k)], None, s.lockers, s.objects);
    assert Move(s, s1, t, Entering(k), s.global, s.lockers, s.objects);
    Reach(s, s1, t);
    var s2 := State(cs[t := Inside(k)], Some(t), s.lockers, s.objects);
    Reach(s1, s2, t);
    var s3 := State(cs[t := Looked(k, o)], Some(t), l, s.objects[o := SyncObject(k, None, 0)]);
    assert Move(s2, s3, t, Looked(k, o), s2.global, s2.lockers[k := o], s2.objects[o := SyncObject(k, None, 0)]);
    Reach(s2, s3, t);
    var s4 := State(cs[t := Counted(k, o)], Some(t), l, s.objects[o := SyncObject(k, None, 1)]);
    assert s4.objects == s3.objects[o := s3.objects[o].(catchCnt := 1)];
    Reach(s3, s4, t);
    var s5 := State(cs[t := TryTaken(k, o)], Some(t), l, s.objects[o := SyncObject(k, Some(t), 1)]);
    assert s5.objects == s4.objects[o := s4.objects[o].(owner := Some(t))];
    Reach(s4, s5, t);
    s' := State(cs[t := Holding(k, o)], None, l, s5.objects);
    Reach(s5, s', t);
  }

  // A key that is taken is waited for.
  lemma WaitsFor<K(!new)>(s: State<K>, t: nat, k: K) returns (s': State<K>)
    requires Reaches(s) && t < |s.clients| && s.clients[t] == Idle && s.global == None && k in s.lockers
    requires s.lockers[k] in s.objects && s.objects[s.lockers[k]].owner.Some?
    ensures Reaches(s')
    ensures var o := s.lockers[k];
            s' == State(s.clients[t := Blocked(k, o)], None, s.lockers,
                        s.objects[o := s.objects[o].(catchCnt := s.objects[o].catchCnt + 1)])
  {
    hide Reaches;
    var cs, l, o := s.clients, s.lockers, s.lockers[k];
    var m := s.objects[o := s.objects[o].(catchCnt := s.objects[o].catchCnt + 1)];
    var s1 := State(cs[t := Entering(k)], None, l, s.objects);
    assert Move(s, s1, t, Entering(k), s.global, l, s.objects);
    Reach(s, s1, t);
    var s2 := State(cs[t := Inside(k)], Some(t), l, s.objects);
    Reach(s1, s2, t);
    var s3 := State(cs[t := Looked(k, o)], Some(t), l, s.objects);
    Reach(s2, s3, t);
    var s4 := State(cs[t := Counted(k, o)], Some(t), l, m);
    Reach(s3, s4, t);
    var s5 := State(cs[t := TryFailed(k, o)], Some(t), l, m);
    Reach(s4, s5, t);
    s' := State(cs[t := Blocked(k, o)], None, l, m);
    Reach(s5, s', t);
  }

  // Sessions 0 and 2 belong to one thread, 1 and 3 to another. The first locks a and then b, the
  // second b and then a: in the state reached no thread can go on with any step.
  lemma OppositeOrdersDeadlock<K(!new)>(a: K, b: K) returns (s: State<K>)
    requires a != b
    ensures Reaches(s) && |s.clients| == 4 && OneCall(s, t => t % 2)
    ensures s.clients[0].Holding? && s.clients[0].k == a && s.clients[2].Blocked? && s.clients[2].k == b
    ensures s.clients[1].Holding? && s.clients[1].k == b && s.clients[3].Blocked? && s.clients[3].k == a
    ensures forall u: nat, s' :: Next(s, s', u) ==> !CanGoOn(s, t => t % 2, u)
  {
    s := State([Idle, Idle, Idle, Idle], None, map[], map[]);
    assert Run([s], []) && [s][|[s]|-1] == s;
    hide Reaches;
    var oa, ob;
    s, oa := LocksFree(s, 0, a);
    s, ob := LocksFree(s, 1, b);
    s := WaitsFor(s, 2, b);
    s := WaitsFor(s, 3, a);
    NobodyGoesOn(s);
  }

  lemma NobodyGoesOn<K(!new)>(s: State<K>)
    requires |s.clients| == 4 && s.clients[0].Holding? && s.clients[1].Holding?
    requires s.clients[2].Blocked? && s.clients[2].o in s.objects && s.objects[s.clients[2].o].owner.Some?
    requires s.clients[3].Blocked? && s.clients[3].o in s.objects && s.objects[s.clients[3].o].owner.Some?
    ensures OneCall(s, t => t % 2) && forall u: nat, s' :: Next(s, s', u) ==> !CanGoOn(s, t => t % 2, u)
  {
    forall u: nat, s' | Next(s, s', u) ensures !CanGoOn(s, t => t % 2, u) {
      assert u < 4;
      assert u == 0 || u == 1;
      assert Busy(s.clients[u + 2]) && (u + 2) % 2 == u % 2;
    }
  }
}
