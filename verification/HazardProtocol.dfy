/** Hazard-pointer records as a step system: threads allocate and release records, publish,
    validate and clear guards, retire objects, scan slot by slot and adopt the retired objects of
    abandoned records. One step is one atomic access to shared memory; every interleaving is a run. */
module HazardProtocol {
  import opened Wrappers
  import opened HazardScan

  // Slots per record, capacity of a retired array, and which scan is in use.
  datatype Config = Config(hp: nat, cap: nat, inplace: bool)

  /** A record in the list. Three fields are bookkeeping of the model. rank is the position in link
      order, 0 before the record is linked. valid holds the slots whose guard has been validated.
      kept and todo are the owner's two cursors while it empties arr: the entries still pending are
      those before kept and those from todo on. */
  datatype Record = Record(
    next: Option<nat>,
    rank: nat,
    owner: Option<nat>,
    free: bool,
    hzp: seq<Word>,
    valid: set<nat>,
    arr: seq<Word>,
    kept: nat,
    todo: nat)

  // Where a scan returns to.
  datatype Then =
    | ToIdle             // called by the thread itself
    | ToHelp             // first scan of free_hp_record; HelpScan follows
    | ToCopy(src: nat)   // the array filled up while copying from src
    | ToNext(src: nat)   // src has been emptied and released

  datatype Thread =
    | Out                                                          // owns no record
    | Dead
    | Probe(cur: Option<nat>)                                      // about to try the owner of cur
    | Taken(r: nat)                                                // won r, about to clear its free mark
    | Linking(r: nat, top: Option<nat>)                            // r is new; top is the head last read
    | Idle(r: nat)                                                 // attached, outside the collector
    | Clearing(r: nat, i: nat)                                     // releasing r, about to clear slot i
    | ScanStart(r: nat, back: Then)
    | ScanRec(r: nat, back: Then, skip: bool, seen: set<Word>, cur: Option<nat>)
    | ScanSlot(r: nat, back: Then, skip: bool, seen: set<Word>, c: nat, i: nat)
    | Sweep(r: nat, back: Then, seen: set<Word>)
    | HelpRec(r: nat, cur: Option<nat>)                            // about to read the free mark of cur
    | HelpOwner(r: nat, c: nat)                                    // about to read the owner of c
    | HelpAlive(r: nat, c: nat, read: Option<nat>)                 // about to ask whether it is alive
    | HelpCas(r: nat, c: nat, expected: Option<nat>)
    | HelpCopy(r: nat, c: nat)
    | HelpFree(r: nat, c: nat)                                     // about to mark c free
    | HelpRelease(r: nat, c: nat)                                  // about to give up c
    | Release(r: nat)                                              // about to give up r

  /** home maps every object that is retired and not yet freed to the record it waits in. freed
      holds the objects whose memory has been given back, leaked those that were retired and that
      nobody will free; anything else is live. */
  datatype State = State(
    recs: seq<Record>,
    head: Option<nat>,
    threads: seq<Thread>,
    home: map<Word, nat>,
    freed: set<Word>,
    leaked: set<Word>)

  // What the thread outside the collector does next; inside it only goes on, or dies.
  datatype Event =
    | Publish(slot: nat, p: Word)
    | Validate(slot: nat)
    | Retire(p: Word)
    | Renew(p: Word)      // the allocator hands out freed memory again
    | CallScan
    | Detach
    | Die
    | Go

  predicate Live(s: State, p: Word) {
    p != 0 && p !in s.home && p !in s.freed && p !in s.leaked
  }

  function Pending(x: Record): seq<Word>
    requires x.kept <= x.todo <= |x.arr|
  {
    x.arr[..x.kept] + x.arr[x.todo..]
  }

  function NewRecord(cfg: Config, t: nat): Record {
    Record(None, 0, Some(t), false, seq(cfg.hp, i => 0), {}, [], 0, 0)
  }

  function RankOf(s: State, link: Option<nat>): nat
    requires link.Some? ==> link.value < |s.recs|
  {
    if link.None? then 0 else s.recs[link.value].rank
  }

  ghost predicate Init(s: State) {
    && s.recs == [] && s.head == None && s.home == map[] && s.freed == {} && s.leaked == {}
    && forall t :: 0 <= t < |s.threads| ==> s.threads[t] == Out
  }

  // ----- steps -----

  // Only the position of thread t changes.
  ghost predicate Moves(s: State, s': State, t: nat, pc: Thread)
    requires t < |s.threads|
  {
    s' == s.(threads := s.threads[t := pc])
  }

  // Record x is written as well.
  ghost predicate Writes(s: State, s': State, t: nat, pc: Thread, x: nat, rec: Record)
    requires t < |s.threads|
  {
    x < |s.recs| && s' == s.(threads := s.threads[t := pc], recs := s.recs[x := rec])
  }

  ghost predicate AllocStep(cfg: Config, s: State, s': State, t: nat)
    requires t < |s.threads|
  {
    match s.threads[t]
    case Out => Moves(s, s', t, Probe(s.head))
    case Probe(cur) =>
      if cur.None? then
        s' == s.(threads := s.threads[t := Linking(|s.recs|, s.head)], recs := s.recs + [NewRecord(cfg, t)])
      else
        && cur.value < |s.recs|
        && if s.recs[cur.value].owner == None
           then Writes(s, s', t, Taken(cur.value), cur.value, s.recs[cur.value].(owner := Some(t)))
           else Moves(s, s', t, Probe(s.recs[cur.value].next))
    case Taken(r) => r < |s.recs| && Writes(s, s', t, Idle(r), r, s.recs[r].(free := false))
    case Linking(r, top) =>
      // the weak compare-and-swap may also fail without reason
      && r < |s.recs| && (top.Some? ==> top.value < |s.recs|)
      && (Moves(s, s', t, Linking(r, s.head))
          || (s.head == top
              && s' == s.(threads := s.threads[t := Idle(r)], head := Some(r),
                          recs := s.recs[r := s.recs[r].(next := top, rank := RankOf(s, top) + 1)])))
    case _ => false
  }

  ghost predicate UserStep(cfg: Config, s: State, s': State, t: nat, ev: Event)
    requires t < |s.threads|
  {
    if ev.Die? then Dies(s, s', t)
    else s.threads[t].Idle? && s.threads[t].r < |s.recs| && UserActs(cfg, s, s', t, s.threads[t].r, ev)
  }

  /** Where a thread can die and leave everything to others: anywhere but while it empties an
      array, its own in a sweep or in the marked array of an in-place scan, or an adopted one by
      copying. For a classic sweep see LeakStep. */
  predicate MayDie(pc: Thread) {
    match pc
    case ScanStart(_, back) => !back.ToCopy?
    case ScanRec(_, back, skip, _, _) => !back.ToCopy? && !skip
    case ScanSlot(_, back, skip, _, _, _) => !back.ToCopy? && !skip
    case Sweep(_, _, _) => false
    case HelpCopy(_, _) => false
    case Dead => false
    case _ => true
  }

  // The thread is gone; its guards no longer count, its records stay as they are.
  ghost predicate Dies(s: State, s': State, t: nat)
    requires t < |s.threads|
  {
    var pc := s.threads[t];
    && MayDie(pc)
    && if pc.Out? || pc.Probe? then Moves(s, s', t, Dead)
       else pc.r < |s.recs| && Writes(s, s', t, Dead, pc.r, s.recs[pc.r].(valid := {}))
  }

  ghost predicate UserActs(cfg: Config, s: State, s': State, t: nat, r: nat, ev: Event)
    requires t < |s.threads| && r < |s.recs|
  {
    var x := s.recs[r];
    match ev
    case Publish(i, p) => i < |x.hzp| && Writes(s, s', t, Idle(r), r, x.(hzp := x.hzp[i := p], valid := x.valid - {i}))
    case Validate(i) => i < |x.hzp| && Live(s, x.hzp[i]) && Writes(s, s', t, Idle(r), r, x.(valid := x.valid + {i}))
    case Retire(p) =>
      && Live(s, p) && |x.arr| < cfg.cap
      && s' == s.(recs := s.recs[r := x.(arr := x.arr + [p])], home := s.home[p := r])
    case Renew(p) => p in s.freed && s' == s.(freed := s.freed - {p})
    case CallScan => Moves(s, s', t, ScanStart(r, ToIdle))
    case Detach => Moves(s, s', t, Clearing(r, 0))
    case Die => false
    case Go => false
  }

  ghost predicate ReleaseStep(s: State, s': State, t: nat)
    requires t < |s.threads|
  {
    match s.threads[t]
    case Clearing(r, i) =>
      && r < |s.recs|
      && var x := s.recs[r];
         if i < |x.hzp| then Writes(s, s', t, Clearing(r, i + 1), r, x.(hzp := x.hzp[i := 0], valid := x.valid - {i}))
         else Moves(s, s', t, ScanStart(r, ToHelp))
    case Release(r) => r < |s.recs| && Writes(s, s', t, Out, r, s.recs[r].(owner := None))
    case _ => false
  }

  // An in-place scan first sorts the array, unless some entry has its low bit set.
  ghost predicate Begins(cfg: Config, s: State, s': State, t: nat, r: nat, back: Then)
    requires t < |s.threads|
  {
    && r < |s.recs| && r < |s'.recs|
    && var x := s.recs[r];
       if cfg.inplace && Even(x.arr) then
         var sorted := s'.recs[r].arr;
         && Sorted(sorted) && multiset(sorted) == multiset(x.arr)
         && Writes(s, s', t, ScanRec(r, back, true, {}, s.head), r, x.(arr := sorted))
       else Moves(s, s', t, ScanRec(r, back, false, {}, s.head))
  }

  ghost predicate ReadStep(cfg: Config, s: State, s': State, t: nat)
    requires t < |s.threads|
  {
    match s.threads[t]
    case ScanStart(r, back) => Begins(cfg, s, s', t, r, back)
    case ScanRec(r, back, skip, seen, cur) =>
      if cur.None? then Moves(s, s', t, Sweep(r, back, seen))
      else
        && cur.value < |s.recs|
        && var c := s.recs[cur.value];
           if skip && c.free then Moves(s, s', t, ScanRec(r, back, skip, seen, c.next))
           else Moves(s, s', t, ScanSlot(r, back, skip, seen, cur.value, 0))
    case ScanSlot(r, back, skip, seen, c, i) =>
      && c < |s.recs|
      && if i < |s.recs[c].hzp| then
           var p := s.recs[c].hzp[i];
           Moves(s, s', t, ScanSlot(r, back, skip, if p != 0 then seen + {p} else seen, c, i + 1))
         else Moves(s, s', t, ScanRec(r, back, skip, seen, s.recs[c].next))
    case _ => false
  }

  function After(s: State, r: nat, back: Then): Thread
    requires back.ToNext? ==> back.src < |s.recs|
  {
    match back
    case ToIdle => Idle(r)
    case ToHelp => HelpRec(r, s.head)
    case ToCopy(c) => HelpCopy(r, c)
    case ToNext(c) => HelpRec(r, s.recs[c].next)
  }

  // Keeps or frees the next entry; at the end the array is cut to what was kept.
  ghost predicate SweepStep(s: State, s': State, t: nat)
    requires t < |s.threads|
  {
    && s.threads[t].Sweep? && s.threads[t].r < |s.recs|
    && s.recs[s.threads[t].r].kept <= s.recs[s.threads[t].r].todo
    && Sweeps(s, s', t, s.threads[t].r, s.threads[t].back, s.threads[t].seen)
  }

  ghost predicate Sweeps(s: State, s': State, t: nat, r: nat, back: Then, seen: set<Word>)
    requires t < |s.threads| && r < |s.recs| && s.recs[r].kept <= s.recs[r].todo
  {
    var x := s.recs[r];
    if x.todo < |x.arr| then
      var p := x.arr[x.todo];
      if p in seen then
        Writes(s, s', t, s.threads[t], r, x.(arr := x.arr[x.kept := p], kept := x.kept + 1, todo := x.todo + 1))
      else
        s' == s.(recs := s.recs[r := x.(todo := x.todo + 1)], home := s.home - {p}, freed := s.freed + {p})
    else
      && x.kept <= |x.arr|
      && (back.ToNext? ==> back.src < |s.recs|)
      && Writes(s, s', t, After(s, r, back), r, x.(arr := x.arr[..x.kept], kept := 0, todo := 0))
  }

  // Whether a thread that owned a record is gone.
  predicate IsDead(s: State, owner: Option<nat>) {
    owner.Some? && owner.value < |s.threads| && s.threads[owner.value].Dead?
  }

  // Looking for a record to adopt.
  ghost predicate SeekStep(s: State, s': State, t: nat)
    requires t < |s.threads|
  {
    match s.threads[t]
    case HelpRec(r, cur) =>
      if cur.None? then Moves(s, s', t, Release(r))
      else
        && cur.value < |s.recs|
        && var c := s.recs[cur.value];
           Moves(s, s', t, if c.free then HelpRec(r, c.next) else HelpOwner(r, cur.value))
    case HelpOwner(r, c) => c < |s.recs| && Moves(s, s', t, HelpAlive(r, c, s.recs[c].owner))
    case HelpAlive(r, c, read) => Moves(s, s', t, HelpCas(r, c, if read == None || IsDead(s, read) then read else None))
    case HelpCas(r, c, expected) =>
      && c < |s.recs|
      && if s.recs[c].owner == expected then Writes(s, s', t, HelpCopy(r, c), c, s.recs[c].(owner := Some(t)))
         else Moves(s, s', t, HelpRec(r, s.recs[c].next))
    case _ => false
  }

  // Emptying an adopted record and giving it up.
  ghost predicate AdoptStep(cfg: Config, s: State, s': State, t: nat)
    requires t < |s.threads|
  {
    match s.threads[t]
    case HelpCopy(r, c) =>
      && r < |s.recs| && c < |s.recs|
      && var (x, y) := (s.recs[r], s.recs[c]);
         if y.todo < |y.arr| then
           var p := y.arr[y.todo];
           s' == s.(recs := s.recs[r := x.(arr := x.arr + [p])][c := y.(todo := y.todo + 1)], home := s.home[p := r],
                    threads := s.threads[t := if |x.arr| + 1 >= cfg.cap then ScanStart(r, ToCopy(c))
                                              else HelpCopy(r, c)])
         else Writes(s, s', t, HelpFree(r, c), c, y.(arr := [], todo := 0))
    case HelpFree(r, c) => c < |s.recs| && Writes(s, s', t, HelpRelease(r, c), c, s.recs[c].(free := true))
    case HelpRelease(r, c) => c < |s.recs| && Writes(s, s', t, ScanStart(r, ToNext(c)), c, s.recs[c].(owner := None))
    case _ => false
  }

  // What a sweep has not looked at yet.
  function Rest(x: Record): set<Word>
    requires x.todo <= |x.arr|
  {
    set p | p in x.arr[x.todo..]
  }

  // A thread dies in a classic sweep of its own. The scan has cleared the array first and put back
  // what it keeps, so that the entries it has not looked at are in no array any more.
  ghost predicate LeakStep(cfg: Config, s: State, s': State, t: nat)
    requires t < |s.threads|
  {
    && !cfg.inplace && s.threads[t].Sweep? && !s.threads[t].back.ToCopy? && s.threads[t].r < |s.recs|
    && s.recs[s.threads[t].r].kept <= s.recs[s.threads[t].r].todo <= |s.recs[s.threads[t].r].arr|
    && var (r, x) := (s.threads[t].r, s.recs[s.threads[t].r]);
       s' == s.(recs := s.recs[r := x.(valid := {}, arr := x.arr[..x.kept], kept := 0, todo := 0)],
                threads := s.threads[t := Dead], home := s.home - Rest(x), leaked := s.leaked + Rest(x))
  }

  ghost predicate Next(cfg: Config, s: State, s': State, t: nat, ev: Event) {
    && t < |s.threads|
    && (UserStep(cfg, s, s', t, ev)
        || (ev.Die? && LeakStep(cfg, s, s', t))
        || (ev.Go?
            && (AllocStep(cfg, s, s', t) || ReleaseStep(s, s', t) || ReadStep(cfg, s, s', t) || SweepStep(s, s', t)
                || SeekStep(s, s', t) || AdoptStep(cfg, s, s', t))))
  }

  datatype Run = Run(states: seq<State>, who: seq<nat>, events: seq<Event>)

  ghost predicate IsRun(cfg: Config, run: Run) {
    && run.states != [] && |run.who| == |run.events| == |run.states| - 1
    && Init(run.states[0])
    && forall k :: 0 <= k < |run.who| ==> Next(cfg, run.states[k], run.states[k+1], run.who[k], run.events[k])
  }
}
