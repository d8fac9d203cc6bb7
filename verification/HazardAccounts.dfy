/** Every retired object waits in exactly one record, once, until it is freed. */
module HazardAccounts {
  import opened Collections
  import opened Wrappers
  import opened HazardScan
  import opened HazardProtocol
  import opened HazardStructure

  ghost predicate Holds(s: State, x: nat, p: Word)
    requires x < |s.recs| && s.recs[x].kept <= s.recs[x].todo <= |s.recs[x].arr|
  {
    p in Pending(s.recs[x])
  }

  // The objects pending in record x are those accounted to it, each once.
  ghost predicate AccountOk(s: State, x: nat)
    requires x < |s.recs|
  {
    && s.recs[x].kept <= s.recs[x].todo <= |s.recs[x].arr|
    && Distinct(Pending(s.recs[x]))
    && forall p :: Holds(s, x, p) <==> p in s.home && s.home[p] == x
  }

  ghost predicate Accounts(s: State) {
    && (forall x :: 0 <= x < |s.recs| ==> AccountOk(s, x))
    && (forall p :: p in s.home ==> s.home[p] < |s.recs| && p != 0 && p !in s.freed)
    && (forall p :: p in s.leaked ==> p !in s.home && p !in s.freed)
  }

  lemma AccountOf(s: State, x: nat)
    requires Accounts(s) && x < |s.recs|
    ensures AccountOk(s, x)
  {
  }

  // ----- what the steps do to a pending sequence -----

  lemma KeepPending(x: Record)
    requires x.kept <= x.todo < |x.arr|
    ensures Pending(x.(arr := x.arr[x.kept := x.arr[x.todo]], kept := x.kept + 1, todo := x.todo + 1)) == Pending(x)
  {
    var a := x.arr[x.kept := x.arr[x.todo]];
    assert a[..x.kept + 1] == x.arr[..x.kept] + [x.arr[x.todo]];
    assert a[x.todo + 1..] == x.arr[x.todo + 1..];
    assert x.arr[x.todo..] == [x.arr[x.todo]] + x.arr[x.todo + 1..];
  }

  lemma CutPending(x: Record)
    requires x.kept <= x.todo == |x.arr|
    ensures Pending(x.(arr := x.arr[..x.kept], kept := 0, todo := 0)) == Pending(x)
  {
  }

  lemma DropPending(x: Record)
    requires x.kept <= x.todo < |x.arr|
    ensures Pending(x) == x.arr[..x.kept] + [x.arr[x.todo]] + x.arr[x.todo + 1..]
    ensures Pending(x.(todo := x.todo + 1)) == x.arr[..x.kept] + x.arr[x.todo + 1..]
  {
    assert x.arr[x.todo..] == [x.arr[x.todo]] + x.arr[x.todo + 1..];
  }

  lemma PushPending(x: Record, p: Word)
    requires x.kept <= x.todo <= |x.arr|
    ensures Pending(x.(arr := x.arr + [p])) == Pending(x) + [p]
  {
  }

  lemma Removed(a: seq<Word>, p: Word, b: seq<Word>)
    requires Distinct(a + [p] + b)
    ensures Distinct(a + b)
    ensures forall q :: q in a + b <==> q in a + [p] + b && q != p
  {
    var all := a + [p] + b;
    assert all[|a|] == p;
    forall i, j | 0 <= i < j < |a + b| ensures (a + b)[i] != (a + b)[j] {
      var i' := if i < |a| then i else i + 1;
      var j' := if j < |a| then j else j + 1;
      assert all[i'] == (a + b)[i] && all[j'] == (a + b)[j];
    }
    forall q | q in a + b ensures q in all && q != p {
      var i :| 0 <= i < |a + b| && (a + b)[i] == q;
      var i' := if i < |a| then i else i + 1;
      assert all[i'] == q;
    }
    forall q | q in all && q != p ensures q in a + b {
      var i :| 0 <= i < |all| && all[i] == q;
      assert i != |a|;
      assert (a + b)[if i < |a| then i else i - 1] == q;
    }
  }

  lemma Reordered(a: seq<Word>, b: seq<Word>)
    requires Distinct(a) && multiset(b) == multiset(a)
    ensures Distinct(b) && forall q :: q in b <==> q in a
  {
    InSorted(a, b);
    forall p ensures multiset(b)[p] <= 1 {
      DistinctCounts(a, p);
    }
    CountsDistinct(b);
  }

  lemma {:induction false} DistinctCounts(s: seq<Word>, p: Word)
    requires Distinct(s)
    ensures multiset(s)[p] <= 1
  {
    if s != [] {
      var t, x := s[..|s|-1], s[|s|-1];
      DistinctCounts(t, p);
      assert s == t + [x];
      SnocCount(t, x, p);
      assert x !in t;
      assert multiset(t)[x] == 0;
    }
  }

  // ----- accounts under each kind of step -----

  // Record x keeps its pending objects and nothing is charged to it or taken from it.
  lemma AccountStays(s: State, s': State, x: nat)
    requires x < |s.recs| && AccountOk(s, x) && x < |s'.recs|
    requires s'.recs[x].kept <= s'.recs[x].todo <= |s'.recs[x].arr|
    requires Pending(s'.recs[x]) == Pending(s.recs[x])
    requires forall p :: (p in s'.home && s'.home[p] == x) <==> (p in s.home && s.home[p] == x)
    ensures AccountOk(s', x)
  {
    forall p ensures Holds(s', x, p) <==> p in s'.home && s'.home[p] == x {
      assert Holds(s, x, p) <==> p in s.home && s.home[p] == x;
    }
  }

  // Steps that move no retired object.
  ghost predicate SameArrays(s: State, s': State) {
    && s'.home == s.home
    && |s'.recs| >= |s.recs|
    && (forall x :: 0 <= x < |s.recs| ==>
          s'.recs[x].arr == s.recs[x].arr && s'.recs[x].kept == s.recs[x].kept && s'.recs[x].todo == s.recs[x].todo)
    && (forall x :: |s.recs| <= x < |s'.recs| ==> s'.recs[x].arr == [] && s'.recs[x].kept == s'.recs[x].todo == 0)
    && s'.freed <= s.freed && s'.leaked == s.leaked
  }

  lemma SameAccounts(s: State, s': State)
    requires Accounts(s) && SameArrays(s, s')
    ensures Accounts(s')
  {
    forall x | 0 <= x < |s'.recs| ensures AccountOk(s', x) {
      if x < |s.recs| {
        AccountStays(s, s', x);
      } else {
        assert Pending(s'.recs[x]) == [];
        assert forall p :: !Holds(s', x, p);
      }
    }
  }

  lemma UserAccounts(cfg: Config, s: State, s': State, t: nat, ev: Event)
    requires Structured(cfg, s) && Accounts(s) && t < |s.threads| && UserStep(cfg, s, s', t, ev)
    ensures Accounts(s')
  {
    hide Structured, Accounts, AccountOk;
    if ev.Retire? {
      RetireAccounts(cfg, s, s', t, ev);
    } else {
      SameAccounts(s, s');
    }
  }

  lemma RetireAccounts(cfg: Config, s: State, s': State, t: nat, ev: Event)
    requires Accounts(s) && t < |s.threads| && ev.Retire? && UserStep(cfg, s, s', t, ev)
    ensures Accounts(s')
  {
    var r, p := s.threads[t].r, ev.p;
    forall x | 0 <= x < |s'.recs| ensures AccountOk(s', x) {
      AccountOf(s, x);
      if x != r {
        AccountStays(s, s', x);
      } else {
        PushPending(s.recs[r], p);
        assert !Holds(s, r, p);
        forall q ensures Holds(s', r, q) <==> q in s'.home && s'.home[q] == r {
          assert Holds(s, r, q) <==> q in s.home && s.home[q] == r;
        }
      }
    }
  }

  lemma AllocAccounts(cfg: Config, s: State, s': State, t: nat)
    requires Accounts(s) && t < |s.threads| && AllocStep(cfg, s, s', t)
    ensures Accounts(s')
  {
    hide Accounts;
    SameAccounts(s, s');
  }

  lemma ReleaseAccounts(s: State, s': State, t: nat)
    requires Accounts(s) && t < |s.threads| && ReleaseStep(s, s', t)
    ensures Accounts(s')
  {
    hide Accounts;
    SameAccounts(s, s');
  }

  lemma SeekAccounts(s: State, s': State, t: nat)
    requires Accounts(s) && t < |s.threads| && SeekStep(s, s', t)
    ensures Accounts(s')
  {
    hide Accounts;
    SameAccounts(s, s');
  }

  // Sorting the array before an in-place scan loses and invents nothing.
  lemma SortAccounts(cfg: Config, s: State, s': State, t: nat)
    requires Structured(cfg, s) && Accounts(s) && t < |s.threads| && s.threads[t].ScanStart?
    requires Begins(cfg, s, s', t, s.threads[t].r, s.threads[t].back) && s'.recs != s.recs
    ensures Accounts(s')
  {
    hide Even, Sorted, Distinct, ListOk;
    var r := s.threads[t].r;
    ThreadOf(cfg, s, t);
    RecordOf(cfg, s, r);
    forall x | 0 <= x < |s'.recs| ensures AccountOk(s', x) {
      AccountOf(s, x);
      if x != r {
        AccountStays(s, s', x);
      } else {
        SortedAccount(s, s', r);
      }
    }
  }

  lemma SortedAccount(s: State, s': State, r: nat)
    requires r < |s.recs| && AccountOk(s, r) && r < |s'.recs| && s'.home == s.home
    requires s.recs[r].kept == s.recs[r].todo == 0 && s'.recs[r] == s.recs[r].(arr := s'.recs[r].arr)
    requires multiset(s'.recs[r].arr) == multiset(s.recs[r].arr)
    ensures AccountOk(s', r)
  {
    var a, b := s.recs[r].arr, s'.recs[r].arr;
    assert Pending(s.recs[r]) == a && Pending(s'.recs[r]) == b;
    Reordered(a, b);
    forall p ensures Holds(s', r, p) <==> p in s'.home && s'.home[p] == r {
      assert Holds(s, r, p) <==> p in s.home && s.home[p] == r;
    }
  }

  lemma ReadAccounts(cfg: Config, s: State, s': State, t: nat)
    requires Structured(cfg, s) && Accounts(s) && t < |s.threads| && ReadStep(cfg, s, s', t)
    ensures Accounts(s')
  {
    hide Accounts, Structured, Even, Sorted;
    if s'.recs == s.recs {
      SameAccounts(s, s');
    } else {
      SortAccounts(cfg, s, s', t);
    }
  }

  // Freeing an object takes it out of the one record that held it.
  lemma FreeAccount(s: State, s': State, r: nat)
    requires r < |s.recs| && AccountOk(s, r) && r < |s'.recs| && s.recs[r].todo < |s.recs[r].arr|
    requires s'.recs[r] == s.recs[r].(todo := s.recs[r].todo + 1) && s'.home == s.home - {s.recs[r].arr[s.recs[r].todo]}
    ensures AccountOk(s', r)
  {
    var x := s.recs[r];
    var p := x.arr[x.todo];
    DropPending(x);
    Removed(x.arr[..x.kept], p, x.arr[x.todo + 1..]);
    forall q ensures Holds(s', r, q) <==> q in s'.home && s'.home[q] == r {
      assert Holds(s, r, q) <==> q in s.home && s.home[q] == r;
    }
  }

  lemma NextIsHeld(s: State, r: nat)
    requires r < |s.recs| && AccountOk(s, r) && s.recs[r].todo < |s.recs[r].arr|
    ensures var p := s.recs[r].arr[s.recs[r].todo]; p in s.home && s.home[p] == r
  {
    var x := s.recs[r];
    DropPending(x);
    assert Holds(s, r, x.arr[x.todo]);
  }

  lemma SweepAccounts(cfg: Config, s: State, s': State, t: nat)
    requires Structured(cfg, s) && Accounts(s) && t < |s.threads| && SweepStep(s, s', t)
    ensures Accounts(s')
  {
    hide Structured, Distinct;
    var r := s.threads[t].r;
    AccountOf(s, r);
    if s.recs[r].todo < |s.recs[r].arr| {
      NextIsHeld(s, r);
    }
    forall x | 0 <= x < |s'.recs| ensures AccountOk(s', x) {
      AccountOf(s, x);
      if x != r {
        AccountStays(s, s', x);
      } else {
        SweptAccount(s, s', t);
      }
    }
  }

  lemma SweptAccount(s: State, s': State, t: nat)
    requires t < |s.threads| && SweepStep(s, s', t) && AccountOk(s, s.threads[t].r)
    ensures AccountOk(s', s.threads[t].r)
  {
    var r := s.threads[t].r;
    var x := s.recs[r];
    assert x.kept <= x.todo <= |x.arr|;
    hide AccountOk;
    if x.todo == |x.arr| {
      CutPending(x);
      AccountStays(s, s', r);
    } else if x.arr[x.todo] in s.threads[t].seen {
      KeepPending(x);
      AccountStays(s, s', r);
    } else {
      FreeAccount(s, s', r);
    }
  }

  // Copying takes an object from the adopted record and charges it to the helper's.
  lemma CopyAccounts(cfg: Config, s: State, s': State, t: nat)
    requires Structured(cfg, s) && Accounts(s) && t < |s.threads| && AdoptStep(cfg, s, s', t)
    requires s.threads[t].HelpCopy? && s.recs[s.threads[t].c].todo < |s.recs[s.threads[t].c].arr|
    ensures Accounts(s')
  {
    hide Structured, Distinct, ListOk, RecordOk;
    var r, c := s.threads[t].r, s.threads[t].c;
    ThreadOf(cfg, s, t);
    AccountOf(s, c);
    NextIsHeld(s, c);
    forall x | 0 <= x < |s'.recs| ensures AccountOk(s', x) {
      AccountOf(s, x);
      if x != r && x != c {
        AccountStays(s, s', x);
      } else if x == c {
        CopiedFrom(s, s', c, r);
      } else {
        CopiedTo(s, s', r, s.recs[c].arr[s.recs[c].todo]);
      }
    }
  }

  lemma CopiedFrom(s: State, s': State, c: nat, r: nat)
    requires c < |s.recs| && AccountOk(s, c) && c < |s'.recs| && s.recs[c].todo < |s.recs[c].arr| && r != c
    requires s'.recs[c] == s.recs[c].(todo := s.recs[c].todo + 1)
    requires s'.home == s.home[s.recs[c].arr[s.recs[c].todo] := r]
    ensures AccountOk(s', c)
  {
    var x := s.recs[c];
    var p := x.arr[x.todo];
    DropPending(x);
    Removed(x.arr[..x.kept], p, x.arr[x.todo + 1..]);
    forall q ensures Holds(s', c, q) <==> q in s'.home && s'.home[q] == c {
      assert Holds(s, c, q) <==> q in s.home && s.home[q] == c;
    }
  }

  lemma CopiedTo(s: State, s': State, r: nat, p: Word)
    requires r < |s.recs| && AccountOk(s, r) && r < |s'.recs|
    requires s'.recs[r] == s.recs[r].(arr := s.recs[r].arr + [p]) && s'.home == s.home[p := r]
    requires p in s.home && s.home[p] != r
    ensures AccountOk(s', r)
  {
    PushPending(s.recs[r], p);
    assert !Holds(s, r, p);
    forall q ensures Holds(s', r, q) <==> q in s'.home && s'.home[q] == r {
      assert Holds(s, r, q) <==> q in s.home && s.home[q] == r;
    }
  }

  lemma EmptyAccounts(cfg: Config, s: State, s': State, t: nat)
    requires Structured(cfg, s) && Accounts(s) && t < |s.threads| && AdoptStep(cfg, s, s', t)
    requires s.threads[t].HelpCopy? && s.recs[s.threads[t].c].todo >= |s.recs[s.threads[t].c].arr|
    ensures Accounts(s')
  {
    hide Structured, Distinct, ListOk, AccountOk;
    var c := s.threads[t].c;
    ThreadOf(cfg, s, t);
    RecordOf(cfg, s, c);
    forall x | 0 <= x < |s'.recs| ensures AccountOk(s', x) {
      AccountOf(s, x);
      assert Pending(s'.recs[x]) == Pending(s.recs[x]);
      AccountStays(s, s', x);
    }
  }

  lemma AdoptAccounts(cfg: Config, s: State, s': State, t: nat)
    requires Structured(cfg, s) && Accounts(s) && t < |s.threads| && AdoptStep(cfg, s, s', t)
    ensures Accounts(s')
  {
    hide Structured, Accounts;
    if !s.threads[t].HelpCopy? {
      SameAccounts(s, s');
    } else if s.recs[s.threads[t].c].todo < |s.recs[s.threads[t].c].arr| {
      CopyAccounts(cfg, s, s', t);
    } else {
      EmptyAccounts(cfg, s, s', t);
    }
  }

  lemma DistinctParts(a: seq<Word>, b: seq<Word>)
    requires Distinct(a + b)
    ensures Distinct(a) && forall q :: q in a ==> q !in b
  {
    var c := a + b;
    forall i, j | 0 <= i < |a| && 0 <= j < |b| ensures a[i] != b[j] {
      assert c[i] != c[|a| + j];
    }
    forall i, j | 0 <= i < j < |a| ensures a[i] != a[j] {
      assert c[i] != c[j];
    }
  }

  // What a death in a sweep leaks leaves the account of the record.
  lemma LeakedAccount(s: State, s': State, r: nat)
    requires r < |s.recs| && AccountOk(s, r) && r < |s'.recs|
    requires var x := s.recs[r];
             && s'.recs[r] == x.(valid := {}, arr := x.arr[..x.kept], kept := 0, todo := 0)
             && s'.home == s.home - Rest(x)
    ensures AccountOk(s', r)
    ensures forall p :: p in Rest(s.recs[r]) ==> p in s.home && s.home[p] == r
  {
    var x := s.recs[r];
    var kept := x.arr[..x.kept];
    assert Pending(s'.recs[r]) == kept;
    DistinctParts(kept, x.arr[x.todo..]);
    forall p ensures Holds(s', r, p) <==> p in s'.home && s'.home[p] == r {
      assert Holds(s, r, p) <==> p in s.home && s.home[p] == r;
    }
    forall p | p in Rest(x) ensures p in s.home && s.home[p] == r {
      assert Holds(s, r, p);
    }
  }

  lemma LeakAccounts(cfg: Config, s: State, s': State, t: nat)
    requires Accounts(s) && t < |s.threads| && LeakStep(cfg, s, s', t)
    ensures Accounts(s')
  {
    hide Distinct, AccountOk;
    var r := s.threads[t].r;
    AccountOf(s, r);
    LeakedAccount(s, s', r);
    forall x | 0 <= x < |s'.recs| ensures AccountOk(s', x) {
      AccountOf(s, x);
      if x != r {
        OtherAccount(s, s', x, r);
      }
    }
  }

  lemma OtherAccount(s: State, s': State, x: nat, r: nat)
    requires x < |s.recs| == |s'.recs| && r < |s.recs| && x != r && AccountOk(s, x) && s'.recs[x] == s.recs[x]
    requires s.recs[r].todo <= |s.recs[r].arr| && s'.home == s.home - Rest(s.recs[r])
    requires forall p :: p in Rest(s.recs[r]) ==> p in s.home && s.home[p] == r
    ensures AccountOk(s', x)
  {
    AccountStays(s, s', x);
  }

  lemma StepAccounts(cfg: Config, s: State, s': State, t: nat, ev: Event)
    requires Structured(cfg, s) && Accounts(s) && Next(cfg, s, s', t, ev)
    ensures Accounts(s')
  {
    hide Structured, Accounts, UserStep, LeakStep, AllocStep, ReleaseStep, ReadStep, SweepStep, SeekStep, AdoptStep;
    if UserStep(cfg, s, s', t, ev) {
      UserAccounts(cfg, s, s', t, ev);
    } else if LeakStep(cfg, s, s', t) {
      LeakAccounts(cfg, s, s', t);
    } else if AllocStep(cfg, s, s', t) {
      AllocAccounts(cfg, s, s', t);
    } else if ReleaseStep(s, s', t) {
      ReleaseAccounts(s, s', t);
    } else if ReadStep(cfg, s, s', t) {
      ReadAccounts(cfg, s, s', t);
    } else if SweepStep(s, s', t) {
      SweepAccounts(cfg, s, s', t);
    } else if SeekStep(s, s', t) {
      SeekAccounts(s, s', t);
    } else {
      AdoptAccounts(cfg, s, s', t);
    }
  }
}
