/** The two scans of a hazard-pointer record's retired array, run against one reading of all
    hazard slots. A retired pointer is one machine word, seen as an address and as a number. */
module HazardScan {
  import opened Collections

  type Word = nat

  // A record as the scan reads it.
  datatype HpRecord = HpRecord(free: bool, hzp: seq<Word>)

  // A bounded array of retired pointers; clear only resets the count.
  class RetiredVector {
    const arr: array<Word>
    var n: nat

    ghost predicate Valid()
      reads this
    {
      n <= arr.Length
    }

    ghost function Contents(): seq<Word>
      requires Valid()
      reads this, arr
    {
      arr[..n]
    }

    constructor (capacity: nat)
      ensures Valid() && Contents() == [] && arr.Length == capacity && fresh(arr)
    {
      arr := new Word[capacity];
      n := 0;
    }

    method Push(p: Word)
      requires Valid() && n < arr.Length
      modifies this, arr
      ensures Valid() && Contents() == old(Contents()) + [p]
      ensures n == old(n) + 1 && forall i :: n <= i < arr.Length ==> arr[i] == old(arr[i])
    {
      arr[n] := p;
      n := n + 1;
    }
  }

  // ----- guards -----

  // Some slot holds p; an in-place scan skips the slots of records marked free.
  ghost predicate SlotHolds(recs: seq<HpRecord>, p: Word, skipFree: bool) {
    p != 0 && exists r :: 0 <= r < |recs| && (skipFree ==> !recs[r].free) && p in recs[r].hzp
  }

  function SlotCount(recs: seq<HpRecord>): nat {
    if recs == [] then 0 else SlotCount(recs[..|recs|-1]) + |recs[|recs|-1].hzp|
  }

  // ----- what the scans compute -----

  // The entries a classic scan keeps and frees, in array order.
  ghost function Kept(s: seq<Word>, recs: seq<HpRecord>): seq<Word> {
    if s == [] then []
    else Kept(s[..|s|-1], recs) + if SlotHolds(recs, s[|s|-1], false) then [s[|s|-1]] else []
  }

  ghost function Freed(s: seq<Word>, recs: seq<HpRecord>): seq<Word> {
    if s == [] then []
    else Freed(s[..|s|-1], recs) + if SlotHolds(recs, s[|s|-1], false) then [] else [s[|s|-1]]
  }

  predicate Sorted(s: seq<Word>) {
    forall i, j :: 0 <= i < j < |s| ==> s[i] <= s[j]
  }

  predicate Even(s: seq<Word>) {
    forall i :: 0 <= i < |s| ==> s[i] % 2 == 0
  }

  // In a sorted array an in-place scan marks only the first of equal entries.
  ghost predicate Marked(w: seq<Word>, k: nat, recs: seq<HpRecord>)
    requires k < |w|
  {
    (k == 0 || w[k-1] != w[k]) && SlotHolds(recs, w[k], true)
  }

  ghost function KeptInPlace(w: seq<Word>, recs: seq<HpRecord>, k: nat): seq<Word>
    requires k <= |w|
  {
    if k == 0 then [] else KeptInPlace(w, recs, k - 1) + if Marked(w, k - 1, recs) then [w[k-1]] else []
  }

  ghost function FreedInPlace(w: seq<Word>, recs: seq<HpRecord>, k: nat): seq<Word>
    requires k <= |w|
  {
    if k == 0 then [] else FreedInPlace(w, recs, k - 1) + if Marked(w, k - 1, recs) then [] else [w[k-1]]
  }

  // ----- sorting and searching -----

  method Sort(s: seq<Word>) returns (r: seq<Word>)
    ensures Sorted(r) && multiset(r) == multiset(s)
  {
    r := [];
    for i := 0 to |s|
      invariant Sorted(r) && multiset(r) == multiset(s[..i])
    {
      var j := |r|;
      while j > 0 && r[j-1] > s[i]
        invariant 0 <= j <= |r| && forall k :: j <= k < |r| ==> r[k] > s[i]
      {
        j := j - 1;
      }
      assert s[..i+1] == s[..i] + [s[i]];
      Inserted(r, s[i], j);
      InsertedCounts(r, s[i], j);
      r := r[..j] + [s[i]] + r[j..];
    }
    assert s[..|s|] == s;
  }

  lemma Inserted(r: seq<Word>, x: Word, j: nat)
    requires Sorted(r) && j <= |r|
    requires j > 0 ==> r[j-1] <= x
    requires forall k :: j <= k < |r| ==> r[k] > x
    ensures Sorted(r[..j] + [x] + r[j..])
  {
    var t := r[..j] + [x] + r[j..];
    assert forall k :: 0 <= k < j ==> r[k] <= x;
    forall a, b | 0 <= a < b < |t| ensures t[a] <= t[b] {
      assert t[a] == if a < j then r[a] else if a == j then x else r[a-1];
      assert t[b] == if b < j then r[b] else if b == j then x else r[b-1];
    }
  }

  lemma InsertedCounts(r: seq<Word>, x: Word, j: nat)
    requires j <= |r|
    ensures multiset(r[..j] + [x] + r[j..]) == multiset(r) + multiset{x}
  {
    calc {
      multiset(r[..j] + [x] + r[j..]);
      multiset(r[..j]) + multiset{x} + multiset(r[j..]);
      multiset(r[..j]) + multiset(r[j..]) + multiset{x};
      multiset(r[..j] + r[j..]) + multiset{x};
      { assert r == r[..j] + r[j..]; }
      multiset(r) + multiset{x};
    }
  }

  method BinarySearch(s: seq<Word>, p: Word) returns (found: bool)
    requires Sorted(s)
    ensures found <==> p in s
  {
    var lo, hi := 0, |s|;
    while lo < hi
      invariant 0 <= lo <= hi <= |s|
      invariant forall k :: 0 <= k < lo ==> s[k] < p
      invariant forall k :: hi <= k < |s| ==> s[k] >= p
    {
      var mid := (lo + hi) / 2;
      if s[mid] < p {
        lo := mid + 1;
      } else {
        hi := mid;
      }
    }
    found := lo < |s| && s[lo] == p;
  }

  // The entries below p come before the others.
  ghost predicate Partitioned(s: seq<Word>, p: Word) {
    forall i, j :: 0 <= i < j < |s| && s[j] < p ==> s[i] < p
  }

  // Always stays in bounds; finds the first entry not below p if the array is partitioned by p.
  method LowerBound(a: array<Word>, n: nat, p: Word) returns (it: nat)
    requires n <= a.Length
    ensures it <= n
    ensures Partitioned(a[..n], p) ==>
              (forall k :: 0 <= k < it ==> a[k] < p) && (forall k :: it <= k < n ==> a[k] >= p)
  {
    it := 0;
    var len := n;
    while len > 0
      invariant it + len <= n
      invariant Partitioned(a[..n], p) ==> forall k :: 0 <= k < it ==> a[k] < p
      invariant Partitioned(a[..n], p) ==> forall k :: it + len <= k < n ==> a[k] >= p
    {
      var half := len / 2;
      assert a[..n][it + half] == a[it + half];
      if a[it + half] < p {
        assert Partitioned(a[..n], p) ==> forall k :: 0 <= k < it + half ==> a[..n][k] < p;
        it := it + half + 1;
        len := len - half - 1;
      } else {
        assert Partitioned(a[..n], p) ==> forall k :: it + half < k < n ==> a[..n][k] >= p;
        len := half;
      }
    }
  }

  // ----- classic scan -----

  // Stage 1: all non-null slots.
  method CollectHazards(recs: seq<HpRecord>) returns (plist: seq<Word>)
    ensures forall p :: p in plist <==> SlotHolds(recs, p, false)
  {
    plist := [];
    for r := 0 to |recs|
      invariant forall p :: p in plist <==> SlotHolds(recs[..r], p, false)
    {
      ghost var before := plist;
      for i := 0 to |recs[r].hzp|
        invariant forall p :: p in plist <==> p in before || (p != 0 && p in recs[r].hzp[..i])
      {
        var hptr := recs[r].hzp[i];
        if hptr != 0 {
          plist := plist + [hptr];
        }
        assert recs[r].hzp[..i+1] == recs[r].hzp[..i] + [hptr];
      }
      assert recs[r].hzp[..|recs[r].hzp|] == recs[r].hzp;
      forall p
        ensures SlotHolds(recs[..r+1], p, false) <==> SlotHolds(recs[..r], p, false) || (p != 0 && p in recs[r].hzp)
      {
        SlotHoldsStep(recs, r, p, false);
      }
    }
    assert recs[..|recs|] == recs;
  }

  lemma SlotHoldsStep(recs: seq<HpRecord>, r: nat, p: Word, skipFree: bool)
    requires r < |recs|
    ensures SlotHolds(recs[..r+1], p, skipFree) <==>
              SlotHolds(recs[..r], p, skipFree) || (p != 0 && (skipFree ==> !recs[r].free) && p in recs[r].hzp)
  {
    var a, b := recs[..r], recs[..r+1];
    assert b == a + [recs[r]];
    if SlotHolds(a, p, skipFree) {
      var i :| 0 <= i < |a| && (skipFree ==> !a[i].free) && p in a[i].hzp;
      assert b[i] == a[i];
    }
    if p != 0 && (skipFree ==> !recs[r].free) && p in recs[r].hzp {
      assert b[r] == recs[r];
    }
  }

  // Keeps exactly the entries some slot holds, in their order, and frees the others.
  method ClassicScan(v: RetiredVector, recs: seq<HpRecord>) returns (freed: seq<Word>)
    requires v.Valid()
    modifies v, v.arr
    ensures v.Valid()
    ensures v.Contents() == Kept(old(v.Contents()), recs)
    ensures freed == Freed(old(v.Contents()), recs)
  {
    var plist := CollectHazards(recs);
    var sorted := Sort(plist);
    InSorted(plist, sorted);
    ghost var s := v.Contents();
    var itEnd := v.n;
    v.n := 0;
    freed := [];
    for it := 0 to itEnd
      invariant v.Valid() && v.n <= it && itEnd <= v.arr.Length
      invariant v.Contents() == Kept(s[..it], recs) && freed == Freed(s[..it], recs)
      invariant forall k :: it <= k < itEnd ==> v.arr[k] == s[k]
    {
      assert s[..it+1][..it] == s[..it];
      var guarded := BinarySearch(sorted, v.arr[it]);
      if guarded {
        v.Push(v.arr[it]);
      } else {
        freed := freed + [v.arr[it]];
      }
    }
    assert s[..itEnd] == s;
  }

  lemma InSorted(a: seq<Word>, b: seq<Word>)
    requires multiset(a) == multiset(b)
    ensures forall p :: p in a <==> p in b
  {
    forall p ensures p in a <==> p in b {
      assert p in a <==> p in multiset(a);
      assert p in b <==> p in multiset(b);
    }
  }

  // ----- in-place scan -----

  // The array while slots are being read: w with the first of equal entries marked once seen.
  ghost predicate MarkedSoFar(a: seq<Word>, w: seq<Word>, seen: set<Word>) {
    |a| == |w| && forall k :: 0 <= k < |w| ==> a[k] == MarkedValue(w, seen, k)
  }

  ghost function MarkedValue(w: seq<Word>, seen: set<Word>, k: nat): Word
    requires k < |w|
  {
    if (k == 0 || w[k-1] != w[k]) && w[k] in seen then w[k] + 1 else w[k]
  }

  lemma EvenGap(x: Word, y: Word)
    requires x % 2 == 0 && y % 2 == 0 && x < y
    ensures x + 1 < y
  {
    assert x == 2 * (x / 2) && y == 2 * (y / 2);
  }

  // Marking never breaks the order that later searches rely on.
  lemma MarksKeepOrder(a: seq<Word>, w: seq<Word>, seen: set<Word>, p: Word)
    requires Sorted(w) && Even(w) && MarkedSoFar(a, w, seen) && p % 2 == 0
    ensures Partitioned(a, p)
    ensures forall k :: 0 <= k < |w| ==> (a[k] < p <==> w[k] < p)
  {
    forall k | 0 <= k < |w| ensures a[k] < p <==> w[k] < p {
      assert w[k] % 2 == 0 && a[k] == MarkedValue(w, seen, k);
      if w[k] < p {
        EvenGap(w[k], p);
      }
    }
  }

  // Without duplicates the marked array even stays strictly sorted.
  lemma MarksKeepStrictOrder(a: seq<Word>, w: seq<Word>, seen: set<Word>, i: nat, j: nat)
    requires Sorted(w) && Even(w) && MarkedSoFar(a, w, seen)
    requires i < j < |w| && w[i] != w[j]
    ensures a[i] < a[j]
  {
    assert w[i] <= w[j] && w[i] % 2 == 0 && w[j] % 2 == 0;
    assert a[i] == MarkedValue(w, seen, i) && a[j] == MarkedValue(w, seen, j);
    EvenGap(w[i], w[j]);
  }

  // One non-null slot value: marks the entry equal to it, if there is one and it is unmarked.
  method MarkSlot(a: array<Word>, n: nat, hptr: Word, ghost w: seq<Word>, ghost seen: set<Word>)
    requires n <= a.Length && Sorted(w) && Even(w) && MarkedSoFar(a[..n], w, seen)
    modifies a
    ensures MarkedSoFar(a[..n], w, seen + {hptr})
    ensures forall k :: n <= k < a.Length ==> a[k] == old(a[k])
  {
    ghost var before := a[..n];
    if hptr % 2 == 0 {
      MarksKeepOrder(before, w, seen, hptr);
    }
    var it := LowerBound(a, n, hptr);
    if it != n && a[it] == hptr {
      if a[it] % 2 == 0 {
        assert before[it] == hptr;
        a[it] := a[it] + 1;
      }
    }
    assert forall k :: 0 <= k < n && k != it ==> a[..n][k] == before[k];
    if hptr % 2 == 0 {
      forall k | 0 <= k < n
        ensures a[..n][k] == MarkedValue(w, seen + {hptr}, k)
      {
        assert before[k] == MarkedValue(w, seen, k);
        assert before[k] < hptr <==> w[k] < hptr;
        assert k > 0 ==> (before[k-1] < hptr <==> w[k-1] < hptr);
      }
    } else {
      forall k | 0 <= k < n
        ensures a[..n][k] == MarkedValue(w, seen + {hptr}, k)
      {
        assert w[k] % 2 == 0 && before[k] == MarkedValue(w, seen, k);
      }
    }
  }

  // The slot values an in-place scan has read in the first r records and the first i slots of the next.
  ghost function Seen(recs: seq<HpRecord>, r: nat, i: nat): set<Word>
    requires r <= |recs| && (r < |recs| ==> i <= |recs[r].hzp|)
  {
    (set p | p in SlotValues(recs) && SlotHolds(recs[..r], p, true))
      + (if r < |recs| && !recs[r].free then set p | p in recs[r].hzp[..i] && p != 0 else {})
  }

  ghost function SlotValues(recs: seq<HpRecord>): set<Word> {
    set r, p | 0 <= r < |recs| && p in recs[r].hzp :: p
  }

  lemma SeenNextRecord(recs: seq<HpRecord>, r: nat)
    requires r < |recs|
    ensures Seen(recs, r + 1, 0) == if recs[r].free then Seen(recs, r, 0) else Seen(recs, r, |recs[r].hzp|)
  {
    assert recs[r].hzp[..|recs[r].hzp|] == recs[r].hzp;
    forall p
      ensures SlotHolds(recs[..r+1], p, true) <==>
                SlotHolds(recs[..r], p, true) || (p != 0 && !recs[r].free && p in recs[r].hzp)
    {
      SlotHoldsStep(recs, r, p, true);
    }
    assert forall p :: p in recs[r].hzp ==> p in SlotValues(recs);
  }

  lemma SeenNextSlot(recs: seq<HpRecord>, r: nat, i: nat)
    requires r < |recs| && !recs[r].free && i < |recs[r].hzp|
    ensures var p := recs[r].hzp[i];
            Seen(recs, r, i + 1) == if p == 0 then Seen(recs, r, i) else Seen(recs, r, i) + {p}
  {
    assert recs[r].hzp[..i+1] == recs[r].hzp[..i] + [recs[r].hzp[i]];
  }

  lemma SeenAll(recs: seq<HpRecord>, p: Word)
    ensures p in Seen(recs, |recs|, 0) <==> SlotHolds(recs, p, true)
  {
    assert recs[..|recs|] == recs;
  }

  // All slots of all records that are not free.
  method MarkAll(a: array<Word>, n: nat, recs: seq<HpRecord>, ghost w: seq<Word>)
    requires n <= a.Length && Sorted(w) && Even(w) && a[..n] == w
    modifies a
    ensures MarkedSoFar(a[..n], w, Seen(recs, |recs|, 0))
    ensures forall k :: n <= k < a.Length ==> a[k] == old(a[k])
  {
    for r := 0 to |recs|
      invariant MarkedSoFar(a[..n], w, Seen(recs, r, 0))
      invariant forall k :: n <= k < a.Length ==> a[k] == old(a[k])
    {
      SeenNextRecord(recs, r);
      if !recs[r].free {
        for i := 0 to |recs[r].hzp|
          invariant MarkedSoFar(a[..n], w, Seen(recs, r, i))
          invariant forall k :: n <= k < a.Length ==> a[k] == old(a[k])
        {
          SeenNextSlot(recs, r, i);
          var hptr := recs[r].hzp[i];
          if hptr != 0 {
            MarkSlot(a, n, hptr, w, Seen(recs, r, i));
          }
        }
      }
    }
  }

  // Moves the marked entries to the head, unmarked again, and frees the others. An entry is
  // always read before its place is written.
  method Compact(v: RetiredVector, recs: seq<HpRecord>, ghost w: seq<Word>) returns (freed: seq<Word>)
    requires v.Valid() && Even(w) && |w| == v.n
    requires MarkedSoFar(v.arr[..v.n], w, Seen(recs, |recs|, 0))
    modifies v, v.arr
    ensures v.Valid() && v.Contents() == KeptInPlace(w, recs, |w|) && freed == FreedInPlace(w, recs, |w|)
  {
    var itInsert := 0;
    freed := [];
    ghost var a0 := v.arr[..v.n];
    var itEnd := v.n;
    for it := 0 to itEnd
      invariant itInsert <= it && v.n == itEnd
      invariant v.arr[..itInsert] == KeptInPlace(w, recs, it) && freed == FreedInPlace(w, recs, it)
      invariant forall k :: it <= k < itEnd ==> v.arr[k] == a0[k]
    {
      SeenAll(recs, w[it]);
      assert w[it] % 2 == 0;
      ghost var head := v.arr[..itInsert];
      if v.arr[it] % 2 == 1 {
        v.arr[it] := v.arr[it] - 1;
        if itInsert != it {
          v.arr[itInsert] := v.arr[it];
        }
        itInsert := itInsert + 1;
        assert v.arr[..itInsert] == head + [w[it]];
      } else {
        freed := freed + [v.arr[it]];
      }
    }
    v.n := itInsert;
  }

  // Keeps one copy of every entry held by a slot of a record that is not free, and frees the
  // rest; falls back to the classic scan when some entry has its low bit set.
  method InplaceScan(v: RetiredVector, recs: seq<HpRecord>) returns (freed: seq<Word>, ghost w: seq<Word>)
    requires v.Valid()
    modifies v, v.arr
    ensures v.Valid()
    ensures !Even(old(v.Contents())) ==>
              v.Contents() == Kept(old(v.Contents()), recs) && freed == Freed(old(v.Contents()), recs)
    ensures Even(old(v.Contents())) ==>
              && Sorted(w) && multiset(w) == multiset(old(v.Contents()))
              && v.Contents() == KeptInPlace(w, recs, |w|) && freed == FreedInPlace(w, recs, |w|)
  {
    hide Even, Sorted, KeptInPlace, FreedInPlace, Kept, Freed, MarkedSoFar, Seen;
    w := [];
    var even := AllEven(v.arr, v.n);
    if !even {
      freed := ClassicScan(v, recs);
    } else {
      w := SortPrefix(v.arr, v.n);
      SortedStaysEven(old(v.Contents()), w);
      MarkAll(v.arr, v.n, recs, w);
      freed := Compact(v, recs, w);
    }
  }

  method AllEven(a: array<Word>, n: nat) returns (even: bool)
    requires n <= a.Length
    ensures even <==> Even(a[..n])
  {
    for k := 0 to n
      invariant forall j :: 0 <= j < k ==> a[j] % 2 == 0
    {
      if a[k] % 2 == 1 {
        assert a[..n][k] % 2 != 0;
        return false;
      }
    }
    return true;
  }

  // Sorts the first n entries in place.
  method SortPrefix(a: array<Word>, n: nat) returns (ghost w: seq<Word>)
    requires n <= a.Length
    modifies a
    ensures a[..n] == w && Sorted(w) && multiset(w) == multiset(old(a[..n]))
    ensures forall k :: n <= k < a.Length ==> a[k] == old(a[k])
  {
    hide Sorted;
    var sorted := Sort(a[..n]);
    assert |multiset(sorted)| == |multiset(a[..n])|;
    w := sorted;
    for k := 0 to n
      invariant forall j :: 0 <= j < k ==> a[j] == sorted[j]
      invariant forall j :: n <= j < a.Length ==> a[j] == old(a[j])
    {
      a[k] := sorted[k];
    }
  }

  lemma SortedStaysEven(s: seq<Word>, w: seq<Word>)
    requires multiset(s) == multiset(w) && Even(s)
    ensures Even(w) && |s| == |w|
  {
    assert |multiset(s)| == |s| && |multiset(w)| == |w|;
    InSorted(s, w);
    forall k | 0 <= k < |w| ensures w[k] % 2 == 0 {
      assert w[k] in s;
    }
  }

  // ----- the in-place scan against the classic one -----

  lemma SnocCount(s: seq<Word>, x: Word, p: Word)
    ensures multiset(s + [x])[p] == multiset(s)[p] + if p == x then 1 else 0
  {
  }

  lemma ClassicStep(s: seq<Word>, recs: seq<HpRecord>)
    requires s != []
    ensures var t, x := s[..|s|-1], s[|s|-1];
            && s == t + [x]
            && Kept(s, recs) == (if SlotHolds(recs, x, false) then Kept(t, recs) + [x] else Kept(t, recs))
            && Freed(s, recs) == (if SlotHolds(recs, x, false) then Freed(t, recs) else Freed(t, recs) + [x])
  {
    hide SlotHolds;
  }

  // Every entry is kept or freed, and kept in all its copies exactly if some slot holds it.
  lemma {:induction false} KeptCount(s: seq<Word>, recs: seq<HpRecord>, p: Word)
    ensures multiset(Kept(s, recs))[p] == if SlotHolds(recs, p, false) then multiset(s)[p] else 0
    ensures multiset(Kept(s, recs))[p] + multiset(Freed(s, recs))[p] == multiset(s)[p]
  {
    if s != [] {
      var t, x := s[..|s|-1], s[|s|-1];
      KeptCount(t, recs, p);
      ClassicStep(s, recs);
      hide *;
      SnocCount(t, x, p);
      SnocCount(Kept(t, recs), x, p);
      SnocCount(Freed(t, recs), x, p);
    }
  }

  lemma InPlaceStep(w: seq<Word>, recs: seq<HpRecord>, k: nat)
    requires 0 < k <= |w|
    ensures var x := w[k-1];
            && KeptInPlace(w, recs, k) == KeptInPlace(w, recs, k - 1) + (if Marked(w, k - 1, recs) then [x] else [])
            && FreedInPlace(w, recs, k) == FreedInPlace(w, recs, k - 1) + (if Marked(w, k - 1, recs) then [] else [x])
  {
    hide Marked;
  }

  lemma InPlaceCounts(w: seq<Word>, recs: seq<HpRecord>, k: nat, p: Word)
    requires 0 < k <= |w|
    ensures multiset(KeptInPlace(w, recs, k))[p] ==
              multiset(KeptInPlace(w, recs, k - 1))[p] + if Marked(w, k - 1, recs) && p == w[k-1] then 1 else 0
    ensures multiset(FreedInPlace(w, recs, k))[p] ==
              multiset(FreedInPlace(w, recs, k - 1))[p] + if !Marked(w, k - 1, recs) && p == w[k-1] then 1 else 0
  {
    hide Marked, KeptInPlace, FreedInPlace;
    InPlaceStep(w, recs, k);
    SnocCount(KeptInPlace(w, recs, k - 1), w[k-1], p);
    SnocCount(FreedInPlace(w, recs, k - 1), w[k-1], p);
  }

  lemma NothingDone(w: seq<Word>, recs: seq<HpRecord>)
    ensures w[..0] == [] && KeptInPlace(w, recs, 0) == [] && FreedInPlace(w, recs, 0) == []
  {
  }

  lemma TakeCount(w: seq<Word>, k: nat, p: Word)
    requires 0 < k <= |w|
    ensures multiset(w[..k])[p] == multiset(w[..k-1])[p] + if p == w[k-1] then 1 else 0
  {
    assert w[..k] == w[..k-1] + [w[k-1]];
    SnocCount(w[..k-1], w[k-1], p);
  }

  // Every entry is kept or freed by the in-place scan, never both.
  lemma {:induction false} InPlaceParts(w: seq<Word>, recs: seq<HpRecord>, k: nat, p: Word)
    requires k <= |w|
    ensures multiset(KeptInPlace(w, recs, k))[p] + multiset(FreedInPlace(w, recs, k))[p] == multiset(w[..k])[p]
  {
    hide *;
    NothingDone(w, recs);
    if k > 0 {
      InPlaceParts(w, recs, k - 1, p);
      InPlaceCounts(w, recs, k, p);
      TakeCount(w, k, p);
    }
  }

  lemma FirstOfEqual(w: seq<Word>, k: nat)
    requires Sorted(w) && k < |w|
    ensures (k == 0 || w[k-1] != w[k]) <==> w[k] !in w[..k]
  {
    if w[k] in w[..k] {
      var j :| 0 <= j < k && w[j] == w[k];
      assert w[j] <= w[k-1] <= w[k];
    }
  }

  lemma {:induction false} KeptInPlaceCount(w: seq<Word>, recs: seq<HpRecord>, k: nat, p: Word)
    requires Sorted(w) && k <= |w|
    ensures multiset(KeptInPlace(w, recs, k))[p] == if SlotHolds(recs, p, true) && p in w[..k] then 1 else 0
  {
    hide SlotHolds, Sorted, KeptInPlace, FreedInPlace;
    NothingDone(w, recs);
    if k > 0 {
      KeptInPlaceCount(w, recs, k - 1, p);
      FirstOfEqual(w, k - 1);
      InPlaceCounts(w, recs, k, p);
      TakeMember(w, k, p);
    }
  }

  lemma TakeMember(w: seq<Word>, k: nat, p: Word)
    requires 0 < k <= |w|
    ensures p in w[..k] <==> p in w[..k-1] || p == w[k-1]
  {
    assert w[..k] == w[..k-1] + [w[k-1]];
  }

  // Every guarded pointer is seen by the in-place scan and was retired only once.
  ghost predicate RefinementCondition(s: seq<Word>, recs: seq<HpRecord>) {
    forall p :: p in s && SlotHolds(recs, p, false) ==> SlotHolds(recs, p, true) && multiset(s)[p] == 1
  }

  lemma ScanCounts(s: seq<Word>, w: seq<Word>, recs: seq<HpRecord>, p: Word)
    requires Sorted(w) && multiset(w) == multiset(s)
    ensures multiset(KeptInPlace(w, recs, |w|))[p] == if SlotHolds(recs, p, true) && p in s then 1 else 0
    ensures multiset(Kept(s, recs))[p] == if SlotHolds(recs, p, false) then multiset(s)[p] else 0
    ensures SlotHolds(recs, p, true) ==> SlotHolds(recs, p, false)
    ensures p in s <==> multiset(s)[p] > 0
  {
    assert w[..|w|] == w;
    InSorted(w, s);
    KeptCount(s, recs, p);
    KeptInPlaceCount(w, recs, |w|, p);
    if SlotHolds(recs, p, true) {
      ActiveIsHeld(recs, p);
    }
    assert p in s <==> p in multiset(s);
  }

  // On even pointers the in-place scan keeps and frees what the classic scan does, exactly if every
  // guarded pointer of the array is seen in a used record and retired once.
  lemma InplaceRefinesClassic(s: seq<Word>, w: seq<Word>, recs: seq<HpRecord>)
    requires Sorted(w) && multiset(w) == multiset(s)
    ensures multiset(KeptInPlace(w, recs, |w|)) == multiset(Kept(s, recs)) <==> RefinementCondition(s, recs)
    ensures multiset(FreedInPlace(w, recs, |w|)) == multiset(Freed(s, recs)) <==> RefinementCondition(s, recs)
  {
    hide SlotHolds, Kept, Freed, KeptInPlace, FreedInPlace;
    var a, b := multiset(KeptInPlace(w, recs, |w|)), multiset(Kept(s, recs));
    if RefinementCondition(s, recs) {
      forall p ensures a[p] == b[p] {
        ScanCounts(s, w, recs, p);
      }
      assert a == b;
    }
    if a == b {
      forall p | p in s && SlotHolds(recs, p, false) ensures SlotHolds(recs, p, true) && multiset(s)[p] == 1 {
        ScanCounts(s, w, recs, p);
      }
    }
    assert w[..|w|] == w;
    var c, d := multiset(FreedInPlace(w, recs, |w|)), multiset(Freed(s, recs));
    forall p ensures a[p] + c[p] == b[p] + d[p] {
      InPlaceParts(w, recs, |w|, p);
      KeptCount(s, recs, p);
    }
    Complements(a, c, b, d);
  }

  // A guard left in a record marked free: the classic scan keeps its object, the in-place scan frees it.
  lemma StaleGuardDiffers(p: Word)
    requires p != 0 && p % 2 == 0
    ensures var recs := [HpRecord(true, [p])];
            Kept([p], recs) == [p] && KeptInPlace([p], recs, 1) == [] && FreedInPlace([p], recs, 1) == [p]
  {
    var recs := [HpRecord(true, [p])];
    assert recs[0].hzp[0] == p;
    assert [p][..0] == [];
    assert Kept([], recs) == [];
  }

  // A guarded pointer retired twice: the classic scan keeps both copies, the in-place scan frees one.
  lemma DuplicateDiffers(p: Word)
    requires p != 0 && p % 2 == 0
    ensures var recs := [HpRecord(false, [p])];
            Kept([p, p], recs) == [p, p] && KeptInPlace([p, p], recs, 2) == [p] && FreedInPlace([p, p], recs, 2) == [p]
  {
    var recs, w := [HpRecord(false, [p])], [p, p];
    assert recs[0].hzp[0] == p;
    assert SlotHolds(recs, p, true) && SlotHolds(recs, p, false);
    assert w[..1] == [p] && [p][..0] == [];
    assert Kept([], recs) == [] && Kept([p], recs) == [p];
    assert KeptInPlace(w, recs, 0) == [] && KeptInPlace(w, recs, 1) == [p];
    assert FreedInPlace(w, recs, 0) == [] && FreedInPlace(w, recs, 1) == [];
  }

  lemma ActiveIsHeld(recs: seq<HpRecord>, p: Word)
    requires SlotHolds(recs, p, true)
    ensures SlotHolds(recs, p, false)
  {
  }

  lemma Complements(a: multiset<Word>, c: multiset<Word>, b: multiset<Word>, d: multiset<Word>)
    requires forall p :: a[p] + c[p] == b[p] + d[p]
    ensures a == b <==> c == d
  {
    if a == b {
      assert forall p :: c[p] == d[p];
    }
    if c == d {
      assert forall p :: a[p] == b[p];
    }
  }

  // ----- bounded garbage -----

  lemma {:induction false} SlotValuesBounded(recs: seq<HpRecord>)
    ensures |SlotValues(recs)| <= SlotCount(recs)
  {
    if recs != [] {
      var front, last := recs[..|recs|-1], recs[|recs|-1];
      SlotValuesBounded(front);
      var own := set p | p in last.hzp;
      ElementsBound(last.hzp, own);
      assert SlotValues(recs) == SlotValues(front) + own;
    }
  }

  lemma HeldIsSlotValue(recs: seq<HpRecord>, p: Word, skipFree: bool)
    requires SlotHolds(recs, p, skipFree)
    ensures p in SlotValues(recs)
  {
  }

  lemma {:induction false} KeptFacts(s: seq<Word>, recs: seq<HpRecord>)
    requires Distinct(s)
    ensures Distinct(Kept(s, recs))
    ensures forall p :: p in Kept(s, recs) <==> p in s && SlotHolds(recs, p, false)
  {
    if s != [] {
      KeptFacts(s[..|s|-1], recs);
      assert s == s[..|s|-1] + [s[|s|-1]];
    }
  }

  // A classic scan of pointers retired once leaves at most as many as there are slots.
  lemma ClassicScanBounds(s: seq<Word>, recs: seq<HpRecord>)
    requires Distinct(s)
    ensures |Kept(s, recs)| <= SlotCount(recs)
  {
    KeptFacts(s, recs);
    var kept := Kept(s, recs);
    forall i | 0 <= i < |kept| ensures kept[i] in SlotValues(recs) {
      assert kept[i] in kept;
      HeldIsSlotValue(recs, kept[i], false);
    }
    DistinctBound(kept, SlotValues(recs));
    SlotValuesBounded(recs);
  }

  // An in-place scan does so for any retired pointers, repeated or not.
  lemma InplaceScanBounds(w: seq<Word>, recs: seq<HpRecord>)
    requires Sorted(w)
    ensures |KeptInPlace(w, recs, |w|)| <= SlotCount(recs)
  {
    var kept := KeptInPlace(w, recs, |w|);
    forall i | 0 <= i < |kept| ensures kept[i] in SlotValues(recs) {
      KeptInPlaceCount(w, recs, |w|, kept[i]);
      assert kept[i] in multiset(kept);
      HeldIsSlotValue(recs, kept[i], true);
    }
    forall p ensures multiset(kept)[p] <= 1 {
      KeptInPlaceCount(w, recs, |w|, p);
    }
    CountsDistinct(kept);
    DistinctBound(kept, SlotValues(recs));
    SlotValuesBounded(recs);
  }

  lemma CountsDistinct(s: seq<Word>)
    requires forall p :: multiset(s)[p] <= 1
    ensures Distinct(s)
  {
    forall i, j | 0 <= i < j < |s| ensures s[i] != s[j] {
      assert s == s[..j] + s[j..];
      assert multiset(s)[s[j]] == multiset(s[..j])[s[j]] + multiset(s[j..])[s[j]];
      assert s[j..][0] == s[j] && s[j] in multiset(s[j..]);
      assert s[..j][i] == s[i] && s[i] in multiset(s[..j]);
    }
  }
}
