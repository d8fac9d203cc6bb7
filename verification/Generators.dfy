/** The generators of a test as an odometer: one index per generator, the first one turning
    fastest, and the loop that runs the test once for every combination. */
module Generators {

  predicate IsTuple(sizes: seq<nat>, d: seq<nat>) {
    |d| == |sizes| && forall i :: 0 <= i < |d| ==> d[i] < sizes[i]
  }

  // ----- numbers in mixed radix -----

  function Product(sizes: seq<nat>): nat {
    if sizes == [] then 1 else sizes[0] * Product(sizes[1..])
  }

  // What the indices stand for, the first one being the least significant.
  function Value(sizes: seq<nat>, d: seq<nat>): nat
    requires |d| == |sizes|
  {
    if d == [] then 0 else d[0] + sizes[0] * Value(sizes[1..], d[1..])
  }

  // The indices that stand for v.
  function Tuple(sizes: seq<nat>, v: nat): (d: seq<nat>)
    requires forall i :: 0 <= i < |sizes| ==> sizes[i] > 0
    ensures IsTuple(sizes, d)
  {
    if sizes == [] then [] else [v % sizes[0]] + Tuple(sizes[1..], v / sizes[0])
  }

  function Zeros(n: nat): seq<nat> {
    seq(n, i => 0)
  }

  lemma Divides(a: nat, s: nat, b: nat)
    requires a < s
    ensures (a + s * b) / s == b && (a + s * b) % s == a
  {
    var q, r := (a + s * b) / s, (a + s * b) % s;
    assert a + s * b == s * q + r;
    if q < b {
      TimesMono(s, q + 1, b);
    } else if q > b {
      TimesMono(s, b + 1, q);
    }
  }

  lemma TimesMono(s: nat, a: nat, b: nat)
    requires a <= b
    ensures s * a <= s * b
  {
  }

  lemma Distributes(s: nat, b: nat)
    ensures s * (b + 1) == s * b + s
  {
  }

  lemma {:induction false} ValueBound(sizes: seq<nat>, d: seq<nat>)
    requires IsTuple(sizes, d)
    ensures Value(sizes, d) < Product(sizes)
  {
    if d != [] {
      var b := Value(sizes[1..], d[1..]);
      ValueBound(sizes[1..], d[1..]);
      TimesMono(sizes[0], b + 1, Product(sizes[1..]));
      Distributes(sizes[0], b);
    }
  }

  // Tuples and the numbers below the product correspond one to one.
  lemma {:induction false} TupleOfValue(sizes: seq<nat>, d: seq<nat>)
    requires IsTuple(sizes, d)
    ensures Tuple(sizes, Value(sizes, d)) == d
  {
    if d != [] {
      Divides(d[0], sizes[0], Value(sizes[1..], d[1..]));
      TupleOfValue(sizes[1..], d[1..]);
    }
  }

  lemma {:induction false} ValueOfTuple(sizes: seq<nat>, v: nat)
    requires forall i :: 0 <= i < |sizes| ==> sizes[i] > 0
    requires v < Product(sizes)
    ensures Value(sizes, Tuple(sizes, v)) == v
  {
    if sizes != [] {
      var q := v / sizes[0];
      assert v == sizes[0] * q + v % sizes[0];
      if q >= Product(sizes[1..]) {
        TimesMono(sizes[0], Product(sizes[1..]), q);
      }
      ValueOfTuple(sizes[1..], q);
      assert Tuple(sizes, v)[1..] == Tuple(sizes[1..], q);
    }
  }

  // ----- one step -----

  // The first k indices are at their last values.
  predicate AtEnd(sizes: seq<nat>, d: seq<nat>, k: nat)
    requires |d| == |sizes|
  {
    k <= |d| && forall i :: 0 <= i < k ==> d[i] + 1 == sizes[i]
  }

  // Index k goes up and those before it start again.
  function Step(d: seq<nat>, k: nat): seq<nat>
    requires k < |d|
  {
    Zeros(k) + [d[k] + 1] + d[k+1..]
  }

  lemma {:induction false} StepAddsOne(sizes: seq<nat>, d: seq<nat>, k: nat)
    requires IsTuple(sizes, d) && AtEnd(sizes, d, k) && k < |d| && d[k] + 1 < sizes[k]
    ensures IsTuple(sizes, Step(d, k))
    ensures Value(sizes, Step(d, k)) == Value(sizes, d) + 1
  {
    var e := Step(d, k);
    if k == 0 {
      assert e[1..] == d[1..];
    } else {
      assert e[1..] == Step(d[1..], k - 1);
      StepAddsOne(sizes[1..], d[1..], k - 1);
      Distributes(sizes[0], Value(sizes[1..], d[1..]));
    }
  }

  lemma {:induction false} LastValue(sizes: seq<nat>, d: seq<nat>)
    requires IsTuple(sizes, d) && AtEnd(sizes, d, |d|)
    ensures Value(sizes, d) + 1 == Product(sizes)
  {
    if d != [] {
      LastValue(sizes[1..], d[1..]);
      Distributes(sizes[0], Value(sizes[1..], d[1..]));
    }
  }

  lemma {:induction false} ZeroValue(sizes: seq<nat>)
    ensures Value(sizes, Zeros(|sizes|)) == 0
  {
    if sizes != [] {
      assert Zeros(|sizes|)[1..] == Zeros(|sizes| - 1);
      ZeroValue(sizes[1..]);
    }
  }

  // A generator added at the end starts at 0 and leaves the value as it was.
  lemma {:induction false} AppendedZero(sizes: seq<nat>, d: seq<nat>, size: nat)
    requires |d| == |sizes|
    ensures Value(sizes + [size], d + [0]) == Value(sizes, d)
  {
    if d != [] {
      assert (sizes + [size])[1..] == sizes[1..] + [size] && (d + [0])[1..] == d[1..] + [0];
      AppendedZero(sizes[1..], d[1..], size);
    } else {
      assert (d + [0])[1..] == [];
    }
  }

  // ----- the classes -----

  // The values of a 64-bit size, and its arithmetic.
  const SIZE_RANGE: nat := 0x1_0000_0000_0000_0000

  type Size = n: nat | n < SIZE_RANGE

  // How many positions a generator of that size runs through: one of size 0 has to wrap around.
  function Positions(size: Size): (n: nat)
    ensures 0 < n <= SIZE_RANGE
  {
    if size == 0 then SIZE_RANGE else size
  }

  class GeneratorInfo {
    const size: Size
    var currentIndex: Size

    constructor (size: Size)
      ensures this.size == size && currentIndex == 0
    {
      this.size := size;
      currentIndex := 0;
    }

    // One up, in 64 bits, unless that is the size; from within the positions, up to the last one.
    method MoveNext() returns (more: bool)
      modifies this
      ensures more <==> (old(currentIndex) + 1) % SIZE_RANGE != size
      ensures currentIndex == if more then (old(currentIndex) + 1) % SIZE_RANGE else 0
      ensures old(currentIndex) < Positions(size) ==>
                && (more <==> old(currentIndex) + 1 < Positions(size))
                && (more ==> currentIndex == old(currentIndex) + 1)
    {
      currentIndex := (currentIndex + 1) % SIZE_RANGE;
      if currentIndex == size {
        currentIndex := 0;
        return false;
      }
      return true;
    }
  }

  class GeneratorsForTest {
    var byName: map<string, GeneratorInfo>
    var inOrder: seq<GeneratorInfo>

    ghost predicate Valid()
      reads this, inOrder
    {
      && (forall i, j :: 0 <= i < j < |inOrder| ==> inOrder[i] != inOrder[j])
      && (forall name :: name in byName ==> byName[name] in inOrder)
      && IsTuple(Sizes(), Indices())
    }

    ghost function Sizes(): seq<nat>
      reads this, inOrder
    {
      seq(|inOrder|, i requires 0 <= i < |inOrder| reads this, inOrder => Positions(inOrder[i].size))
    }

    ghost function Indices(): seq<nat>
      reads this, inOrder
    {
      seq(|inOrder|, i requires 0 <= i < |inOrder| reads this, inOrder => inOrder[i].currentIndex)
    }

    constructor ()
      ensures Valid() && inOrder == [] && byName == map[]
    {
      byName, inOrder := map[], [];
    }

    // The generator known by that name, or a new one; either way the combination stays the same.
    method GetGeneratorInfo(fileInfo: string, size: Size) returns (info: GeneratorInfo)
      requires Valid()
      modifies this
      ensures Valid() && fileInfo in byName && byName[fileInfo] == info && info in inOrder
      ensures fileInfo in old(byName) ==>
                info == old(byName[fileInfo]) && inOrder == old(inOrder) && byName == old(byName)
      ensures fileInfo !in old(byName) ==>
                fresh(info) && inOrder == old(inOrder) + [info] && Sizes() == old(Sizes()) + [Positions(size)]
                && Indices() == old(Indices()) + [0]
      ensures Value(Sizes(), Indices()) == old(Value(Sizes(), Indices()))
    {
      if fileInfo in byName {
        return byName[fileInfo];
      }
      AppendedZero(Sizes(), Indices(), Positions(size));
      info := new GeneratorInfo(size);
      byName := byName[fileInfo := info];
      inOrder := inOrder + [info];
      assert Sizes() == old(Sizes()) + [Positions(size)];
      assert Indices() == old(Indices()) + [0];
    }

    // Turns the first generators over until one goes up, or all have.
    method Turn() returns (k: nat)
      requires Valid()
      modifies inOrder
      ensures k <= |inOrder| && inOrder == old(inOrder)
      ensures forall j :: 0 <= j < k ==>
                old(inOrder[j].currentIndex) + 1 == Positions(inOrder[j].size) && inOrder[j].currentIndex == 0
      ensures k < |inOrder| ==>
                old(inOrder[k].currentIndex) + 1 < Positions(inOrder[k].size)
                && inOrder[k].currentIndex == old(inOrder[k].currentIndex) + 1
      ensures forall j :: k < j < |inOrder| ==> inOrder[j].currentIndex == old(inOrder[j].currentIndex)
    {
      k := 0;
      assert forall j :: 0 <= j < |inOrder| ==> Indices()[j] < Sizes()[j];
      while k < |inOrder|
        invariant k <= |inOrder|
        invariant forall j :: 0 <= j < k ==>
                    old(inOrder[j].currentIndex) + 1 == Positions(inOrder[j].size) && inOrder[j].currentIndex == 0
        invariant forall j :: k <= j < |inOrder| ==> inOrder[j].currentIndex == old(inOrder[j].currentIndex)
      {
        assert old(Indices())[k] < old(Sizes())[k];
        var more := inOrder[k].MoveNext();
        if more {
          return;
        }
        k := k + 1;
      }
    }

    // Adds one, modulo the number of combinations; says whether there was room for it.
    method MoveNext() returns (more: bool)
      requires Valid()
      modifies inOrder
      ensures Valid() && Sizes() == old(Sizes()) && inOrder == old(inOrder)
      ensures more <==> Value(Sizes(), old(Indices())) + 1 < Product(Sizes())
      ensures Value(Sizes(), Indices()) == if more then Value(Sizes(), old(Indices())) + 1 else 0
    {
      hide Value, Product, Step, Zeros;
      ghost var sizes, d := Sizes(), Indices();
      var k := Turn();
      more := k < |inOrder|;
      assert Sizes() == sizes;
      assert AtEnd(sizes, d, k);
      Turned(sizes, d, Indices(), k);
    }
  }

  lemma Turned(sizes: seq<nat>, d: seq<nat>, e: seq<nat>, k: nat)
    requires IsTuple(sizes, d) && AtEnd(sizes, d, k) && |e| == |d|
    requires forall j :: 0 <= j < k ==> e[j] == 0
    requires k < |d| ==> d[k] + 1 < sizes[k] && e[k] == d[k] + 1
    requires forall j :: k < j < |d| ==> e[j] == d[j]
    ensures IsTuple(sizes, e)
    ensures k < |d| <==> Value(sizes, d) + 1 < Product(sizes)
    ensures Value(sizes, e) == if k < |d| then Value(sizes, d) + 1 else 0
  {
    hide Value, Product;
    if k < |d| {
      assert e == Step(d, k);
      StepAddsOne(sizes, d, k);
      ValueBound(sizes, e);
    } else {
      assert e == Zeros(|sizes|);
      LastValue(sizes, d);
      ZeroValue(sizes);
    }
  }

  // What a run of the test sees of its generators.
  method Reading(gens: GeneratorsForTest) returns (now: seq<nat>)
    ensures now == gens.Indices()
  {
    now := [];
    for i := 0 to |gens.inOrder|
      invariant now == gens.Indices()[..i]
    {
      now := now + [gens.inOrder[i].currentIndex];
    }
  }

  // The outer loop of a test: run, advance, until the combinations are used up. Every combination
  // is run exactly once, and the generators end where they began.
  method RunAll(gens: GeneratorsForTest) returns (seen: seq<seq<nat>>)
    requires gens.Valid() && gens.Indices() == Zeros(|gens.inOrder|)
    modifies gens.inOrder
    ensures gens.Valid() && gens.Sizes() == old(gens.Sizes()) && gens.Indices() == Zeros(|gens.inOrder|)
    ensures |seen| == Product(gens.Sizes())
    ensures forall v :: 0 <= v < |seen| ==> seen[v] == Tuple(gens.Sizes(), v)
  {
    hide Value, Product, Tuple, Zeros;
    ghost var sizes := gens.Sizes();
    seen := [];
    var more := true;
    ghost var left := Product(sizes);
    ZeroValue(sizes);
    ValueBound(sizes, gens.Indices());
    while more
      invariant gens.Valid() && gens.Sizes() == sizes && gens.inOrder == old(gens.inOrder)
      invariant Value(sizes, gens.Indices()) == if more then |seen| else 0
      invariant more ==> |seen| < Product(sizes)
      invariant !more ==> |seen| == Product(sizes)
      invariant left == Product(sizes) - |seen|
      invariant forall v :: 0 <= v < |seen| ==> seen[v] == Tuple(sizes, v)
      decreases left
    {
      var now := Reading(gens);
      TupleOfValue(sizes, now);
      seen := seen + [now];
      more := gens.MoveNext();
      left := left - 1;
    }
    TupleOfValue(sizes, gens.Indices());
    ZeroValue(sizes);
    TupleOfValue(sizes, Zeros(|sizes|));
  }

  // What RunAll visits is every tuple, each once.
  lemma EachOnce(sizes: seq<nat>, seen: seq<seq<nat>>, d: seq<nat>)
    requires |seen| == Product(sizes) && IsTuple(sizes, d)
    requires forall v :: 0 <= v < |seen| ==> seen[v] == Tuple(sizes, v)
    ensures exists v :: 0 <= v < |seen| && seen[v] == d
    ensures forall v, w :: 0 <= v < w < |seen| ==> seen[v] != seen[w]
  {
    ValueBound(sizes, d);
    TupleOfValue(sizes, d);
    assert seen[Value(sizes, d)] == d;
    forall v, w | 0 <= v < w < |seen| ensures seen[v] != seen[w] {
      ValueOfTuple(sizes, v);
      ValueOfTuple(sizes, w);
    }
  }
}
