/** The hash set that a dynamic hazard-pointer scan builds from the retired list. Nodes carry two
    links: next chains the different pointers of a bucket, nextFree chains the nodes retired for
    the same pointer behind the first of them. */
module LiberateSet {
  import opened Collections

  type Ptr = nat

  class RetiredNode {
    const ptr: Ptr
    var next: RetiredNode?
    var nextFree: RetiredNode?

    constructor (ptr: Ptr)
      ensures this.ptr == ptr && next == null && nextFree == null
    {
      this.ptr := ptr;
      next := null;
      nextFree := null;
    }
  }

  /** Every call of a retired pointer's free function, in order. */
  class FreeLog {
    ghost var calls: seq<RetiredNode>

    constructor ()
      ensures calls == []
    {
      calls := [];
    }

    method Free(node: RetiredNode)
      modifies this
      ensures calls == old(calls) + [node]
    {
      calls := calls + [node];
    }
  }

  // Consecutive nodes are linked on nextFree.
  ghost predicate FreeLinked(s: seq<RetiredNode>)
    reads s
  {
    forall i :: 0 <= i < |s| - 1 ==> s[i].nextFree == s[i+1]
  }

  // Nodes already freed: linked on nextFree, no other link.
  ghost predicate Threaded(done: seq<RetiredNode>)
    reads done
  {
    FreeLinked(done) && forall n :: n in done ==> n.next == null
  }

  // The list of freed nodes, its first and its last.
  ghost predicate ListSoFar(done: seq<RetiredNode>, first: RetiredNode?, pTail: RetiredNode?)
    reads done
  {
    && Threaded(done)
    && (done == [] ==> first == null && pTail == null)
    && (done != [] ==> first == done[0] && pTail == done[|done|-1])
  }

  // The nodes retired for pointer p: at least one, all different.
  ghost predicate BagFor(p: Ptr, bag: seq<RetiredNode>) {
    bag != [] && Distinct(bag) && forall i :: 0 <= i < |bag| ==> bag[i].ptr == p
  }

  // Such a list, linked on nextFree.
  ghost predicate IsBag(p: Ptr, bag: seq<RetiredNode>)
    reads bag
  {
    BagFor(p, bag) && FreeLinked(bag) && bag[|bag|-1].nextFree == null
  }

  type Bags = map<Ptr, seq<RetiredNode>>

  // What inserting a node does to the bags: second in the bag of its pointer, or a bag of its own.
  ghost function Inserted(bags: Bags, node: RetiredNode): Bags {
    if node.ptr in bags && bags[node.ptr] != [] then bags[node.ptr := [bags[node.ptr][0], node] + bags[node.ptr][1..]]
    else bags[node.ptr := [node]]
  }

  // The first node of the k-th pointer of a chain; null past the end.
  ghost function Head(bags: Bags, chain: seq<Ptr>, k: nat): RetiredNode? {
    if k < |chain| && chain[k] in bags && bags[chain[k]] != [] then bags[chain[k]][0] else null
  }

  class LiberateSet {
    const hash: Ptr -> nat
    const buckets: array<RetiredNode?>
    ghost var chains: seq<seq<Ptr>>     // the pointers of every bucket, in chain order
    ghost var bags: Bags
    ghost var nodes: set<RetiredNode>   // all nodes in the set
    const log: FreeLog

    function Index(p: Ptr): (b: nat)
      requires buckets.Length > 0
      ensures b < buckets.Length
    {
      hash(p) % buckets.Length
    }

    // The bags hold exactly the nodes of the set.
    ghost predicate BagsOk()
      reads this, nodes
    {
      && (forall p :: p in bags ==> (forall n :: n in bags[p] ==> n in nodes) && IsBag(p, bags[p]))
      && (forall n :: n in nodes ==> n.ptr in bags && n in bags[n.ptr])
    }

    // Pointers and buckets: every pointer is once in the chain of its bucket.
    ghost predicate Placed(bags: Bags, chains: seq<seq<Ptr>>) {
      && buckets.Length > 0 && |chains| == buckets.Length
      && (forall b, k :: 0 <= b < |chains| && 0 <= k < |chains[b]| ==> chains[b][k] in bags && Index(chains[b][k]) == b)
      && (forall b :: 0 <= b < |chains| ==> Distinct(chains[b]))
      && (forall p :: p in bags ==> p in chains[Index(p)])
    }

    // The k-th head of bucket c is linked to the next one.
    ghost predicate Link(c: int, k: int)
      requires 0 <= c < |chains| && 0 <= k < |chains[c]|
      reads this, nodes
    {
      var h := Head(bags, chains[c], k); h != null && h in nodes && h.next == Head(bags, chains[c], k + 1)
    }

    // The links of bucket b.
    ghost predicate Chained(b: nat)
      requires b < buckets.Length && b < |chains|
      reads this, buckets, nodes
    {
      && buckets[b] == Head(bags, chains[b], 0)
      && forall k :: 0 <= k < |chains[b]| ==> Link(b, k)
    }

    ghost predicate Valid()
      reads this, buckets, nodes
    {
      && BagsOk() && Placed(bags, chains)
      && forall b :: 0 <= b < buckets.Length ==> Chained(b)
    }

    constructor (nBucketCount: nat, hash: Ptr -> nat, log: FreeLog)
      requires nBucketCount > 0
      ensures Valid() && bags == map[] && nodes == {} && fresh(buckets)
      ensures this.hash == hash && this.log == log && buckets.Length == nBucketCount
    {
      this.hash := hash;
      this.buckets := new RetiredNode?[nBucketCount](_ => null);
      this.chains := seq(nBucketCount, _ => []);
      this.bags := map[];
      this.nodes := {};
      this.log := log;
    }

    lemma BucketHead(b: nat)
      requires Valid() && b < |chains|
      ensures |chains| == buckets.Length
      ensures buckets[b] == Head(bags, chains[b], 0) && (buckets[b] == null ==> chains[b] == [])
    {
      assert Chained(b);
      assert |chains[b]| > 0 ==> Link(b, 0);
    }

    lemma Buckets(p: Ptr)
      requires Valid()
      ensures |chains| == buckets.Length > 0
      ensures p !in chains[Index(p)] ==> p !in bags
    {
    }

    // The k-th head of a bucket is the first node of its bag and leads to the next head.
    lemma HeadOfBag(b: nat, k: nat)
      requires Valid() && b < |chains| && k < |chains[b]|
      ensures |chains| == buckets.Length
      ensures var q := chains[b][k];
              q in bags && IsBag(q, bags[q]) && bags[q][0] in nodes && Head(bags, chains[b], k) == bags[q][0]
      ensures Head(bags, chains[b], k).ptr == chains[b][k]
      ensures var next := Head(bags, chains[b], k).next;
              next == Head(bags, chains[b], k + 1) && (next == null ==> k + 1 == |chains[b]|)
    {
      assert Chained(b);
      assert Link(b, k);
      if k + 1 < |chains[b]| {
        assert Link(b, k + 1);
      }
    }

    // The k-th head of a bucket and the head before it are different nodes of the set.
    lemma Neighbours(b: nat, k: nat)
      requires Valid() && b < |chains| && k < |chains[b]|
      ensures Position(chains[b], chains[b][k]) == k
      ensures var p := Head(bags, chains[b], k);
              p != null && p in nodes && p.ptr == chains[b][k]
              && (k > 0 ==> var q := Head(bags, chains[b], k - 1); q != null && q in nodes && q != p)
    {
      hide Head, Chained, Link, BagsOk, IsBag;
      PositionIs(chains[b], chains[b][k], k);
      HeadOfBag(b, k);
      if k > 0 {
        HeadOfBag(b, k - 1);
      }
    }

    method Insert(node: RetiredNode)
      requires Valid() && node !in nodes && node.nextFree == null
      modifies this`chains, this`bags, this`nodes, buckets, nodes, node
      ensures Valid() && nodes == old(nodes) + {node} && bags == Inserted(old(bags), node)
    {
      hide Valid, Inserted, IsBag;
      node.next := null;
      Buckets(node.ptr);
      var b := Index(node.ptr);
      BucketHead(b);
      if buckets[b] != null {
        ghost var chain := chains[b];
        var p := buckets[b];
        ghost var k := 0;
        while true
          invariant Valid() && chains == old(chains) && bags == old(bags) && nodes == old(nodes)
          invariant node.nextFree == null && k < |chain| && p == Head(bags, chain, k)
          invariant forall i :: 0 <= i < k ==> chain[i] != node.ptr
          decreases |chain| - k
        {
          HeadOfBag(b, k);
          if p.ptr == node.ptr {
            InsertSecond(p, node, b, k);
            return;
          }
          if p.next == null {
            break;
          }
          p := p.next;
          k := k + 1;
        }
        node.next := buckets[b];
      }
      InsertFront(node, b);
    }

    // The bags stay bags when node joins and only the bag of its pointer is relinked.
    twostate lemma BagsAfter(node: RetiredNode)
      requires old(Valid()) && node !in old(nodes)
      requires bags == Inserted(old(bags), node) && nodes == old(nodes) + {node}
      requires IsBag(node.ptr, bags[node.ptr])
      requires forall n :: n in old(nodes) && n.ptr != node.ptr ==> n.nextFree == old(n.nextFree)
      ensures BagsOk()
    {
      hide Placed, Chained;
      forall q | q in bags && q != node.ptr ensures IsBag(q, bags[q]) {
        assert old(IsBag(q, bags[q]));
      }
    }

    // Duplicate pointer: the node goes right behind the head of its bag.
    method InsertSecond(p: RetiredNode, node: RetiredNode, ghost b: nat, ghost k: nat)
      requires Valid() && node !in nodes && node.nextFree == null
      requires b == Index(node.ptr) && b < |chains| && k < |chains[b]| && chains[b][k] == node.ptr
      requires p == Head(bags, chains[b], k)
      modifies this`bags, this`nodes, p`nextFree, node`nextFree
      ensures Valid() && nodes == old(nodes) + {node} && bags == Inserted(old(bags), node)
    {
      hide Valid, BagsOk, Placed, Chained, Inserted;
      HeadOfBag(b, k);
      assert p == bags[node.ptr][0];
      node.nextFree := p.nextFree;
      p.nextFree := node;
      bags := Inserted(bags, node);
      nodes := nodes + {node};
      SecondValid(node);
    }

    twostate lemma SecondValid(node: RetiredNode)
      requires old(Valid()) && node.ptr in old(bags) && node !in old(nodes)
      requires bags == Inserted(old(bags), node) && nodes == old(nodes) + {node} && chains == old(chains)
      requires buckets[..] == old(buckets[..])
      requires var h := old(bags)[node.ptr][0]; node.nextFree == old(h.nextFree) && h.nextFree == node
      requires forall n :: n in old(nodes) ==> n.next == old(n.next)
      requires forall n :: n in old(nodes) && n != old(bags)[node.ptr][0] ==> n.nextFree == old(n.nextFree)
      ensures Valid()
    {
      hide Chained;
      SecondIsBag(node);
      BagsAfter(node);
      SecondChained(node);
      SecondPlaced(old(bags), chains, node);
    }

    lemma SecondPlaced(bags: Bags, chains: seq<seq<Ptr>>, node: RetiredNode)
      requires Placed(bags, chains) && node.ptr in bags
      ensures Placed(Inserted(bags, node), chains)
    {
    }

    twostate lemma SecondIsBag(node: RetiredNode)
      requires old(Valid()) && node.ptr in old(bags) && node !in old(nodes)
      requires bags == Inserted(old(bags), node)
      requires var h := old(bags)[node.ptr][0]; node.nextFree == old(h.nextFree) && h.nextFree == node
      requires forall n :: n in old(nodes) && n != old(bags)[node.ptr][0] ==> n.nextFree == old(n.nextFree)
      ensures IsBag(node.ptr, bags[node.ptr])
    {
      hide Placed, Chained;
      var bag, bag' := old(bags)[node.ptr], bags[node.ptr];
      assert old(IsBag(node.ptr, bag));
      SecondBagFor(bag, node);
      forall i | 1 <= i < |bag| ensures bag[i].nextFree == old(bag[i].nextFree) {
        assert bag[i] in old(nodes) && bag[i] != bag[0];
      }
      assert |bag| > 1 ==> old(bag[0].nextFree) == bag[1];
      forall i | 0 <= i < |bag[1..]| - 1 ensures bag[1..][i].nextFree == bag[1..][i+1] {
        assert old(bag[i+1].nextFree) == bag[i+2];
      }
      SecondLinked(bag, node);
    }

    twostate lemma SecondChained(node: RetiredNode)
      requires old(Valid()) && node.ptr in old(bags) && node !in old(nodes)
      requires bags == Inserted(old(bags), node) && nodes == old(nodes) + {node} && chains == old(chains)
      requires buckets[..] == old(buckets[..])
      requires forall n :: n in old(nodes) ==> n.next == old(n.next)
      ensures forall c :: 0 <= c < buckets.Length ==> Chained(c)
    {
      HeadsStay(old(bags), node);
      forall c | 0 <= c < buckets.Length ensures Chained(c) {
        assert old(Chained(c));
        assert buckets[..][c] == old(buckets[..])[c];
        forall k | 0 <= k < |chains[c]| ensures Link(c, k) {
          assert old(Link(c, k));
        }
      }
    }

    // New pointer: the node becomes the first of its bucket's chain.
    method InsertFront(node: RetiredNode, b: nat)
      requires Valid() && node !in nodes && node.nextFree == null
      requires b == Index(node.ptr) && node.ptr !in bags && node.next == buckets[b]
      modifies this`chains, this`bags, this`nodes, buckets
      ensures Valid() && nodes == old(nodes) + {node} && bags == Inserted(old(bags), node)
    {
      buckets[b] := node;
      bags := Inserted(bags, node);
      nodes := nodes + {node};
      chains := chains[b := [node.ptr] + chains[b]];
      assert IsBag(node.ptr, bags[node.ptr]);
      BagsAfter(node);
      FrontPlaced(old(bags), old(chains), node);
      FrontChained(node);
    }

    lemma FrontPlaced(bags: Bags, chains: seq<seq<Ptr>>, node: RetiredNode)
      requires Placed(bags, chains) && node.ptr !in bags
      ensures Placed(Inserted(bags, node), chains[Index(node.ptr) := [node.ptr] + chains[Index(node.ptr)]])
    {
      var b := Index(node.ptr);
      var chains' := chains[b := [node.ptr] + chains[b]];
      forall p | p in Inserted(bags, node) ensures p in chains'[Index(p)] {
        if p == node.ptr {
          assert chains'[b][0] == p;
        } else {
          var k :| 0 <= k < |chains[Index(p)]| && chains[Index(p)][k] == p;
          assert Index(p) == b ==> chains'[b][k + 1] == p;
        }
      }
    }

    twostate lemma FrontChained(node: RetiredNode)
      requires old(Valid()) && node.ptr !in old(bags) && node !in old(nodes)
      requires bags == Inserted(old(bags), node) && nodes == old(nodes) + {node}
      requires var b := Index(node.ptr); chains == old(chains)[b := [node.ptr] + old(chains)[b]]
      requires node.next == old(buckets[Index(node.ptr)])
      requires buckets[..] == old(buckets[..])[Index(node.ptr) := node]
      requires forall n :: n in old(nodes) ==> n.next == old(n.next)
      ensures forall c :: 0 <= c < buckets.Length ==> Chained(c)
    {
      forall c | 0 <= c < buckets.Length ensures Chained(c) {
        assert old(Chained(c));
        assert buckets[..][c] == buckets[c] && old(buckets[..])[c] == old(buckets[c]);
        FrontHeads(old(bags), old(chains)[c], node);
        forall k | 0 <= k < |chains[c]| ensures Link(c, k) {
          if c != Index(node.ptr) {
            assert old(Link(c, k));
          } else if k > 0 {
            assert old(Link(c, k - 1));
          }
        }
      }
    }

    // Takes the bag of one pointer out of the set; its nodes stay linked on nextFree.
    method Erase(ptr: Ptr) returns (r: RetiredNode?)
      requires Valid()
      modifies this`chains, this`bags, this`nodes, buckets, nodes`next
      ensures Valid() && bags == old(bags) - {ptr}
      ensures nodes == set n | n in old(nodes) && n.ptr != ptr
      ensures ptr !in old(bags) ==> r == null
      ensures ptr in old(bags) ==> r == old(bags)[ptr][0] && r.next == null && IsBag(ptr, old(bags)[ptr])
    {
      hide Valid, IsBag;
      Buckets(ptr);
      var b := Index(ptr);
      BucketHead(b);
      ghost var chain := chains[b];
      r := buckets[b];
      var pPrev: RetiredNode? := null;
      ghost var k := 0;
      while r != null
        invariant Valid() && chains == old(chains) && bags == old(bags) && nodes == old(nodes)
        invariant k <= |chain| && r == Head(bags, chain, k)
        invariant pPrev == if k == 0 then null else Head(bags, chain, k - 1)
        invariant forall i :: 0 <= i < k ==> chain[i] != ptr
        decreases |chain| - k
      {
        HeadOfBag(b, k);
        if r.ptr == ptr {
          Unlink(r, pPrev, b, k);
          return;
        }
        pPrev := r;
        r := r.next;
        k := k + 1;
      }
      if k < |chain| {
        HeadOfBag(b, k);
      }
      NodesOutside(ptr);
    }

    lemma NodesOutside(p: Ptr)
      requires Valid() && p !in bags
      ensures bags == bags - {p} && nodes == set n | n in nodes && n.ptr != p
    {
    }

    // The links around p are closed; p itself is left without a successor.
    method Bypass(p: RetiredNode, pPrev: RetiredNode?, b: nat, ghost k: nat)
      requires buckets.Length > 0 && |chains| == buckets.Length && b == Index(p.ptr)
      requires k == Position(chains[b], p.ptr) && p in nodes
      requires pPrev == if k == 0 then null else Head(bags, chains[b], k - 1)
      requires k > 0 ==> pPrev != null && pPrev in nodes && pPrev != p
      modifies buckets, nodes`next
      ensures Bypassed(p) && p.next == null
    {
      if pPrev != null {
        pPrev.next := p.next;
      } else {
        buckets[b] := p.next;
        assert buckets[..] == old(buckets[..])[b := old(p.next)];
      }
      p.next := null;
    }

    method Unlink(p: RetiredNode, pPrev: RetiredNode?, b: nat, ghost k: nat)
      requires Valid() && b == Index(p.ptr) && b < |chains| && k < |chains[b]| && chains[b][k] == p.ptr
      requires p == Head(bags, chains[b], k)
      requires pPrev == if k == 0 then null else Head(bags, chains[b], k - 1)
      modifies this`chains, this`bags, this`nodes, buckets, nodes`next
      ensures Valid() && bags == old(bags) - {p.ptr}
      ensures nodes == set n | n in old(nodes) && n.ptr != p.ptr
      ensures p.ptr in old(bags) && p == old(bags)[p.ptr][0] && p.next == null && IsBag(p.ptr, old(bags)[p.ptr])
    {
      hide Valid, BagsOk, Chained, Link, Bypassed, Placed, Cut;
      HeadOfBag(b, k);
      Neighbours(b, k);
      Bypass(p, pPrev, b, k);
      chains := chains[b := Cut(chains[b], p.ptr)];
      bags := bags - {p.ptr};
      nodes := set n | n in nodes && n.ptr != p.ptr;
      assert old(IsBag(p.ptr, bags[p.ptr]));
      UnlinkValid(p);
    }

    twostate lemma UnlinkValid(p: RetiredNode)
      requires old(Valid()) && p.ptr in old(bags) && p == old(bags)[p.ptr][0]
      requires Removed(p) && Bypassed(p)
      requires forall n :: n in old(nodes) ==> n.nextFree == old(n.nextFree)
      ensures Valid()
    {
      UnlinkBags(p);
      UnlinkPlaced(old(bags), old(chains), p.ptr);
      UnlinkOwnChain(p);
      UnlinkOtherChains(p);
    }

    twostate lemma UnlinkBags(p: RetiredNode)
      requires old(Valid())
      requires bags == old(bags) - {p.ptr} && nodes == set n | n in old(nodes) && n.ptr != p.ptr
      requires forall n :: n in old(nodes) ==> n.nextFree == old(n.nextFree)
      ensures BagsOk()
    {
      forall q | q in bags ensures (forall n :: n in bags[q] ==> n in nodes) && IsBag(q, bags[q]) {
        assert old(IsBag(q, bags[q]));
      }
    }

    lemma UnlinkPlaced(bags: Bags, chains: seq<seq<Ptr>>, p: Ptr)
      requires Placed(bags, chains) && p in bags
      ensures Placed(bags - {p}, chains[Index(p) := Cut(chains[Index(p)], p)])
    {
      var b := Index(p);
      CutFacts(chains[b], p);
    }

    // Bucket and next links after p is bypassed.
    twostate predicate Bypassed(p: RetiredNode)
      requires buckets.Length > 0 && |old(chains)| == buckets.Length
      reads *
    {
      var b := Index(p.ptr);
      var k := Position(old(chains)[b], p.ptr);
      && buckets[..] == (if k == 0 then old(buckets[..])[b := old(p.next)] else old(buckets[..]))
      && forall n :: n in old(nodes) && n != p ==>
           n.next == if k > 0 && n == Head(old(bags), old(chains)[b], k - 1) then old(p.next) else old(n.next)
    }

    twostate predicate Removed(p: RetiredNode)
      requires buckets.Length > 0 && |old(chains)| == buckets.Length
      reads this
    {
      && bags == old(bags) - {p.ptr}
      && (nodes == set n | n in old(nodes) && n.ptr != p.ptr)
      && chains == old(chains)[Index(p.ptr) := Cut(old(chains)[Index(p.ptr)], p.ptr)]
    }

    twostate lemma OldBags(b: nat)
      requires old(Valid()) && b < |old(chains)|
      ensures var chain, bags := old(chains)[b], old(bags);
              Distinct(chain) && forall i :: 0 <= i < |chain| ==> chain[i] in bags && BagFor(chain[i], bags[chain[i]])
    {
      forall i | 0 <= i < |old(chains)[b]|
        ensures var q := old(chains)[b][i]; q in old(bags) && BagFor(q, old(bags)[q])
      {
        var q := old(chains)[b][i];
        assert old(IsBag(q, bags[q]));
      }
    }

    // What is known about the chain p is cut out of, and about the heads of its bags.
    twostate lemma OldChain(p: RetiredNode)
      requires old(Valid()) && p.ptr in old(bags) && p == old(bags)[p.ptr][0]
      ensures |old(chains)| == buckets.Length
      ensures var b := Index(p.ptr);
              var chain := old(chains)[b];
              && p.ptr in chain && Head(old(bags), chain, Position(chain, p.ptr)) == p
              && old(buckets[b]) == Head(old(bags), chain, 0) && forall i :: 0 <= i < |chain| ==> old(Link(b, i))
    {
      assert old(Chained(Index(p.ptr)));
      assert old(IsBag(p.ptr, bags[p.ptr]));
    }

    twostate lemma UnlinkOwnChain(p: RetiredNode)
      requires old(Valid()) && p.ptr in old(bags) && p == old(bags)[p.ptr][0]
      requires Removed(p) && Bypassed(p)
      ensures Chained(Index(p.ptr))
    {
      hide Valid, Head, Cut, Position, BagFor;
      OldChain(p);
      var b := Index(p.ptr);
      var chain := old(chains)[b];
      OldBags(b);
      CutHeads(old(bags), chain, p.ptr);
      HeadsDiffer(old(bags), chain);
      var k := Position(chain, p.ptr);
      assert buckets[..][b] == buckets[b] && old(buckets[..])[b] == old(buckets[b]);
      assert chains[b] == Cut(chain, p.ptr);
      assert buckets[b] == Head(bags, chains[b], 0) by {
        assert old(Link(b, k));
      }
      forall i | 0 <= i < |chains[b]| ensures Link(b, i) {
        var j := if i < k then i else i + 1;
        var h := Head(old(bags), chain, j);
        assert old(Link(b, j)) && old(Link(b, k));
        assert h.ptr == chain[j] != p.ptr;
        if i + 1 == k {
          assert h.next == old(p.next);
        } else {
          assert k > 0 ==> h != Head(old(bags), chain, k - 1);
        }
      }
    }

    twostate lemma UnlinkOtherChains(p: RetiredNode)
      requires old(Valid()) && p.ptr in old(bags) && p == old(bags)[p.ptr][0]
      requires Removed(p) && Bypassed(p)
      ensures forall c :: 0 <= c < buckets.Length && c != Index(p.ptr) ==> Chained(c)
    {
      forall c | 0 <= c < buckets.Length && c != Index(p.ptr) ensures Chained(c) {
        assert old(Chained(c));
        assert buckets[..][c] == buckets[c] && old(buckets[..])[c] == old(buckets[c]);
        var chain := old(chains)[c];
        OtherHeads(old(bags), chain, p.ptr);
        forall i | 0 <= i < |chain| ensures Link(c, i) {
          assert old(Link(c, i));
        }
      }
    }

    // ----- free_all: every node is freed and all are re-threaded into one nextFree list -----

    // Frees the nodes of one bag; they stay linked on nextFree.
    method FreeBag(pHead: RetiredNode, ghost bag: seq<RetiredNode>) returns (pTail: RetiredNode)
      requires bag != [] && FreeLinked(bag) && bag[|bag|-1].nextFree == null && pHead == bag[0]
      modifies log, bag`next
      ensures log.calls == old(log.calls) + bag && pTail == bag[|bag|-1]
      ensures forall n :: n in bag ==> n.next == null
    {
      pTail := pHead;
      log.Free(pTail);
      pTail.next := null;
      ghost var m := 0;
      while pTail.nextFree != null
        invariant m < |bag| && pTail == bag[m]
        invariant pTail.nextFree == if m + 1 < |bag| then bag[m+1] else null
        invariant log.calls == old(log.calls) + bag[..m+1]
        invariant forall i :: 0 <= i <= m ==> bag[i].next == null
        decreases |bag| - m
      {
        pTail := pTail.nextFree;
        log.Free(pTail);
        pTail.next := null;
        m := m + 1;
      }
      assert m == |bag| - 1;
      assert bag[..m+1] == bag;
    }

    // The i-th bag of a chain is still linked as the set left it.
    ghost predicate Untouched(chain: seq<Ptr>, i: int)
      requires ChainOfBags(bags, nodes, chain) && 0 <= i < |chain|
      reads this, nodes
    {
      var bag := bags[chain[i]];
      FreeLinked(bag) && bag[|bag|-1].nextFree == null && bag[0].next == Head(bags, chain, i + 1)
    }

    ghost predicate Remaining(chain: seq<Ptr>, k: nat)
      requires ChainOfBags(bags, nodes, chain)
      reads this, nodes
    {
      forall i :: k <= i < |chain| ==> Untouched(chain, i)
    }

    lemma OtherBags(chain: seq<Ptr>, k: nat)
      requires ChainOfBags(bags, nodes, chain) && k < |chain|
      ensures forall i, n :: 0 <= i < |chain| && i != k && n in bags[chain[i]] ==> n !in bags[chain[k]]
      ensures forall n :: n in FlatChain(bags, chain, k) ==> n !in bags[chain[k]] && n in nodes && n.ptr in chain
      ensures Distinct(FlatChain(bags, chain, k + 1))
    {
      FlatChainFacts(bags, chain, k);
      FlatChainFacts(bags, chain, k + 1);
    }

    // One turn of the loop over a bucket: frees the k-th bag, which the list so far ends in.
    method FreeNextBag(pHead: RetiredNode, ghost chain: seq<Ptr>, ghost k: nat)
      returns (pTail: RetiredNode, pNext: RetiredNode?)
      requires ChainOfBags(bags, nodes, chain) && k < |chain| && pHead == Head(bags, chain, k) && Remaining(chain, k)
      requires Threaded(FlatChain(bags, chain, k)) && FreeLinked(FlatChain(bags, chain, k) + [pHead])
      modifies log, bags[chain[k]]`next
      ensures log.calls == old(log.calls) + bags[chain[k]]
      ensures pTail == bags[chain[k]][|bags[chain[k]]|-1] && pTail.nextFree == null && pNext == Head(bags, chain, k + 1)
      ensures Threaded(FlatChain(bags, chain, k + 1)) && Remaining(chain, k + 1)
      ensures forall n :: n in nodes && n.ptr !in chain ==> n.next == old(n.next)
    {
      ghost var done, bag := FlatChain(bags, chain, k), bags[chain[k]];
      OtherBags(chain, k);
      assert Untouched(chain, k);
      pNext := pHead.next;
      pTail := FreeBag(pHead, bag);
      forall i | 0 <= i < |done| - 1 ensures done[i].nextFree == done[i+1] {
        assert done[i] in done;
        assert old(FreeLinked(done));
      }
      if done != [] {
        assert old((done + [pHead])[|done|-1].nextFree) == (done + [pHead])[|done|];
      }
      FreeLinkedConcat(done, bag);
      forall i | k + 1 <= i < |chain| ensures Untouched(chain, i) {
        assert old(Untouched(chain, i));
        assert bags[chain[i]][0] !in bag;
      }
    }

    // The loop over a bucket stands at the k-th head, the list so far being linked to it.
    ghost predicate At(chain: seq<Ptr>, k: nat, pHead: RetiredNode?)
      reads this, nodes
    {
      && ChainOfBags(bags, nodes, chain) && k < |chain| && pHead != null && pHead in nodes
      && pHead == Head(bags, chain, k)
      && (forall n :: n in FlatChain(bags, chain, k) ==> n in nodes)
      && Remaining(chain, k) && Threaded(FlatChain(bags, chain, k)) && FreeLinked(FlatChain(bags, chain, k) + [pHead])
    }

    // One turn of the loop over a bucket.
    method FreeAndLink(pHead: RetiredNode, ghost chain: seq<Ptr>, ghost k: nat)
      returns (pTail: RetiredNode, pNext: RetiredNode?)
      requires At(chain, k, pHead)
      modifies log, nodes
      ensures ChainOfBags(bags, nodes, chain) && log.calls == old(log.calls) + bags[chain[k]]
      ensures pTail == bags[chain[k]][|bags[chain[k]]|-1]
      ensures pNext != null ==> At(chain, k + 1, pNext)
      ensures pNext == null ==> k + 1 == |chain| && pTail.nextFree == null && Threaded(FlatChain(bags, chain, k + 1))
      ensures forall n :: n in nodes && n.ptr !in chain ==> n.next == old(n.next) && n.nextFree == old(n.nextFree)
    {
      hide Threaded, FreeLinked, Remaining, FlatChain;
      pTail, pNext := FreeNextBag(pHead, chain, k);
      if pNext != null {
        LinkToNext(pTail, pNext, chain, k);
        OtherBags(chain, k + 1);
      }
    }

    lemma FirstAt(chain: seq<Ptr>, pBucket: RetiredNode)
      requires ChainOfBags(bags, nodes, chain) && chain != [] && pBucket == Head(bags, chain, 0) && Remaining(chain, 0)
      ensures At(chain, 0, pBucket)
    {
      assert FlatChain(bags, chain, 0) + [pBucket] == [pBucket];
    }

    // Frees one bucket's chain; its bags end up as one nextFree list.
    method FreeChain(pBucket: RetiredNode, ghost chain: seq<Ptr>) returns (pTail: RetiredNode)
      requires ChainOfBags(bags, nodes, chain) && chain != [] && pBucket == Head(bags, chain, 0) && Remaining(chain, 0)
      modifies log, nodes
      ensures var done := FlatChain(bags, chain, |chain|);
              && log.calls == old(log.calls) + done && done != [] && pTail == done[|done|-1]
              && Threaded(done) && pTail.nextFree == null
      ensures forall n :: n in nodes && n.ptr !in chain ==> n.next == old(n.next) && n.nextFree == old(n.nextFree)
    {
      hide Threaded, FreeLinked, Remaining, ChainOfBags;
      var pHead := pBucket;
      ghost var k := 0;
      FirstAt(chain, pBucket);
      while true
        invariant At(chain, k, pHead)
        invariant log.calls == old(log.calls) + FlatChain(bags, chain, k)
        invariant forall n :: n in nodes && n.ptr !in chain ==> n.next == old(n.next) && n.nextFree == old(n.nextFree)
        decreases |chain| - k
      {
        var pNext;
        pTail, pNext := FreeAndLink(pHead, chain, k);
        if pNext == null {
          break;
        }
        pHead := pNext;
        k := k + 1;
      }
    }

    // Sets the end of the list of freed nodes.
    method SetLast(pTail: RetiredNode, next: RetiredNode?, ghost done: seq<RetiredNode>)
      requires Threaded(done) && Distinct(done) && done != [] && pTail == done[|done|-1]
      modifies pTail`nextFree
      ensures Threaded(done) && pTail.nextFree == next
    {
      pTail.nextFree := next;
      forall i | 0 <= i < |done| - 1 ensures done[i].nextFree == done[i+1] {
        assert done[i] != pTail;
        assert old(FreeLinked(done));
      }
    }

    // The last node of the list so far is linked to the head of the next bag.
    method LinkToNext(pTail: RetiredNode, pNext: RetiredNode, ghost chain: seq<Ptr>, ghost k: nat)
      requires ChainOfBags(bags, nodes, chain) && k + 1 < |chain| && pNext == Head(bags, chain, k + 1)
      requires Remaining(chain, k + 1)
      requires pTail == bags[chain[k]][|bags[chain[k]]|-1] && Threaded(FlatChain(bags, chain, k + 1))
      modifies pTail`nextFree
      ensures Threaded(FlatChain(bags, chain, k + 1)) && Remaining(chain, k + 1)
      ensures FreeLinked(FlatChain(bags, chain, k + 1) + [pNext]) && pTail.ptr in chain
    {
      hide Threaded, FreeLinked, FlatChain, Distinct;
      OtherBags(chain, k);
      ghost var done := FlatChain(bags, chain, k + 1);
      FlatChainLast(bags, chain, k);
      SetLast(pTail, pNext, done);
      assert FreeLinked(done + [pNext]) by { ThreadedThen(done, pNext); }
      forall i | k + 1 <= i < |chain| ensures Untouched(chain, i) {
        assert old(Untouched(chain, i));
        assert pTail !in bags[chain[i]];
      }
    }

    // Bucket j is as the set left it.
    ghost predicate Ready(j: int)
      requires 0 <= j < |chains|
      reads this, buckets, nodes
    {
      && j < buckets.Length && ChainOfBags(bags, nodes, chains[j]) && Remaining(chains[j], 0)
      && buckets[j] == Head(bags, chains[j], 0)
      && forall k :: 0 <= k < |chains[j]| ==> Index(chains[j][k]) == j
    }

    // A list holds exactly the nodes of the buckets from lo up to hi, each once.
    ghost predicate Lists(list: seq<RetiredNode>, nodes: set<RetiredNode>, lo: int, hi: int)
      requires buckets.Length > 0
    {
      && Distinct(list)
      && (forall n :: n in list ==> n in nodes && lo <= Index(n.ptr) < hi)
      && (forall n :: n in nodes && lo <= Index(n.ptr) < hi ==> n in list)
    }

    lemma ChainIsReady(i: nat)
      requires Valid() && i < |chains|
      ensures Ready(i)
    {
      var chain := chains[i];
      assert Chained(i);
      forall k | 0 <= k < |chain|
        ensures chain[k] in bags && IsBag(chain[k], bags[chain[k]])
        ensures bags[chain[k]][0].next == Head(bags, chain, k + 1)
      {
        assert Link(i, k) && IsBag(chain[k], bags[chain[k]]);
      }
    }

    lemma ChainIsListed(i: nat)
      requires Valid() && i < |chains|
      ensures Lists(FlatChain(bags, chains[i], |chains[i]|), nodes, i, i + 1)
    {
      var chain := chains[i];
      forall k | 0 <= k < |chain| ensures chain[k] in bags && BagFor(chain[k], bags[chain[k]]) {
        assert IsBag(chain[k], bags[chain[k]]);
      }
      FlatChainFacts(bags, chain, |chain|);
      var list := FlatChain(bags, chain, |chain|);
      forall n | n in nodes && Index(n.ptr) == i ensures n in list {
        assert n.ptr in chain;
      }
      forall n | n in list ensures n in nodes && Index(n.ptr) == i {
        var k :| 0 <= k < |chain| && chain[k] == n.ptr && n in bags[chain[k]];
      }
    }

    // The nodes of the first i buckets, each once.
    lemma {:induction false} PrefixIsListed(i: nat)
      requires Valid() && i <= |chains|
      ensures Lists(FlatBuckets(bags, chains, i), nodes, 0, i)
    {
      hide Lists, FlatChain;
      if i == 0 {
        EmptyLists();
      } else {
        PrefixIsListed(i - 1);
        ChainIsListed(i - 1);
        ListsConcat(FlatBuckets(bags, chains, i - 1), FlatChain(bags, chains[i-1], |chains[i-1]|), i - 1);
      }
    }

    lemma EmptyLists()
      requires buckets.Length > 0
      ensures Lists([], nodes, 0, 0)
    {
    }

    lemma ListsConcat(a: seq<RetiredNode>, b: seq<RetiredNode>, m: int)
      requires buckets.Length > 0 && 0 <= m && Lists(a, nodes, 0, m) && Lists(b, nodes, m, m + 1)
      ensures Lists(a + b, nodes, 0, m + 1)
    {
      DistinctConcat(a, b);
    }

    // Everything in the set, bucket by bucket, bag by bag.
    ghost function Flat(): (s: seq<RetiredNode>)
      requires Valid()
      reads this, buckets, nodes
    {
      FlatBuckets(bags, chains, |chains|)
    }

    lemma FlatIsEverything()
      requires Valid()
      ensures Distinct(Flat())
      ensures forall n :: n in nodes ==> n in Flat()
      ensures forall n :: n in Flat() ==> n in nodes
    {
      PrefixIsListed(|chains|);
    }

    // The last node so far is linked to the next bucket's first.
    method LinkBucket(pTail: RetiredNode, pBucket: RetiredNode, ghost i: nat, ghost done: seq<RetiredNode>)
      requires i < buckets.Length == |chains| && forall j :: i <= j < |chains| ==> Ready(j)
      requires Threaded(done) && Distinct(done) && done != [] && pTail == done[|done|-1]
      requires forall n :: n in done ==> n in nodes && Index(n.ptr) < i
      modifies pTail`nextFree
      ensures Threaded(done) && pTail.nextFree == pBucket
      ensures forall j :: i <= j < |chains| ==> Ready(j)
    {
      SetLast(pTail, pBucket, done);
      forall j | i <= j < |chains| ensures Ready(j) {
        assert old(Ready(j));
        KeptReady(j);
      }
    }

    // A bucket stays as it was while only nodes of other buckets change.
    twostate lemma KeptReady(j: int)
      requires chains == old(chains) && bags == old(bags) && nodes == old(nodes)
      requires 0 <= j < |chains| && old(Ready(j))
      requires buckets[..] == old(buckets[..])
      requires forall n :: n in nodes && Index(n.ptr) == j ==> n.next == old(n.next) && n.nextFree == old(n.nextFree)
      ensures Ready(j)
    {
      var chain := chains[j];
      assert buckets[..][j] == buckets[j] && old(buckets[..])[j] == old(buckets[j]);
      forall k | 0 <= k < |chain| ensures Untouched(chain, k) {
        assert old(Untouched(chain, k));
        assert forall n :: n in bags[chain[k]] ==> n in nodes && n.ptr == chain[k];
      }
    }

    // Appends bucket i's chain to a list that is already linked to it.
    method AppendChain(pBucket: RetiredNode, i: nat, ghost done: seq<RetiredNode>) returns (pTail: RetiredNode)
      requires i < buckets.Length == |chains| && forall j :: i <= j < |chains| ==> Ready(j)
      requires pBucket == buckets[i] && Threaded(done) && (done != [] ==> done[|done|-1].nextFree == pBucket)
      requires forall n :: n in done ==> n in nodes && Index(n.ptr) < i
      modifies log, nodes
      ensures var list := FlatChain(bags, chains[i], |chains[i]|);
              && log.calls == old(log.calls) + list && list != [] && list[0] == pBucket
              && Threaded(done + list) && pTail == list[|list|-1]
      ensures forall j :: i < j < |chains| ==> Ready(j)
    {
      ghost var chain := chains[i];
      assert Ready(i);
      FlatChainFirst(bags, chain, |chain|);
      pTail := FreeChain(pBucket, chain);
      assert forall n :: n in done ==> n.ptr !in chain;
      FreeLinkedConcat(done, FlatChain(bags, chain, |chain|));
      forall j | i < j < |chains| ensures Ready(j) {
        assert old(Ready(j));
        KeptReady(j);
      }
    }

    // One bucket of the outer loop: its chain is appended to the list so far.
    method FreeBucket(i: nat, first0: RetiredNode?, pTail0: RetiredNode?, ghost done: seq<RetiredNode>)
      returns (first: RetiredNode?, pTail: RetiredNode?)
      requires i < buckets.Length == |chains| && forall j :: i <= j < |chains| ==> Ready(j)
      requires ListSoFar(done, first0, pTail0) && Lists(done, nodes, 0, i)
      modifies log, nodes
      ensures log.calls == old(log.calls) + FlatChain(bags, chains[i], |chains[i]|)
      ensures ListSoFar(done + FlatChain(bags, chains[i], |chains[i]|), first, pTail)
      ensures forall j :: i < j < |chains| ==> Ready(j)
    {
      assert Ready(i);
      var pBucket := buckets[i];
      first, pTail := first0, pTail0;
      if pBucket != null {
        if first == null {
          first := pBucket;
        } else {
          LinkBucket(pTail, pBucket, i, done);
        }
        pTail := AppendChain(pBucket, i, done);
      } else {
        assert chains[i] == [];
        assert done + FlatChain(bags, chains[i], |chains[i]|) == done;
      }
    }

    // Before the first bucket is freed every bucket is ready, and the prefixes of the list stay in bounds.
    lemma AllReady()
      requires Valid()
      ensures forall j :: 0 <= j < |chains| ==> Ready(j)
      ensures forall i :: 0 <= i <= |chains| ==> Lists(FlatBuckets(bags, chains, i), nodes, 0, i)
    {
      forall j | 0 <= j < |chains| ensures Ready(j) {
        ChainIsReady(j);
      }
      forall i | 0 <= i <= |chains| ensures Lists(FlatBuckets(bags, chains, i), nodes, 0, i) {
        PrefixIsListed(i);
      }
    }

    lemma EmptyList(first: RetiredNode?, pTail: RetiredNode?)
      requires first == null && pTail == null
      ensures ListSoFar([], first, pTail)
    {
    }

    // The outer loop: bucket after bucket is appended to one list.
    method FreeBuckets() returns (first: RetiredNode?, pTail: RetiredNode?)
      requires buckets.Length == |chains| > 0
      requires forall j :: 0 <= j < |chains| ==> Ready(j)
      requires forall i :: 0 <= i <= |chains| ==> Lists(FlatBuckets(bags, chains, i), nodes, 0, i)
      modifies log, nodes
      ensures log.calls == old(log.calls) + FlatBuckets(bags, chains, |chains|)
      ensures ListSoFar(FlatBuckets(bags, chains, |chains|), first, pTail)
    {
      hide Ready, Lists, ListSoFar, FlatChain;
      pTail := null;
      first := null;
      assert ListSoFar([], first, pTail) by { EmptyList(first, pTail); }
      for i := 0 to buckets.Length
        invariant log.calls == old(log.calls) + FlatBuckets(bags, chains, i)
        invariant ListSoFar(FlatBuckets(bags, chains, i), first, pTail)
        invariant forall j :: i <= j < |chains| ==> Ready(j)
      {
        assert Lists(FlatBuckets(bags, chains, i), nodes, 0, i);
        first, pTail := FreeBucket(i, first, pTail, FlatBuckets(bags, chains, i));
      }
    }

    // Frees every node of the set once and returns them all as one list ending in null.
    method FreeAll() returns (first: RetiredNode?, last: RetiredNode?)
      requires Valid()
      modifies log, nodes
      ensures log.calls == old(log.calls) + old(Flat())
      ensures ListSoFar(old(Flat()), first, last) && (last != null ==> last.nextFree == null)
    {
      hide Ready, Threaded, FlatBuckets;
      AllReady();
      assert Lists(FlatBuckets(bags, chains, |chains|), nodes, 0, |chains|);
      first, last := FreeBuckets();
      ghost var done := FlatBuckets(bags, chains, |chains|);
      if last != null {
        SetLast(last, null, done);
      }
    }
  }

  lemma {:induction false} FlatChainFirst(bags: Bags, chain: seq<Ptr>, k: nat)
    requires 0 < k <= |chain| && forall i :: 0 <= i < |chain| ==> chain[i] in bags && bags[chain[i]] != []
    ensures FlatChain(bags, chain, k) != [] && FlatChain(bags, chain, k)[0] == bags[chain[0]][0]
  {
    if k > 1 {
      FlatChainFirst(bags, chain, k - 1);
    } else {
      assert FlatChain(bags, chain, 1) == [] + bags[chain[0]];
    }
  }

  lemma FlatChainLast(bags: Bags, chain: seq<Ptr>, k: nat)
    requires k < |chain| && chain[k] in bags && bags[chain[k]] != []
    ensures var list, bag := FlatChain(bags, chain, k + 1), bags[chain[k]];
            list != [] && list[|list|-1] == bag[|bag|-1]
  {
  }

  lemma ThreadedThen(done: seq<RetiredNode>, next: RetiredNode)
    requires Threaded(done) && done != [] && done[|done|-1].nextFree == next
    ensures FreeLinked(done + [next])
  {
    FreeLinkedConcat(done, [next]);
  }

  // Where p stands in a chain.
  ghost function Position(chain: seq<Ptr>, p: Ptr): (k: nat)
    ensures p in chain ==> k < |chain| && chain[k] == p
  {
    if p in chain then var k :| 0 <= k < |chain| && chain[k] == p; k else 0
  }

  // The chain without p.
  ghost function Cut(chain: seq<Ptr>, p: Ptr): seq<Ptr> {
    var k := Position(chain, p);
    if p in chain then chain[..k] + chain[k+1..] else chain
  }

  lemma PositionIs(chain: seq<Ptr>, p: Ptr, k: nat)
    requires Distinct(chain) && k < |chain| && chain[k] == p
    ensures Position(chain, p) == k
  {
  }

  lemma CutFacts(chain: seq<Ptr>, p: Ptr)
    requires Distinct(chain)
    ensures Distinct(Cut(chain, p))
    ensures forall q :: q in Cut(chain, p) <==> q in chain && q != p
  {
    var k := Position(chain, p);
    if p in chain {
      forall q | q in chain && q != p ensures q in Cut(chain, p) {
        var i :| 0 <= i < |chain| && chain[i] == q;
        assert Cut(chain, p)[if i < k then i else i - 1] == q;
      }
    }
  }

  lemma SecondLinked(bag: seq<RetiredNode>, node: RetiredNode)
    requires bag != [] && bag[0].nextFree == node && node.nextFree == if |bag| > 1 then bag[1] else null
    requires FreeLinked(bag[1..]) && (|bag| > 1 ==> bag[|bag|-1].nextFree == null)
    ensures var bag' := [bag[0], node] + bag[1..]; FreeLinked(bag') && bag'[|bag'|-1].nextFree == null
  {
    FreeLinkedConcat([bag[0], node], bag[1..]);
  }

  lemma SecondBagFor(bag: seq<RetiredNode>, node: RetiredNode)
    requires BagFor(node.ptr, bag) && node !in bag
    ensures BagFor(node.ptr, [bag[0], node] + bag[1..])
  {
    var bag' := [bag[0], node] + bag[1..];
    assert forall i :: 2 <= i < |bag'| ==> bag'[i] == bag[i-1];
  }

  lemma CutHeads(bags: Bags, chain: seq<Ptr>, p: Ptr)
    requires p in chain && Distinct(chain)
    requires forall i :: 0 <= i < |chain| ==> chain[i] in bags && BagFor(chain[i], bags[chain[i]])
    ensures |Cut(chain, p)| == |chain| - 1 && Position(chain, p) < |chain|
    ensures forall i: nat ::
              Head(bags - {p}, Cut(chain, p), i) == Head(bags, chain, if i < Position(chain, p) then i else i + 1)
  {
    hide BagFor;
  }

  lemma HeadsDiffer(bags: Bags, chain: seq<Ptr>)
    requires Distinct(chain)
    requires forall i :: 0 <= i < |chain| ==> chain[i] in bags && BagFor(chain[i], bags[chain[i]])
    ensures forall i: nat :: i < |chain| ==> var h := Head(bags, chain, i); h != null && h.ptr == chain[i]
    ensures forall i: nat, j: nat :: i < j < |chain| ==> Head(bags, chain, i) != Head(bags, chain, j)
  {
  }

  lemma OtherHeads(bags: Bags, chain: seq<Ptr>, p: Ptr)
    requires p !in chain
    ensures forall i: nat :: Head(bags - {p}, chain, i) == Head(bags, chain, i)
  {
  }

  // A new pointer moves the old heads of its bucket one place down and leaves the other buckets alone.
  lemma FrontHeads(bags: Bags, chain: seq<Ptr>, node: RetiredNode)
    requires node.ptr !in bags && forall i :: 0 <= i < |chain| ==> chain[i] in bags
    ensures forall k: nat :: Head(Inserted(bags, node), chain, k) == Head(bags, chain, k)
    ensures forall k: nat :: Head(Inserted(bags, node), [node.ptr] + chain, k + 1) == Head(bags, chain, k)
    ensures Head(Inserted(bags, node), [node.ptr] + chain, 0) == node
  {
  }

  // A duplicate never becomes the head of a bag.
  lemma HeadsStay(bags: Bags, node: RetiredNode)
    requires node.ptr in bags && bags[node.ptr] != []
    ensures forall chain, k :: Head(Inserted(bags, node), chain, k) == Head(bags, chain, k)
  {
  }

  // ----- the list that free_all builds -----

  // The bags of the first k pointers of a chain, one after the other.
  ghost function FlatChain(bags: Bags, chain: seq<Ptr>, k: nat): (s: seq<RetiredNode>)
    requires k <= |chain|
  {
    if k == 0 then []
    else FlatChain(bags, chain, k - 1) + if chain[k-1] in bags then bags[chain[k-1]] else []
  }

  // The chains of the first b buckets, one after the other.
  ghost function FlatBuckets(bags: Bags, chains: seq<seq<Ptr>>, b: nat): (s: seq<RetiredNode>)
    requires b <= |chains|
  {
    if b == 0 then [] else FlatBuckets(bags, chains, b - 1) + FlatChain(bags, chains[b-1], |chains[b-1]|)
  }

  // A chain of different pointers with their bags of nodes.
  ghost predicate ChainOfBags(bags: Bags, nodes: set<RetiredNode>, chain: seq<Ptr>) {
    && Distinct(chain)
    && forall i :: 0 <= i < |chain| ==>
         chain[i] in bags && BagFor(chain[i], bags[chain[i]]) && forall n :: n in bags[chain[i]] ==> n in nodes
  }

  lemma DistinctConcat<T>(a: seq<T>, b: seq<T>)
    requires Distinct(a) && Distinct(b) && forall x :: x in a ==> x !in b
    ensures Distinct(a + b)
  {
    var c := a + b;
    forall i, j | 0 <= i < j < |c| ensures c[i] != c[j] {
      if i < |a| <= j {
        assert c[i] in a && c[j] in b;
      }
    }
  }

  // A node is in the flattened chain exactly if it is in the bag of one of its pointers.
  lemma {:induction false} InFlatChain(bags: Bags, chain: seq<Ptr>, k: nat, n: RetiredNode)
    requires k <= |chain|
    requires forall i :: 0 <= i < |chain| ==> chain[i] in bags
    ensures n in FlatChain(bags, chain, k) <==> exists i :: 0 <= i < k && n in bags[chain[i]]
  {
    if k > 0 {
      InFlatChain(bags, chain, k - 1, n);
      assert n in FlatChain(bags, chain, k) <==> n in FlatChain(bags, chain, k - 1) || n in bags[chain[k-1]];
    }
  }

  lemma {:induction false} FlatChainDistinct(bags: Bags, chain: seq<Ptr>, k: nat)
    requires k <= |chain| && Distinct(chain)
    requires forall i :: 0 <= i < |chain| ==> chain[i] in bags && BagFor(chain[i], bags[chain[i]])
    ensures Distinct(FlatChain(bags, chain, k))
  {
    if k > 0 {
      var front, bag := FlatChain(bags, chain, k - 1), bags[chain[k-1]];
      FlatChainDistinct(bags, chain, k - 1);
      forall n | n in front ensures n !in bag {
        InFlatChain(bags, chain, k - 1, n);
        var i :| 0 <= i < k - 1 && n in bags[chain[i]];
        assert chain[i] == n.ptr != chain[k-1];
      }
      DistinctConcat(front, bag);
      assert FlatChain(bags, chain, k) == front + bag;
    }
  }

  lemma FlatChainFacts(bags: Bags, chain: seq<Ptr>, k: nat)
    requires k <= |chain| && Distinct(chain)
    requires forall i :: 0 <= i < |chain| ==> chain[i] in bags && BagFor(chain[i], bags[chain[i]])
    ensures forall n :: n in FlatChain(bags, chain, k) ==>
              exists i :: 0 <= i < k && chain[i] == n.ptr && n in bags[chain[i]]
    ensures forall i, n :: 0 <= i < k && n in bags[chain[i]] ==> n in FlatChain(bags, chain, k)
    ensures Distinct(FlatChain(bags, chain, k))
  {
    hide FlatChain;
    FlatChainDistinct(bags, chain, k);
    forall n | n in FlatChain(bags, chain, k)
      ensures exists i :: 0 <= i < k && chain[i] == n.ptr && n in bags[chain[i]]
    {
      InFlatChain(bags, chain, k, n);
    }
    forall i, n | 0 <= i < k && n in bags[chain[i]] ensures n in FlatChain(bags, chain, k) {
      InFlatChain(bags, chain, k, n);
    }
  }

  lemma FreeLinkedConcat(a: seq<RetiredNode>, b: seq<RetiredNode>)
    requires FreeLinked(a) && FreeLinked(b)
    requires a != [] && b != [] ==> a[|a|-1].nextFree == b[0]
    ensures FreeLinked(a + b)
  {
  }
}
