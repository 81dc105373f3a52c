/**
  The Merkle tree of `sentinel/vault.py`: leaves are sorted, paired level by level, and an odd
  level pairs its last node with itself.
 */
module Merkle {
  import opened Digests
  import opened Ordering

  /** The node that pairs with position `2 * i`: its right neighbour, or itself at an odd end. */
  function Partner(nodes: seq<string>, i: nat): string
    requires 2 * i < |nodes|
  {
    if 2 * i + 1 < |nodes| then nodes[2 * i + 1] else nodes[2 * i]
  }

  function Width(nodes: seq<string>): nat {
    (|nodes| + 1) / 2
  }

  /** The text hashed for the `i`-th node of the next level. */
  function PairAt(nodes: seq<string>, i: nat): string
    requires i < Width(nodes)
  {
    nodes[2 * i] + Partner(nodes, i)
  }

  function Pairs(nodes: seq<string>): (r: seq<string>)
    ensures |r| == Width(nodes)
    ensures forall i :: 0 <= i < |r| ==> r[i] == PairAt(nodes, i)
  {
    seq(Width(nodes), i requires 0 <= i < Width(nodes) => PairAt(nodes, i))
  }

  function NextLevel(h: Hash, nodes: seq<string>): (r: seq<string>)
    ensures |r| == Width(nodes)
    ensures forall i :: 0 <= i < |r| ==> r[i] == h(PairAt(nodes, i))
  {
    seq(Width(nodes), i requires 0 <= i < Width(nodes) => h(PairAt(nodes, i)))
  }

  /** The root of a list of nodes taken in the given order. */
  function Root(h: Hash, nodes: seq<string>): string
    decreases |nodes|
  {
    if nodes == [] then ZERO_DIGEST
    else if |nodes| == 1 then nodes[0]
    else Root(h, NextLevel(h, nodes))
  }

  /** The leaves a tree is built over: sorted, or one zero digest when there are none. */
  function Leaves(leafHashes: seq<string>): seq<string> {
    if leafHashes == [] then [ZERO_DIGEST] else Sort(leafHashes)
  }

  function MerkleRoot(h: Hash, leafHashes: seq<string>): string {
    Root(h, Leaves(leafHashes))
  }

  /** Every text hashed while computing `Root(h, nodes)`. */
  function HashedFor(h: Hash, nodes: seq<string>): set<Bytes>
    decreases |nodes|
  {
    if |nodes| <= 1 then {}
    else (set p | p in Pairs(nodes)) + HashedFor(h, NextLevel(h, nodes))
  }

  ghost predicate AreDigests(nodes: seq<string>) {
    forall i :: 0 <= i < |nodes| ==> |nodes[i]| == DIGEST_LENGTH
  }

  /** The tree object, whose constructor does all the work. */
  class MerkleTree {
    const leaves: seq<string>
    const root: string

    constructor (h: Hash, leafHashes: seq<string>)
      ensures leaves == Leaves(leafHashes)
      ensures root == MerkleRoot(h, leafHashes)
    {
      var sorted := Leaves(leafHashes);
      leaves := sorted;
      var r := BuildTree(h, sorted);
      root := r;
    }
  }

  method BuildTree(h: Hash, nodes: seq<string>) returns (root: string)
    ensures root == Root(h, nodes)
    decreases |nodes|
  {
    if nodes == [] {
      return ZERO_DIGEST;
    }
    if |nodes| == 1 {
      return nodes[0];
    }
    var nextLevel: seq<string> := [];
    var i := 0;
    while i < |nodes|
      invariant i == 2 * |nextLevel| && |nextLevel| <= Width(nodes)
      invariant forall k :: 0 <= k < |nextLevel| ==> nextLevel[k] == h(PairAt(nodes, k))
    {
      var left := nodes[i];
      var right := if i + 1 < |nodes| then nodes[i + 1] else left;
      nextLevel := nextLevel + [h(left + right)];
      i := i + 2;
    }
    assert nextLevel == NextLevel(h, nodes);
    root := BuildTree(h, nextLevel);
  }

  // ----- binding ------------------------------------------------------------------------------

  lemma EqualPairsEqualNodes(a: seq<string>, b: seq<string>)
    requires |a| == |b| && AreDigests(a) && AreDigests(b)
    requires Pairs(a) == Pairs(b)
    ensures a == b
  {
    forall k | 0 <= k < |a| ensures a[k] == b[k] {
      var i := k / 2;
      assert Pairs(a)[i] == PairAt(a, i) && Pairs(b)[i] == PairAt(b, i);
      assert PairAt(a, i)[..DIGEST_LENGTH] == a[2 * i] && PairAt(b, i)[..DIGEST_LENGTH] == b[2 * i];
      assert PairAt(a, i)[DIGEST_LENGTH..] == Partner(a, i) && PairAt(b, i)[DIGEST_LENGTH..] == Partner(b, i);
    }
  }

  /** Going up one level loses nothing unless two of the hashed pairs collide. */
  lemma EqualLevelsEqualNodes(h: Hash, a: seq<string>, b: seq<string>)
    requires |a| == |b| > 1 && AreDigests(a) && AreDigests(b)
    requires NoCollision(h, HashedFor(h, a) + HashedFor(h, b))
    requires NextLevel(h, a) == NextLevel(h, b)
    ensures a == b
  {
    forall i | 0 <= i < Width(a) ensures Pairs(a)[i] == Pairs(b)[i] {
      assert Pairs(a)[i] in HashedFor(h, a) && Pairs(b)[i] in HashedFor(h, b);
      assert NextLevel(h, a)[i] == h(Pairs(a)[i]) && NextLevel(h, b)[i] == h(Pairs(b)[i]);
    }
    EqualPairsEqualNodes(a, b);
  }

  lemma {:induction false} RootBindsNodes(h: Hash, a: seq<string>, b: seq<string>)
    requires HexDigests(h)
    requires |a| == |b| && AreDigests(a) && AreDigests(b)
    requires NoCollision(h, HashedFor(h, a) + HashedFor(h, b))
    requires Root(h, a) == Root(h, b)
    ensures a == b
    decreases |a|
  {
    if |a| > 1 {
      var a', b' := NextLevel(h, a), NextLevel(h, b);
      assert HashedFor(h, a') <= HashedFor(h, a) && HashedFor(h, b') <= HashedFor(h, b);
      RootBindsNodes(h, a', b');
      EqualLevelsEqualNodes(h, a, b);
    }
  }

  /**
    For leaf lists of equal length, the root is the same exactly when the leaves are the same up to
    order. One direction is order independence, the other is binding.
   */
  lemma RootsAgreeIffSameLeaves(h: Hash, a: seq<string>, b: seq<string>)
    requires HexDigests(h)
    requires |a| == |b| && AreDigests(a) && AreDigests(b)
    requires NoCollision(h, HashedFor(h, Leaves(a)) + HashedFor(h, Leaves(b)))
    ensures MerkleRoot(h, a) == MerkleRoot(h, b) <==> multiset(a) == multiset(b)
  {
    SortAgreesIff(a, b);
    if a == [] {
    } else if MerkleRoot(h, a) == MerkleRoot(h, b) {
      SortKeepsDigests(a);
      SortKeepsDigests(b);
      RootBindsNodes(h, Sort(a), Sort(b));
    }
  }

  lemma SortKeepsDigests(s: seq<string>)
    requires AreDigests(s)
    ensures AreDigests(Sort(s))
  {
    forall i | 0 <= i < |Sort(s)| ensures |Sort(s)[i]| == DIGEST_LENGTH {
      assert Sort(s)[i] in multiset(Sort(s));
      assert Sort(s)[i] in multiset(s);
    }
  }

  // ----- why the leaf count has to be bound next to the root ----------------------------------

  /** The greatest leaf, the one an odd level duplicates. */
  function Greatest(leafHashes: seq<string>): string
    requires leafHashes != []
  {
    Sort(leafHashes)[|leafHashes| - 1]
  }

  lemma SortWithGreatestAgain(s: seq<string>)
    requires s != []
    ensures Sort(s + [Greatest(s)]) == Sort(s) + [Greatest(s)]
  {
    var t := Sort(s) + [Greatest(s)];
    SortSorts(s);
    LeqTotal(Greatest(s), Greatest(s));
    assert Sorted(t);
    SortOfSorted(t);
    assert multiset(t) == multiset(s + [Greatest(s)]);
    SortAgreesIff(t, s + [Greatest(s)]);
  }

  lemma PaddedLevel(h: Hash, nodes: seq<string>)
    requires |nodes| % 2 == 1
    ensures NextLevel(h, nodes + [nodes[|nodes| - 1]]) == NextLevel(h, nodes)
  {
    var padded := nodes + [nodes[|nodes| - 1]];
    forall i | 0 <= i < Width(nodes) ensures PairAt(padded, i) == PairAt(nodes, i) {
    }
  }

  lemma PaddedRoot(h: Hash, nodes: seq<string>)
    requires |nodes| >= 3 && |nodes| % 2 == 1
    ensures Root(h, nodes + [nodes[|nodes| - 1]]) == Root(h, nodes)
  {
    PaddedLevel(h, nodes);
  }

  /**
    Adding a second copy of the greatest leaf to an odd list of at least three leaves leaves the
    root unchanged, for every digest function. A root alone therefore does not fix the leaves.
   */
  lemma DuplicatedGreatestKeepsRoot(h: Hash, s: seq<string>)
    requires |s| >= 3 && |s| % 2 == 1
    ensures MerkleRoot(h, s + [Greatest(s)]) == MerkleRoot(h, s)
    ensures multiset(s + [Greatest(s)]) != multiset(s)
  {
    var g := Greatest(s);
    RootOfSorted(h, s);
    RootOfSorted(h, s + [g]);
    SortWithGreatestAgain(s);
    RepeatedLast(h, Sort(s), g);
    OneMoreLeaf(s, g);
  }

  lemma RootOfSorted(h: Hash, s: seq<string>)
    requires s != []
    ensures MerkleRoot(h, s) == Root(h, Sort(s))
  {
  }

  lemma RepeatedLast(h: Hash, nodes: seq<string>, last: string)
    requires |nodes| >= 3 && |nodes| % 2 == 1 && last == nodes[|nodes| - 1]
    ensures Root(h, nodes + [last]) == Root(h, nodes)
  {
    PaddedRoot(h, nodes);
  }

  lemma OneMoreLeaf(s: seq<string>, x: string)
    ensures multiset(s + [x]) != multiset(s)
  {
    assert |multiset(s + [x])| == |s| + 1;
  }

  // ----- small trees ------------------------------------------------------------------------------

  lemma TwoNodes(h: Hash, a: string, b: string)
    ensures Root(h, [a, b]) == h(a + b)
  {
    assert NextLevel(h, [a, b]) == [h(a + b)];
    assert Root(h, [h(a + b)]) == h(a + b);
  }

  lemma ThreeNodes(h: Hash, a: string, b: string, c: string)
    ensures Root(h, [a, b, c]) == h(h(a + b) + h(c + c))
  {
    assert NextLevel(h, [a, b, c]) == [h(a + b), h(c + c)];
    TwoNodes(h, h(a + b), h(c + c));
  }

  lemma SortOfTwo(a: string, b: string)
    requires Leq(a, b)
    ensures Sort([a, b]) == [a, b] && Sort([b, a]) == [a, b]
  {
    SortOfSorted([a, b]);
    assert multiset([a, b]) == multiset([b, a]);
    SortAgreesIff([a, b], [b, a]);
  }

  /** Up to three leaves, written out: the lower digest is on the left, and a lone node is paired with itself. */
  lemma TreesOfOneAndTwo(h: Hash, a: string, b: string)
    requires Leq(a, b)
    ensures MerkleRoot(h, []) == ZERO_DIGEST && MerkleRoot(h, [a]) == a
    ensures MerkleRoot(h, [a, b]) == h(a + b) && MerkleRoot(h, [b, a]) == h(a + b)
  {
    SortOfSorted([a]);
    RootOfSorted(h, [a]);
    RootOfSorted(h, [a, b]);
    RootOfSorted(h, [b, a]);
    SortOfTwo(a, b);
    TwoNodes(h, a, b);
  }

  lemma TreeOfThree(h: Hash, a: string, b: string, c: string)
    requires Leq(a, b) && Leq(b, c)
    ensures MerkleRoot(h, [a, b, c]) == h(h(a + b) + h(c + c))
  {
    assert Sorted([a, b, c]) by { LeqTransitive(a, b, c); }
    assert Sort([a, b, c]) == [a, b, c] by { SortOfSorted([a, b, c]); }
    RootOfSorted(h, [a, b, c]);
    ThreeNodes(h, a, b, c);
  }
}
