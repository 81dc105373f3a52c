/**
  What a Merkle root says about leaf lists of any two lengths: pairing odd ends with themselves, level
  by level, completes a list to a power of two, and the root binds that completion.
 */
module MerkleCompletion {
  import opened Digests
  import opened Merkle

  function Pow2(k: nat): (r: nat)
    ensures r >= 1
  {
    if k == 0 then 1 else 2 * Pow2(k - 1)
  }

  /** How many levels lie between `n` nodes and their root. */
  function Height(n: nat): nat {
    if n <= 1 then 0 else 1 + Height((n + 1) / 2)
  }

  /** Which of `n` nodes stands at position `p` of the completion: the end of an odd level stands twice. */
  function Pick(n: nat, p: nat): (i: nat)
    requires n > 0 && p < Pow2(Height(n))
    ensures i < n
    decreases n
  {
    if n == 1 then 0
    else
      var parent := Pick((n + 1) / 2, p / 2);
      if 2 * parent + p % 2 < n then 2 * parent + p % 2 else 2 * parent
  }

  function Complete(nodes: seq<string>): (r: seq<string>)
    requires nodes != []
    ensures |r| == Pow2(Height(|nodes|))
    ensures forall p :: 0 <= p < |r| ==> r[p] == nodes[Pick(|nodes|, p)]
  {
    seq(Pow2(Height(|nodes|)), p requires 0 <= p < Pow2(Height(|nodes|)) => nodes[Pick(|nodes|, p)])
  }

  lemma PickOfChildren(n: nat, p: nat)
    requires n > 1 && p < Pow2(Height((n + 1) / 2))
    ensures 2 * p + 1 < Pow2(Height(n))
    ensures var parent := Pick((n + 1) / 2, p);
      && Pick(n, 2 * p) == 2 * parent
      && Pick(n, 2 * p + 1) == if 2 * parent + 1 < n then 2 * parent + 1 else 2 * parent
  {
    assert 2 * p / 2 == p && (2 * p + 1) / 2 == p && 2 * p % 2 == 0 && (2 * p + 1) % 2 == 1;
  }

  /** Completing and pairing commute, so the completion hashes nothing new. */
  lemma PairOfComplete(nodes: seq<string>, p: nat)
    requires |nodes| > 1 && p < Pow2(Height(Width(nodes)))
    ensures p < Width(Complete(nodes))
    ensures PairAt(Complete(nodes), p) == PairAt(nodes, Pick(Width(nodes), p))
  {
    PickOfChildren(|nodes|, p);
  }

  lemma LevelOfComplete(h: Hash, nodes: seq<string>)
    requires |nodes| > 1
    ensures NextLevel(h, Complete(nodes)) == Complete(NextLevel(h, nodes))
  {
    var a, b := NextLevel(h, Complete(nodes)), Complete(NextLevel(h, nodes));
    assert |a| == |b|;
    forall p | 0 <= p < |a| ensures a[p] == b[p] {
      PairOfComplete(nodes, p);
    }
  }

  lemma {:induction false} CompletionKeepsRoot(h: Hash, nodes: seq<string>)
    requires nodes != []
    ensures Root(h, Complete(nodes)) == Root(h, nodes)
    ensures HashedFor(h, Complete(nodes)) <= HashedFor(h, nodes)
    decreases |nodes|
  {
    if |nodes| > 1 {
      LevelOfComplete(h, nodes);
      CompletionKeepsRoot(h, NextLevel(h, nodes));
      CompletionKeepsPairs(nodes);
      assert |Complete(nodes)| > 1;
    } else {
      assert Complete(nodes) == nodes;
    }
  }

  lemma CompletionKeepsPairs(nodes: seq<string>)
    requires |nodes| > 1
    ensures forall x :: x in Pairs(Complete(nodes)) ==> x in Pairs(nodes)
  {
    var pairs := Pairs(Complete(nodes));
    forall p | 0 <= p < |pairs| ensures pairs[p] in Pairs(nodes) {
      PairOfComplete(nodes, p);
      assert Pairs(nodes)[Pick(Width(nodes), p)] == pairs[p];
    }
  }

  lemma CompletionKeepsDigests(nodes: seq<string>)
    requires nodes != [] && AreDigests(nodes)
    ensures AreDigests(Complete(nodes))
  {
  }

  // ----- going up in a completed list -------------------------------------------------------------

  /** The nodes `k` levels above. */
  function Up(h: Hash, nodes: seq<string>, k: nat): seq<string>
    decreases k
  {
    if k == 0 then nodes else Up(h, NextLevel(h, nodes), k - 1)
  }

  /** `up` has the root of `nodes`, and computing it from there hashes nothing new. */
  predicate Carries(h: Hash, up: seq<string>, nodes: seq<string>) {
    Root(h, up) == Root(h, nodes) && HashedFor(h, up) <= HashedFor(h, nodes)
  }

  lemma OneUpCarries(h: Hash, nodes: seq<string>)
    requires |nodes| > 1
    ensures Carries(h, NextLevel(h, nodes), nodes)
  {
  }

  lemma FirstPairIsHashed(h: Hash, below: seq<string>, nodes: seq<string>)
    requires |below| > 1 && Carries(h, below, nodes)
    ensures Pairs(below)[0] in HashedFor(h, nodes) && NextLevel(h, below)[0] == h(Pairs(below)[0])
  {
    assert Pairs(below)[0] in HashedFor(h, below);
  }

  lemma CarriesOn(h: Hash, top: seq<string>, up: seq<string>, nodes: seq<string>)
    requires Carries(h, top, up) && Carries(h, up, nodes)
    ensures Carries(h, top, nodes)
  {
  }

  lemma HalfOfPow2(n: nat, j: nat)
    requires n == Pow2(j) && j > 0
    ensures n > 1 && (n + 1) / 2 == Pow2(j - 1)
  {
    var half: nat := Pow2(j - 1);
    assert n == 2 * half && (2 * half + 1) / 2 == half;
  }

  lemma {:induction false} UpLast(h: Hash, nodes: seq<string>, k: nat)
    requires k > 0
    ensures Up(h, nodes, k) == NextLevel(h, Up(h, nodes, k - 1))
    decreases k
  {
    if k > 1 {
      UpLast(h, NextLevel(h, nodes), k - 1);
    }
  }

  lemma {:induction false} UpSize(h: Hash, nodes: seq<string>, j: nat, k: nat)
    requires |nodes| == Pow2(j) && k <= j
    ensures |Up(h, nodes, k)| == Pow2(j - k)
    ensures k < j ==> |Up(h, nodes, k)| > 1
    decreases k
  {
    if k > 0 {
      UpSize(h, nodes, j, k - 1);
      UpLast(h, nodes, k);
      HalfOfPow2(|Up(h, nodes, k - 1)|, j - k + 1);
    }
    if k < j {
      HalfOfPow2(|Up(h, nodes, k)|, j - k);
    }
  }

  lemma {:induction false} UpCarries(h: Hash, nodes: seq<string>, j: nat, k: nat)
    requires |nodes| == Pow2(j) && k <= j
    ensures Carries(h, Up(h, nodes, k), nodes)
    decreases k
  {
    if k > 0 {
      var below := Up(h, nodes, k - 1);
      UpCarries(h, nodes, j, k - 1);
      UpSize(h, nodes, j, k - 1);
      UpLast(h, nodes, k);
      assert Carries(h, NextLevel(h, below), below) by { OneUpCarries(h, below); }
      CarriesOn(h, NextLevel(h, below), below, nodes);
    }
  }

  lemma UpAreDigests(h: Hash, nodes: seq<string>, k: nat)
    requires HexDigests(h) && AreDigests(nodes)
    ensures AreDigests(Up(h, nodes, k))
  {
    if k > 0 {
      UpLast(h, nodes, k);
    }
  }

  /** A node above the leaves is the digest of a pair. */
  lemma UpperNodesAreInner(h: Hash, nodes: seq<string>, j: nat, k: nat) returns (pair: Bytes)
    requires |nodes| == Pow2(j) && 0 < k <= j
    ensures pair in HashedFor(h, nodes) && Up(h, nodes, k) != [] && Up(h, nodes, k)[0] == h(pair)
  {
    var below := Up(h, nodes, k - 1);
    assert |below| > 1 by { UpSize(h, nodes, j, k - 1); }
    pair := Pairs(below)[0];
    assert pair in HashedFor(h, nodes) && NextLevel(h, below)[0] == h(pair) by {
      UpCarries(h, nodes, j, k - 1);
      FirstPairIsHashed(h, below, nodes);
    }
    assert Up(h, nodes, k) == NextLevel(h, below) by { UpLast(h, nodes, k); }
  }

  // ----- what equal roots mean --------------------------------------------------------------------

  /** The completion of `a` is the level of the completion of `b` that lies `k` above its leaves. */
  predicate IsLevelOf(h: Hash, a: seq<string>, b: seq<string>, k: nat)
    requires a != [] && b != []
  {
    Height(|b|) == Height(|a|) + k && Complete(a) == Up(h, Complete(b), k)
  }

  lemma LevelRootIff(h: Hash, a: seq<string>, b: seq<string>, up: seq<string>)
    requires HexDigests(h) && a != [] && b != [] && AreDigests(a)
    requires NoCollision(h, HashedFor(h, a) + HashedFor(h, b))
    requires |up| == |Complete(a)| && AreDigests(up) && Carries(h, up, Complete(b))
    ensures Root(h, a) == Root(h, b) <==> Complete(a) == up
  {
    CompletionKeepsRoot(h, a);
    CompletionKeepsRoot(h, b);
    CompletionKeepsDigests(a);
    if Root(h, a) == Root(h, b) {
      RootBindsNodes(h, Complete(a), up);
    }
  }

  lemma LevelOfCompletion(h: Hash, b: seq<string>, k: nat)
    requires HexDigests(h) && b != [] && AreDigests(b) && k <= Height(|b|)
    ensures var up := Up(h, Complete(b), k);
      |up| == Pow2(Height(|b|) - k) && AreDigests(up) && Carries(h, up, Complete(b))
  {
    var nodes := Complete(b);
    CompletionKeepsDigests(b);
    UpSize(h, nodes, Height(|b|), k);
    assert AreDigests(Up(h, nodes, k)) by { UpAreDigests(h, nodes, k); }
    assert Carries(h, Up(h, nodes, k), nodes) by { UpCarries(h, nodes, Height(|b|), k); }
  }

  lemma UpIffLevel(h: Hash, a: seq<string>, b: seq<string>, k: nat, up: seq<string>)
    requires a != [] && b != [] && Height(|b|) == Height(|a|) + k && up == Up(h, Complete(b), k)
    ensures IsLevelOf(h, a, b, k) <==> Complete(a) == up
  {
  }

  lemma LowerRootIff(h: Hash, a: seq<string>, b: seq<string>, k: nat)
    requires HexDigests(h) && a != [] && b != [] && AreDigests(a) && AreDigests(b)
    requires NoCollision(h, HashedFor(h, a) + HashedFor(h, b))
    requires Height(|b|) == Height(|a|) + k
    ensures Root(h, a) == Root(h, b) <==> IsLevelOf(h, a, b, k)
  {
    var up := Up(h, Complete(b), k);
    assert IsLevelOf(h, a, b, k) <==> Complete(a) == up by { UpIffLevel(h, a, b, k, up); }
    assert Root(h, a) == Root(h, b) <==> Complete(a) == up by {
      LevelOfCompletion(h, b, k);
      LevelRootIff(h, a, b, up);
    }
  }

  /** Equal roots for any two lengths: one completion is a level of the other. */
  lemma RootsAgreeIffLevels(h: Hash, a: seq<string>, b: seq<string>)
    requires HexDigests(h) && a != [] && b != [] && AreDigests(a) && AreDigests(b)
    requires NoCollision(h, HashedFor(h, a) + HashedFor(h, b))
    ensures Root(h, a) == Root(h, b) <==> exists k: nat :: IsLevelOf(h, a, b, k) || IsLevelOf(h, b, a, k)
  {
    assert HashedFor(h, b) + HashedFor(h, a) == HashedFor(h, a) + HashedFor(h, b);
    forall k: nat ensures IsLevelOf(h, a, b, k) || IsLevelOf(h, b, a, k) ==> Root(h, a) == Root(h, b) {
      if IsLevelOf(h, a, b, k) {
        LowerRootIff(h, a, b, k);
      } else if IsLevelOf(h, b, a, k) {
        LowerRootIff(h, b, a, k);
      }
    }
    if Height(|a|) <= Height(|b|) {
      LowerRootIff(h, a, b, Height(|b|) - Height(|a|));
    } else {
      LowerRootIff(h, b, a, Height(|a|) - Height(|b|));
    }
  }

  /** No leaf is the digest of an inner pair of the other tree. */
  ghost predicate LeavesApart(h: Hash, leaves: seq<string>, other: seq<string>) {
    forall x, pair :: x in leaves && pair in HashedFor(h, other) ==> x != h(pair)
  }

  lemma NoUpperLevel(h: Hash, a: seq<string>, b: seq<string>, k: nat)
    requires a != [] && b != [] && LeavesApart(h, a, b)
    requires IsLevelOf(h, a, b, k)
    ensures Complete(a) == Complete(b)
  {
    assert Complete(a)[0] == a[Pick(|a|, 0)] && Complete(a)[0] in a;
    CompletionKeepsRoot(h, b);
    if k > 0 {
      var pair := UpperNodesAreInner(h, Complete(b), Height(|b|), k);
    }
  }

  /** With leaves and inner nodes apart, the root binds exactly the completion of the leaf list. */
  lemma RootsAgreeIffSameCompletion(h: Hash, a: seq<string>, b: seq<string>)
    requires HexDigests(h) && a != [] && b != [] && AreDigests(a) && AreDigests(b)
    requires NoCollision(h, HashedFor(h, a) + HashedFor(h, b))
    requires LeavesApart(h, a, b) && LeavesApart(h, b, a)
    ensures Root(h, a) == Root(h, b) <==> Complete(a) == Complete(b)
  {
    if Root(h, a) == Root(h, b) {
      RootsAgreeIffLevels(h, a, b);
      var k: nat :| IsLevelOf(h, a, b, k) || IsLevelOf(h, b, a, k);
      if IsLevelOf(h, a, b, k) {
        NoUpperLevel(h, a, b, k);
      } else {
        NoUpperLevel(h, b, a, k);
      }
    } else {
      CompletionKeepsRoot(h, a);
      CompletionKeepsRoot(h, b);
    }
  }

  // ----- examples ---------------------------------------------------------------------------------

  lemma HeightsUpToSeven()
    ensures Height(2) == 1 && Height(3) == Height(4) == 2 && Height(6) == Height(7) == 3
    ensures Pow2(1) == 2 && Pow2(2) == 4 && Pow2(3) == 8
  {
    assert Height(2) == 1 && Height(3) == 2;
  }

  lemma PicksOfThreeAndFour(p: nat)
    requires p < 4
    ensures Height(3) == Height(4) == 2 && Pow2(2) == 4
    ensures Pick(3, p) == (if p < 3 then p else 2) && Pick(4, p) == p
  {
    HeightsUpToSeven();
    assert Pick(2, p / 2) == p / 2;
  }

  lemma PicksOfSixAndSeven(p: nat)
    requires p < 8
    ensures Height(6) == Height(7) == 3 && Pow2(3) == 8
    ensures Pick(6, p) == (if p < 6 then p else p - 2) && Pick(7, p) == (if p < 7 then p else 6)
  {
    HeightsUpToSeven();
    PicksOfThreeAndFour(p / 2);
  }

  /** An even list, too, can share its completion with a longer one. */
  lemma SixAndSeven(a: string, b: string, c: string, d: string, e: string)
    ensures Complete([a, b, c, d, e, e]) == Complete([a, b, c, d, e, e, e])
  {
    var six, seven := [a, b, c, d, e, e], [a, b, c, d, e, e, e];
    HeightsUpToSeven();
    forall p | 0 <= p < 8 ensures Complete(six)[p] == Complete(seven)[p] {
      PicksOfSixAndSeven(p);
    }
  }
}
