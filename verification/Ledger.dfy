/**
  The evidence block of `sentinel/vault.py` and what its hash binds. The hashed payload joins eight
  fields with `|`; the results below say what a single head hash says about a whole ledger.
 */
module Ledger {
  import opened Digests
  import Decimal

  datatype Block = Block(
    index: int,
    timestamp: string,
    tenant: string,
    date: string,
    merkleRoot: string,
    previousHash: string,
    blockHash: string,
    collectorCount: int,
    signatory: string,
    leafCount: int)  // the only entry of `details`

  const GENESIS: string := ZERO_DIGEST

  // ----- the payload --------------------------------------------------------------------------

  function Join(fields: seq<string>): string
    requires fields != []
  {
    if |fields| == 1 then fields[0] else fields[0] + "|" + Join(fields[1..])
  }

  function Fields(b: Block): seq<string> {
    [Decimal.Print(b.index), b.timestamp, b.tenant, b.date, b.merkleRoot, b.previousHash,
     Decimal.Print(b.collectorCount), b.signatory]
  }

  function Payload(b: Block): string {
    Join(Fields(b))
  }

  function CalculateHash(h: Hash, b: Block): string {
    h(Payload(b))
  }

  /** The eight hashed fields agree; `blockHash` and `details` are not among them. */
  predicate SameHashedFields(a: Block, b: Block) {
    && a.index == b.index
    && a.timestamp == b.timestamp
    && a.tenant == b.tenant
    && a.date == b.date
    && a.merkleRoot == b.merkleRoot
    && a.previousHash == b.previousHash
    && a.collectorCount == b.collectorCount
    && a.signatory == b.signatory
  }

  /** How many separators a text contains. */
  function Pipes(s: string): nat {
    if s == [] then 0 else (if s[0] == '|' then 1 else 0) + Pipes(s[1..])
  }

  predicate PipeFree(s: string) {
    '|' !in s
  }

  // ----- what equal payloads imply ------------------------------------------------------------

  lemma {:induction false} PipesOfConcat(a: string, b: string)
    ensures Pipes(a + b) == Pipes(a) + Pipes(b)
  {
    if a == [] {
      assert a + b == b;
    } else {
      assert (a + b)[1..] == a[1..] + b;
      PipesOfConcat(a[1..], b);
    }
  }

  lemma {:induction false} PipeFreeHasNone(s: string)
    ensures PipeFree(s) <==> Pipes(s) == 0
  {
    if s != [] {
      PipeFreeHasNone(s[1..]);
      assert s == [s[0]] + s[1..];
    }
  }

  lemma PrefixHasFewerPipes(a: string, x: string, b: string, y: string)
    requires |a| < |b| && a + "|" + x == b + "|" + y
    ensures Pipes(a) < Pipes(b)
  {
    assert (a + "|" + x)[..|a| + 1] == a + "|";
    assert (b + "|" + y)[..|b|] == b;
    assert b[..|a| + 1] == a + "|";
    assert b == (a + "|") + b[|a| + 1..];
    PipesOfConcat(a, "|");
    PipesOfConcat(a + "|", b[|a| + 1..]);
    assert Pipes("|") == 1;
  }

  /** Two texts split alike at the separator once their first parts hold equally many separators. */
  lemma SplitIsUnique(a: string, x: string, b: string, y: string)
    requires a + "|" + x == b + "|" + y
    requires Pipes(a) == Pipes(b)
    ensures a == b && x == y
  {
    if |a| < |b| {
      PrefixHasFewerPipes(a, x, b, y);
    } else if |b| < |a| {
      PrefixHasFewerPipes(b, y, a, x);
    } else {
      assert (a + "|" + x)[..|a|] == a && (b + "|" + y)[..|b|] == b;
      assert (a + "|" + x)[|a| + 1..] == x && (b + "|" + y)[|b| + 1..] == y;
    }
  }

  lemma {:induction false} JoinIsInjective(f: seq<string>, g: seq<string>)
    requires |f| == |g| > 0
    requires forall i :: 0 <= i < |f| - 1 ==> Pipes(f[i]) == Pipes(g[i])
    requires Join(f) == Join(g)
    ensures f == g
  {
    if |f| > 1 {
      SplitIsUnique(f[0], Join(f[1..]), g[0], Join(g[1..]));
      JoinIsInjective(f[1..], g[1..]);
      assert f == [f[0]] + f[1..] && g == [g[0]] + g[1..];
    } else {
      assert f == [f[0]] && g == [g[0]];
    }
  }

  lemma DecimalHasNoPipe(n: int)
    ensures Pipes(Decimal.Print(n)) == 0
  {
    PipeFreeHasNone(Decimal.Print(n));
  }

  lemma HexHasNoPipe(s: string)
    requires IsHex(s)
    ensures Pipes(s) == 0
  {
    PipeFreeHasNone(s);
  }

  /** The four free-text fields before the signatory hold equally many separators. */
  predicate SamePipeProfile(a: Block, b: Block) {
    && Pipes(a.timestamp) == Pipes(b.timestamp)
    && Pipes(a.tenant) == Pipes(b.tenant)
    && Pipes(a.date) == Pipes(b.date)
    && Pipes(a.merkleRoot) == Pipes(b.merkleRoot)
  }

  /** How many separators each field before the signatory holds. */
  function PipeProfile(b: Block): seq<nat> {
    [0, Pipes(b.timestamp), Pipes(b.tenant), Pipes(b.date), Pipes(b.merkleRoot), Pipes(b.previousHash), 0]
  }

  lemma PipesOfFields(b: Block)
    ensures |Fields(b)| == 8
    ensures forall i :: 0 <= i < 7 ==> Pipes(Fields(b)[i]) == PipeProfile(b)[i]
  {
    DecimalHasNoPipe(b.index);
    DecimalHasNoPipe(b.collectorCount);
  }

  lemma SameFieldsSameBlock(a: Block, b: Block)
    requires Fields(a) == Fields(b)
    ensures SameHashedFields(a, b)
  {
    var f, g := Fields(a), Fields(b);
    assert f[0] == g[0] && f[1] == g[1] && f[2] == g[2] && f[3] == g[3];
    assert f[4] == g[4] && f[5] == g[5] && f[6] == g[6] && f[7] == g[7];
    Decimal.PrintIsInjective(a.index, b.index);
    Decimal.PrintIsInjective(a.collectorCount, b.collectorCount);
  }

  lemma EqualPayloadsEqualFields(a: Block, b: Block)
    requires Payload(a) == Payload(b)
    requires Pipes(a.previousHash) == Pipes(b.previousHash)
    requires SamePipeProfile(a, b)
    ensures SameHashedFields(a, b)
  {
    PipesOfFields(a);
    PipesOfFields(b);
    assert PipeProfile(a) == PipeProfile(b);
    assert Fields(a) == Fields(b) by { JoinIsInjective(Fields(a), Fields(b)); }
    SameFieldsSameBlock(a, b);
  }

  /** The index comes first and a number has no separator, so a payload always fixes its index. */
  lemma EqualPayloadsEqualIndex(a: Block, b: Block)
    requires Payload(a) == Payload(b)
    ensures a.index == b.index
  {
    DecimalHasNoPipe(a.index);
    DecimalHasNoPipe(b.index);
    SplitIsUnique(Fields(a)[0], Join(Fields(a)[1..]), Fields(b)[0], Join(Fields(b)[1..]));
    Decimal.PrintIsInjective(a.index, b.index);
  }

  // ----- ledgers ------------------------------------------------------------------------------

  function PreviousHash(chain: seq<Block>, i: nat): string
    requires i <= |chain|
  {
    if i == 0 then GENESIS else chain[i - 1].blockHash
  }

  /** The checks at one position that need nothing but the ledger: index, link and recorded hash. */
  ghost predicate LinkedAt(h: Hash, chain: seq<Block>, i: nat)
    requires i < |chain|
  {
    && chain[i].index == i
    && chain[i].previousHash == PreviousHash(chain, i)
    && chain[i].blockHash == CalculateHash(h, chain[i])
  }

  ghost predicate Linked(h: Hash, chain: seq<Block>) {
    forall i :: 0 <= i < |chain| ==> LinkedAt(h, chain, i)
  }

  function Head(chain: seq<Block>): string
    requires chain != []
  {
    chain[|chain| - 1].blockHash
  }

  function Payloads(chain: seq<Block>): (r: set<Bytes>) {
    set i | 0 <= i < |chain| :: Payload(chain[i])
  }

  predicate AgreeAt(a: Block, b: Block) {
    SameHashedFields(a, b) && a.blockHash == b.blockHash
  }

  ghost predicate Agree(a: seq<Block>, b: seq<Block>) {
    && |a| == |b|
    && forall i :: 0 <= i < |a| ==> AgreeAt(a[i], b[i])
  }

  ghost predicate SamePipeProfiles(a: seq<Block>, b: seq<Block>) {
    && |a| == |b|
    && forall i :: 0 <= i < |a| ==> SamePipeProfile(a[i], b[i])
  }

  lemma HashHasNoPipe(h: Hash, text: Bytes)
    requires HexDigests(h)
    ensures Pipes(h(text)) == 0
  {
    assert IsHex(h(text));
    HexHasNoPipe(h(text));
  }

  lemma PreviousHashHasNoPipe(h: Hash, chain: seq<Block>, i: nat)
    requires HexDigests(h) && Linked(h, chain) && i <= |chain|
    ensures Pipes(PreviousHash(chain, i)) == 0
  {
    if i == 0 {
      PipeFreeHasNone(GENESIS);
    } else {
      assert LinkedAt(h, chain, i - 1);
      HashHasNoPipe(h, Payload(chain[i - 1]));
    }
  }

  lemma EqualHashesEqualPayloads(h: Hash, a: seq<Block>, b: seq<Block>, i: nat, j: nat)
    requires Linked(h, a) && Linked(h, b) && i < |a| && j < |b|
    requires NoCollision(h, Payloads(a) + Payloads(b))
    requires a[i].blockHash == b[j].blockHash
    ensures Payload(a[i]) == Payload(b[j])
  {
    assert LinkedAt(h, a, i) && LinkedAt(h, b, j);
    assert Payload(a[i]) in Payloads(a) && Payload(b[j]) in Payloads(b);
    EqualDigestsEqualContents(h, Payloads(a) + Payloads(b), Payload(a[i]), Payload(b[j]));
  }

  /** A recorded hash never moves to another position. */
  lemma EqualHashesEqualIndex(h: Hash, a: seq<Block>, b: seq<Block>, i: nat, j: nat)
    requires Linked(h, a) && Linked(h, b) && i < |a| && j < |b|
    requires NoCollision(h, Payloads(a) + Payloads(b))
    requires a[i].blockHash == b[j].blockHash
    ensures i == j
  {
    EqualHashesEqualPayloads(h, a, b, i, j);
    EqualPayloadsEqualIndex(a[i], b[j]);
    assert LinkedAt(h, a, i) && LinkedAt(h, b, j);
  }

  lemma HeadsAgreeLengthsAgree(h: Hash, a: seq<Block>, b: seq<Block>)
    requires Linked(h, a) && Linked(h, b) && a != [] && b != []
    requires NoCollision(h, Payloads(a) + Payloads(b))
    requires Head(a) == Head(b)
    ensures |a| == |b|
  {
    EqualHashesEqualIndex(h, a, b, |a| - 1, |b| - 1);
  }

  lemma OneStepBack(h: Hash, a: seq<Block>, b: seq<Block>, i: nat)
    requires HexDigests(h) && Linked(h, a) && Linked(h, b) && i < |a| && i < |b|
    requires NoCollision(h, Payloads(a) + Payloads(b))
    requires SamePipeProfile(a[i], b[i])
    requires a[i].blockHash == b[i].blockHash
    ensures AgreeAt(a[i], b[i])
    ensures PreviousHash(a, i) == PreviousHash(b, i)
  {
    assert LinkedAt(h, a, i) && LinkedAt(h, b, i);
    EqualHashesEqualPayloads(h, a, b, i, i);
    PreviousHashHasNoPipe(h, a, i);
    PreviousHashHasNoPipe(h, b, i);
    EqualPayloadsEqualFields(a[i], b[i]);
  }

  /** Backward induction: agreement at position `i` carries over to every earlier position. */
  lemma {:induction false} BindingFrom(h: Hash, a: seq<Block>, b: seq<Block>, i: nat)
    requires HexDigests(h) && Linked(h, a) && Linked(h, b)
    requires NoCollision(h, Payloads(a) + Payloads(b))
    requires SamePipeProfiles(a, b)
    requires i < |a| && a[i].blockHash == b[i].blockHash
    ensures forall k :: 0 <= k <= i ==> AgreeAt(a[k], b[k])
  {
    OneStepBack(h, a, b, i);
    if i > 0 {
      BindingFrom(h, a, b, i - 1);
    }
  }

  /**
    One shared head hash fixes the length of the ledger, and it fixes every hashed field of every
    block exactly when corresponding timestamp, tenant, date and root fields hold equally many `|`.
   */
  lemma HeadBindsLedger(h: Hash, a: seq<Block>, b: seq<Block>)
    requires HexDigests(h) && Linked(h, a) && Linked(h, b) && a != [] && b != []
    requires NoCollision(h, Payloads(a) + Payloads(b))
    requires Head(a) == Head(b)
    ensures |a| == |b|
    ensures Agree(a, b) <==> SamePipeProfiles(a, b)
  {
    HeadsAgreeLengthsAgree(h, a, b);
    if SamePipeProfiles(a, b) {
      BindingFrom(h, a, b, |a| - 1);
    }
  }

  ghost predicate PipeFreeFields(chain: seq<Block>) {
    forall i :: 0 <= i < |chain| ==>
      PipeFree(chain[i].timestamp) && PipeFree(chain[i].tenant) && PipeFree(chain[i].date) && PipeFree(chain[i].merkleRoot)
  }

  /** The everyday case: no separator in the free-text fields, any signatory. */
  lemma HeadBindsPipeFreeLedger(h: Hash, a: seq<Block>, b: seq<Block>)
    requires HexDigests(h) && Linked(h, a) && Linked(h, b) && a != [] && b != []
    requires NoCollision(h, Payloads(a) + Payloads(b))
    requires PipeFreeFields(a) && PipeFreeFields(b)
    requires Head(a) == Head(b)
    ensures Agree(a, b)
  {
    HeadBindsLedger(h, a, b);
    forall i | 0 <= i < |a| ensures SamePipeProfile(a[i], b[i]) {
      PipeFreeHasNone(a[i].timestamp);
      PipeFreeHasNone(a[i].tenant);
      PipeFreeHasNone(a[i].date);
      PipeFreeHasNone(a[i].merkleRoot);
      PipeFreeHasNone(b[i].timestamp);
      PipeFreeHasNone(b[i].tenant);
      PipeFreeHasNone(b[i].date);
      PipeFreeHasNone(b[i].merkleRoot);
    }
  }

  // ----- where binding stops --------------------------------------------------------------------

  function Sealed(h: Hash, b: Block): Block {
    b.(blockHash := CalculateHash(h, b))
  }

  lemma {:induction false} JoinOfConcat(f: seq<string>, g: seq<string>)
    requires f != [] && g != []
    ensures Join(f + g) == Join(f) + "|" + Join(g)
  {
    if |f| == 1 {
      assert (f + g)[1..] == g;
    } else {
      assert (f + g)[1..] == f[1..] + g;
      JoinOfConcat(f[1..], g);
      assert Join(f + g) == f[0] + "|" + (Join(f[1..]) + "|" + Join(g));
      assert Join(f + g) == (f[0] + "|" + Join(f[1..])) + "|" + Join(g);
    }
  }

  /** Regrouping: fields joined into one text can be shifted between the root and the signatory. */
  lemma ShiftedFieldsSamePayload(pre: seq<string>, r: string, p: string, c: string, x: string, d: string, y: string)
    requires pre != []
    ensures Join(pre + [r, p, c, Join([x, p, d, y])]) == Join(pre + [Join([r, p, c, x]), p, d, y])
  {
    var left, right := [r, p, c, x], [p, d, y];
    JoinOfConcat(left, right);
    JoinOfConcat([r, p, c], [x] + right);
    assert [r, p, c] + ([x] + right) == left + right;
    assert [x] + right == [x, p, d, y];
    JoinOfConcat([r, p, c], [Join([x, p, d, y])]);
    assert [r, p, c] + [Join([x, p, d, y])] == [r, p, c, Join([x, p, d, y])];
    JoinOfConcat([Join(left)], right);
    assert [Join(left)] + right == [Join(left), p, d, y];
    JoinOfConcat(pre, [r, p, c, Join([x, p, d, y])]);
    JoinOfConcat(pre, [Join(left), p, d, y]);
  }

  /**
    A separator inside the recorded root defeats binding for every digest function: these two
    one-block ledgers pass all three checks, share their head, and record different roots.
   */
  lemma PipeInRootDefeatsBinding(h: Hash, root: string) returns (a: seq<Block>, b: seq<Block>)
    ensures Linked(h, a) && Linked(h, b) && |a| == |b| == 1 && Head(a) == Head(b)
    ensures a[0].merkleRoot == root && !Agree(a, b)
  {
    var three, five := Decimal.Print(3), Decimal.Print(5);
    var one := Block(0, "t", "acme", "d", root, GENESIS, "", 3, Join(["x", GENESIS, five, "y"]), 3);
    var two := Block(0, "t", "acme", "d", Join([root, GENESIS, three, "x"]), GENESIS, "", 5, "y", 5);
    var pre := [Decimal.Print(0), "t", "acme", "d"];
    ShiftedFieldsSamePayload(pre, root, GENESIS, three, "x", five, "y");
    assert Fields(one) == pre + [root, GENESIS, three, Join(["x", GENESIS, five, "y"])];
    assert Fields(two) == pre + [Join([root, GENESIS, three, "x"]), GENESIS, five, "y"];
    a, b := [Sealed(h, one)], [Sealed(h, two)];
    assert Fields(a[0]) == Fields(one) && Fields(b[0]) == Fields(two);
    assert a[0].collectorCount != b[0].collectorCount;
  }

  /** Without a remembered head, cutting off the newest blocks goes unnoticed: prefixes stay linked. */
  lemma PrefixStaysLinked(h: Hash, chain: seq<Block>, n: nat)
    requires Linked(h, chain) && n <= |chain|
    ensures Linked(h, chain[..n])
  {
    forall i | 0 <= i < n ensures LinkedAt(h, chain[..n], i) {
      assert LinkedAt(h, chain, i);
      assert PreviousHash(chain[..n], i) == PreviousHash(chain, i);
    }
  }

  /** Appending a block keeps a ledger linked exactly when the block continues it. */
  lemma AppendKeepsLinked(h: Hash, chain: seq<Block>, b: Block)
    requires Linked(h, chain)
    ensures Linked(h, chain + [b]) <==>
      b.index == |chain| && b.previousHash == PreviousHash(chain, |chain|) && b.blockHash == CalculateHash(h, b)
  {
    var longer := chain + [b];
    assert PreviousHash(longer, |chain|) == PreviousHash(chain, |chain|);
    forall i | 0 <= i < |chain| ensures LinkedAt(h, longer, i) {
      assert LinkedAt(h, chain, i);
      assert PreviousHash(longer, i) == PreviousHash(chain, i);
    }
    assert Linked(h, longer) <==> LinkedAt(h, longer, |chain|);
  }

  /** The payload, written out. */
  lemma PayloadText(b: Block)
    ensures Payload(b) ==
      Decimal.Print(b.index) + "|" + b.timestamp + "|" + b.tenant + "|" + b.date + "|" + b.merkleRoot + "|" +
      b.previousHash + "|" + Decimal.Print(b.collectorCount) + "|" + b.signatory
  {
    JoinOfEight(Fields(b));
  }

  lemma JoinOfEight(f: seq<string>)
    requires |f| == 8
    ensures Join(f) == f[0] + "|" + f[1] + "|" + f[2] + "|" + f[3] + "|" + f[4] + "|" + f[5] + "|" + f[6] + "|" + f[7]
  {
    assert Join(f[7..]) == f[7];
    assert Join(f[6..]) == f[6] + "|" + Join(f[7..]) by { assert f[6..][1..] == f[7..]; }
    assert Join(f[5..]) == f[5] + "|" + Join(f[6..]) by { assert f[5..][1..] == f[6..]; }
    assert Join(f[4..]) == f[4] + "|" + Join(f[5..]) by { assert f[4..][1..] == f[5..]; }
    assert Join(f[3..]) == f[3] + "|" + Join(f[4..]) by { assert f[3..][1..] == f[4..]; }
    assert Join(f[2..]) == f[2] + "|" + Join(f[3..]) by { assert f[2..][1..] == f[3..]; }
    assert Join(f[1..]) == f[1] + "|" + Join(f[2..]) by { assert f[1..][1..] == f[2..]; }
  }
}
