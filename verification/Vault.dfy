/**
  The evidence vault of `sentinel/vault.py`: sealing a collection day appends one block to a
  tenant's ledger, and verification replays the ledger against its own hashes and the days on disk.
 */
module Vault {
  import opened Prelude
  import opened Digests
  import opened Ledger
  import opened LedgerFile
  import opened EvidenceRoots
  import Merkle

  /** The digest, the JSON codec and the `evidence` directory under the vault's base. */
  datatype Setting = Setting(h: Hash, codec: Codec, evidenceDir: string)

  /** A ledger text for every tenant that has one, and the day directories that exist on disk. */
  datatype World = World(ledgers: map<string, string>, days: map<string, Listing>)

  datatype Request = Request(path: string, tenant: string, signatory: string, timestamp: string)

  datatype Finding =
    | IndexMismatch(pos: nat)
    | BrokenLink(pos: nat)
    | HashTamper(pos: nat)
    | EvidenceTamper(pos: nat)

  datatype Verdict = Verdict(valid: bool, totalBlocks: nat, head: Option<string>, errors: seq<Finding>)

  // ----- paths ------------------------------------------------------------------------------------

  /** `base / p`, where an absolute `p` replaces the base. */
  function JoinPath(base: string, p: string): string {
    if p != [] && p[0] == '/' then p else base + "/" + p
  }

  /** The last component of a path. */
  function NameOf(p: string): string {
    if p == [] then []
    else if p[|p| - 1] == '/' then []
    else NameOf(p[..|p| - 1]) + [p[|p| - 1]]
  }

  /** The directory a seal request means: as given, or below the evidence directory. */
  function Resolve(s: Setting, days: map<string, Listing>, path: string): string {
    if path !in days && JoinPath(s.evidenceDir, path) in days then JoinPath(s.evidenceDir, path) else path
  }

  // ----- what sealing and verification are meant to do -------------------------------------------

  function LedgerText(ledgers: map<string, string>, tenant: string): string {
    if tenant in ledgers then ledgers[tenant] else ""
  }

  function Chain(s: Setting, ledgers: map<string, string>, tenant: string): seq<Block> {
    ReadChain(s.codec, LedgerText(ledgers, tenant))
  }

  /** The block a request would append; None where the source raises for want of evidence. */
  function NewBlock(s: Setting, w: World, r: Request): Option<Block> {
    var chain := Chain(s, w.ledgers, r.tenant);
    var day := Resolve(s, w.days, r.path);
    if day !in w.days || RootOf(s.h, w.days[day]) == None then None
    else
      Some(BlockFor(s, chain, r, day, RootOf(s.h, w.days[day]).value, |Covered(w.days[day])|))
  }

  /** The block that continues a chain with the given root and count. */
  function BlockFor(s: Setting, chain: seq<Block>, r: Request, day: string, root: string, count: nat): Block {
    var b := Block(|chain|, r.timestamp, r.tenant, NameOf(day), root, PreviousHash(chain, |chain|), "", count, r.signatory, count);
    b.(blockHash := CalculateHash(s.h, b))
  }

  function SealedWorld(s: Setting, w: World, r: Request): World {
    match NewBlock(s, w, r)
    case None => w
    case Some(b) => w.(ledgers := w.ledgers[r.tenant := AppendBlock(s.codec, LedgerText(w.ledgers, r.tenant), b)])
  }

  /** The day on disk, if present and not empty, has the recorded root. */
  predicate EvidenceMatches(s: Setting, days: map<string, Listing>, b: Block) {
    var day := JoinPath(s.evidenceDir, b.date);
    day in days && RootOf(s.h, days[day]).Some? ==> RootOf(s.h, days[day]).value == b.merkleRoot
  }

  ghost predicate EvidenceIntact(s: Setting, days: map<string, Listing>, chain: seq<Block>) {
    forall i :: 0 <= i < |chain| ==> EvidenceMatches(s, days, chain[i])
  }

  ghost predicate ChainValid(s: Setting, days: map<string, Listing>, chain: seq<Block>) {
    Linked(s.h, chain) && EvidenceIntact(s, days, chain)
  }

  /** What each kind of reported error means. */
  predicate Holds(s: Setting, days: map<string, Listing>, chain: seq<Block>, f: Finding) {
    && f.pos < |chain|
    && var b := chain[f.pos];
       match f
       case IndexMismatch(_) => b.index != f.pos
       case BrokenLink(_) => b.previousHash != PreviousHash(chain, f.pos)
       case HashTamper(_) => b.blockHash != CalculateHash(s.h, b)
       case EvidenceTamper(_) => !EvidenceMatches(s, days, b)
  }

  // ----- the vault --------------------------------------------------------------------------------

  class EvidenceVault {
    const setting: Setting
    var ledgers: map<string, string>
    var days: map<string, Listing>

    constructor (setting: Setting, ledgers: map<string, string>, days: map<string, Listing>)
      ensures this.setting == setting && Contents() == World(ledgers, days)
    {
      this.setting := setting;
      this.ledgers := ledgers;
      this.days := days;
    }

    function Contents(): World
      reads this
    {
      World(ledgers, days)
    }

    function DayAt(path: string): Option<Listing>
      reads this
    {
      if path in days then Some(days[path]) else None
    }

    /** The directory itself, or else the one of that name under the evidence directory. */
    method FindDay(path: string) returns (date: string)
      ensures date == Resolve(setting, days, path)
    {
      date := path;
      if date !in days {
        var alternative := JoinPath(setting.evidenceDir, path);
        if alternative in days {
          date := alternative;
        }
      }
    }

    method SealRun(r: Request) returns (result: Result<Block, string>)
      modifies this`ledgers
      ensures Contents() == SealedWorld(setting, old(Contents()), r)
      ensures result.Success? <==> NewBlock(setting, old(Contents()), r).Some?
      ensures result.Success? ==> result.value == NewBlock(setting, old(Contents()), r).value
    {
      var chain := ReadChain(setting.codec, LedgerText(ledgers, r.tenant));
      var date := FindDay(r.path);
      var root, count := ComputeEvidenceMerkleRoot(setting.h, DayAt(date));
      if count == 0 || root == None {
        return Failure("No valid evidence files found to seal");
      }
      var block := MakeBlock(chain, r, date, root.value, count);
      ledgers := ledgers[r.tenant := AppendBlock(setting.codec, LedgerText(ledgers, r.tenant), block)];
      return Success(block);
    }

    /** Links the block to the last one of the chain and adds its hash. */
    method MakeBlock(chain: seq<Block>, r: Request, date: string, root: string, count: nat) returns (block: Block)
      ensures block == BlockFor(setting, chain, r, date, root, count)
    {
      var previous := if chain != [] then chain[|chain| - 1].blockHash else GENESIS;
      block := Block(|chain|, r.timestamp, r.tenant, NameOf(date), root, previous, "", count, r.signatory, count);
      block := block.(blockHash := CalculateHash(setting.h, block));
    }

    /** Lists exactly the findings that hold, so the list is empty exactly when the chain is valid. */
    method VerifyChain(tenant: string) returns (v: Verdict)
      ensures forall f :: f in v.errors <==> Holds(setting, days, Chain(setting, ledgers, tenant), f)
      ensures v.valid <==> ChainValid(setting, days, Chain(setting, ledgers, tenant))
      ensures v.totalBlocks == |Chain(setting, ledgers, tenant)|
      ensures v.head == if v.totalBlocks == 0 then None else Some(Head(Chain(setting, ledgers, tenant)))
    {
      var chain := ReadChain(setting.codec, LedgerText(ledgers, tenant));
      if chain == [] {
        return Verdict(true, 0, None, []);
      }
      var errors: seq<Finding> := [];
      var expected := GENESIS;
      for i := 0 to |chain|
        invariant expected == PreviousHash(chain, i)
        invariant forall f :: f in errors <==> f.pos < i && Holds(setting, days, chain, f)
      {
        var found := CheckBlock(chain, i, expected);
        errors := errors + found;
        expected := chain[i].blockHash;
      }
      NoFindingsIffValid(setting, days, chain, errors);
      return Verdict(|errors| == 0, |chain|, Some(Head(chain)), errors);
    }

    /** The body of the verification loop. */
    method CheckBlock(chain: seq<Block>, i: nat, expected: string) returns (found: seq<Finding>)
      requires i < |chain| && expected == PreviousHash(chain, i)
      ensures forall f :: f in found <==> f.pos == i && Holds(setting, days, chain, f)
    {
      var block := chain[i];
      found := [];
      if block.index != i {
        found := found + [IndexMismatch(i)];
      }
      if block.previousHash != expected {
        found := found + [BrokenLink(i)];
      }
      if block.blockHash != CalculateHash(setting.h, block) {
        found := found + [HashTamper(i)];
      }
      assert forall f :: f in found <==> f.pos == i && !f.EvidenceTamper? && Holds(setting, days, chain, f);
      var dateDir := JoinPath(setting.evidenceDir, block.date);
      if dateDir in days {
        var diskRoot, _ := ComputeEvidenceMerkleRoot(setting.h, Some(days[dateDir]));
        if diskRoot.Some? && diskRoot.value != block.merkleRoot {
          found := found + [EvidenceTamper(i)];
        }
      }
    }
  }

  lemma NoFindingsIffValid(s: Setting, days: map<string, Listing>, chain: seq<Block>, errors: seq<Finding>)
    requires forall f :: f in errors <==> Holds(s, days, chain, f)
    ensures errors == [] <==> ChainValid(s, days, chain)
  {
    if errors == [] {
      forall i | 0 <= i < |chain| ensures LinkedAt(s.h, chain, i) && EvidenceMatches(s, days, chain[i]) {
        assert IndexMismatch(i) !in errors && BrokenLink(i) !in errors;
        assert HashTamper(i) !in errors && EvidenceTamper(i) !in errors;
      }
    } else {
      var f := errors[0];
      assert Holds(s, days, chain, f);
      assert !(LinkedAt(s.h, chain, f.pos) && EvidenceMatches(s, days, chain[f.pos]));
    }
  }

  // ----- sealing refines an append-only ledger ----------------------------------------------------

  ghost predicate Printable(s: Setting, w: World, r: Request) {
    NewBlock(s, w, r).Some? ==> PrintsBack(s.codec, NewBlock(s, w, r).value)
  }

  /** A successful seal adds its block to the tenant's chain and leaves every other chain alone. */
  lemma SealAppends(s: Setting, w: World, r: Request)
    requires NewBlock(s, w, r).Some? && Printable(s, w, r)
    requires EndsClean(LedgerText(w.ledgers, r.tenant))
    ensures Chain(s, SealedWorld(s, w, r).ledgers, r.tenant) == Chain(s, w.ledgers, r.tenant) + [NewBlock(s, w, r).value]
    ensures EndsClean(LedgerText(SealedWorld(s, w, r).ledgers, r.tenant))
    ensures forall t :: t != r.tenant ==> LedgerText(SealedWorld(s, w, r).ledgers, t) == LedgerText(w.ledgers, t)
  {
    AppendedBlockIsRead(s.codec, LedgerText(w.ledgers, r.tenant), NewBlock(s, w, r).value);
  }

  /**
    On a ledger whose last line was only partly written, the sealed block is read afterwards iff that
    line read as nothing and, joined with the block, reads as the block. The seal succeeds either way.
   */
  lemma SealIsReadIff(s: Setting, w: World, r: Request)
    requires NewBlock(s, w, r).Some? && Printable(s, w, r)
    ensures var b, tail := NewBlock(s, w, r).value, LastLine(LedgerText(w.ledgers, r.tenant));
      && EndsClean(LedgerText(SealedWorld(s, w, r).ledgers, r.tenant))
      && (Chain(s, SealedWorld(s, w, r).ledgers, r.tenant) == Chain(s, w.ledgers, r.tenant) + [b] <==>
            ReadLine(s.codec, tail) == [] && ReadLine(s.codec, tail + s.codec.dump(b)) == [b])
  {
    var text, b := LedgerText(w.ledgers, r.tenant), NewBlock(s, w, r).value;
    ChainAfterAppend(s.codec, text, b);
    AppendedBlockReadIff(s.codec, text, b);
  }

  lemma AppendKeepsEvidence(s: Setting, days: map<string, Listing>, chain: seq<Block>, b: Block)
    requires EvidenceIntact(s, days, chain)
    ensures EvidenceIntact(s, days, chain + [b]) <==> EvidenceMatches(s, days, b)
  {
    assert (chain + [b])[|chain|] == b;
    assert forall i :: 0 <= i < |chain| ==> (chain + [b])[i] == chain[i];
  }

  /**
    Sealing keeps a valid chain valid exactly when the day found under the evidence directory with
    the sealed name is absent, empty, or the very evidence that was sealed.
   */
  lemma SealKeepsValidIff(s: Setting, w: World, r: Request)
    requires NewBlock(s, w, r).Some? && Printable(s, w, r)
    requires EndsClean(LedgerText(w.ledgers, r.tenant))
    requires ChainValid(s, w.days, Chain(s, w.ledgers, r.tenant))
    ensures ChainValid(s, w.days, Chain(s, SealedWorld(s, w, r).ledgers, r.tenant))
       <==> EvidenceMatches(s, w.days, NewBlock(s, w, r).value)
  {
    var chain, b := Chain(s, w.ledgers, r.tenant), NewBlock(s, w, r).value;
    SealAppends(s, w, r);
    NewBlockContinues(s, w, r);
    AppendKeepsLinked(s.h, chain, b);
    AppendKeepsEvidence(s, w.days, chain, b);
  }

  lemma NewBlockContinues(s: Setting, w: World, r: Request)
    requires NewBlock(s, w, r).Some?
    ensures var b := NewBlock(s, w, r).value; var chain := Chain(s, w.ledgers, r.tenant);
      b.index == |chain| && b.previousHash == PreviousHash(chain, |chain|) && b.blockHash == CalculateHash(s.h, b)
  {
    var b := NewBlock(s, w, r).value;
    assert Fields(b) == Fields(b.(blockHash := ""));
  }

  /** The sealed directory is the evidence directory's own child of that name. */
  predicate UnderEvidence(s: Setting, days: map<string, Listing>, path: string) {
    var day := Resolve(s, days, path);
    day == JoinPath(s.evidenceDir, NameOf(day))
  }

  /** Requests and collections, in the order in which they happen. */
  datatype Event = Seal(request: Request) | Collect(path: string, day: Listing)

  function Step(s: Setting, w: World, e: Event): World {
    match e
    case Seal(r) => SealedWorld(s, w, r)
    case Collect(path, day) => w.(days := w.days[path := day])
  }

  function Run(s: Setting, w: World, events: seq<Event>): World
    decreases |events|
  {
    if events == [] then w else Run(s, Step(s, w, events[0]), events[1..])
  }

  ghost predicate SealedDay(s: Setting, w: World, path: string) {
    exists t, i | t in w.ledgers && 0 <= i < |Chain(s, w.ledgers, t)| ::
      JoinPath(s.evidenceDir, Chain(s, w.ledgers, t)[i].date) == path
  }

  /** Seals name days under the evidence directory; collections leave sealed days alone. */
  ghost predicate Orderly(s: Setting, w: World, e: Event) {
    match e
    case Seal(r) => UnderEvidence(s, w.days, r.path) && Printable(s, w, r)
    case Collect(path, _) => !SealedDay(s, w, path)
  }

  ghost predicate OrderlyRun(s: Setting, w: World, events: seq<Event>)
    decreases |events|
  {
    events != [] ==> Orderly(s, w, events[0]) && OrderlyRun(s, Step(s, w, events[0]), events[1..])
  }

  ghost predicate Sound(s: Setting, w: World, tenant: string) {
    EndsClean(LedgerText(w.ledgers, tenant)) && ChainValid(s, w.days, Chain(s, w.ledgers, tenant))
  }

  lemma SealStep(s: Setting, w: World, r: Request, tenant: string)
    requires Sound(s, w, tenant) && Orderly(s, w, Seal(r))
    ensures Sound(s, Step(s, w, Seal(r)), tenant)
    ensures Chain(s, w.ledgers, tenant) <= Chain(s, Step(s, w, Seal(r)).ledgers, tenant)
  {
    if NewBlock(s, w, r).Some? {
      if tenant == r.tenant {
        SealAppends(s, w, r);
        SealKeepsValidIff(s, w, r);
      } else {
        assert LedgerText(SealedWorld(s, w, r).ledgers, tenant) == LedgerText(w.ledgers, tenant);
      }
    }
  }

  lemma CollectStep(s: Setting, w: World, path: string, day: Listing, tenant: string)
    requires Sound(s, w, tenant) && Orderly(s, w, Collect(path, day))
    ensures Sound(s, Step(s, w, Collect(path, day)), tenant)
  {
    var chain, days := Chain(s, w.ledgers, tenant), w.days[path := day];
    forall i | 0 <= i < |chain| ensures EvidenceMatches(s, days, chain[i]) {
      if tenant in w.ledgers {
        assert EvidenceMatches(s, w.days, chain[i]);
        assert JoinPath(s.evidenceDir, chain[i].date) != path;
      } else {
        assert Lines("") == [""];
        BlankLineReadsNothing(s.codec, "");
        ReadSingleLine(s.codec, "");
      }
    }
  }

  /**
    Every orderly run keeps each tenant's old ledger as a prefix of the new one and keeps a sound
    ledger sound, whichever tenants seal in between and however many seals fail.
   */
  lemma {:induction false} RunsAppendAndStayValid(s: Setting, w: World, events: seq<Event>, tenant: string)
    requires Sound(s, w, tenant) && OrderlyRun(s, w, events)
    ensures Sound(s, Run(s, w, events), tenant)
    ensures Chain(s, w.ledgers, tenant) <= Chain(s, Run(s, w, events).ledgers, tenant)
    decreases |events|
  {
    if events != [] {
      var next := Step(s, w, events[0]);
      match events[0] {
        case Seal(r) => SealStep(s, w, r, tenant);
        case Collect(path, day) => CollectStep(s, w, path, day, tenant);
      }
      RunsAppendAndStayValid(s, next, events[1..], tenant);
    }
  }

  // ----- what one remembered head hash says about the evidence itself -----------------------------

  function DayOf(s: Setting, days: map<string, Listing>, b: Block): Listing
    requires JoinPath(s.evidenceDir, b.date) in days
  {
    days[JoinPath(s.evidenceDir, b.date)]
  }

  /** The day is on disk, not empty, and holds as many reports as the block counted. */
  predicate CountedDay(s: Setting, days: map<string, Listing>, b: Block) {
    JoinPath(s.evidenceDir, b.date) in days && |Covered(DayOf(s, days, b))| == b.collectorCount > 0
  }

  /**
    Two valid ledgers with the same head agree on the evidence as well: wherever both stores still
    hold a day with the recorded number of reports, the reports are the same up to order.
   */
  lemma HeadBindsEvidence(s: Setting, days1: map<string, Listing>, days2: map<string, Listing>,
                          a: seq<Block>, b: seq<Block>, i: nat)
    requires HexDigests(s.h) && ChainValid(s, days1, a) && ChainValid(s, days2, b) && a != [] && b != []
    requires PipeFreeFields(a) && PipeFreeFields(b) && NoCollision(s.h, Payloads(a) + Payloads(b))
    requires Head(a) == Head(b)
    requires i < |a| && i < |b| && CountedDay(s, days1, a[i]) && CountedDay(s, days2, b[i])
    requires NoCollision(s.h, HashedForListing(s.h, DayOf(s, days1, a[i])) + HashedForListing(s.h, DayOf(s, days2, b[i])))
    ensures multiset(Covered(DayOf(s, days1, a[i]))) == multiset(Covered(DayOf(s, days2, b[i])))
  {
    HeadBindsPipeFreeLedger(s.h, a, b);
    assert AgreeAt(a[i], b[i]);
    assert EvidenceMatches(s, days1, a[i]) && EvidenceMatches(s, days2, b[i]);
    RootAndCountBindCoveredFiles(s.h, DayOf(s, days1, a[i]), DayOf(s, days2, b[i]));
  }

  /**
    Verification compares roots but not counts, so repeating the report with the greatest digest in
    a new control directory of an odd day passes it: the day changes and the verdict does not.
   */
  lemma RepeatedReportGoesUnnoticed(s: Setting, days: map<string, Listing>, chain: seq<Block>, path: string, extra: Entry, j: nat)
    requires ChainValid(s, days, chain) && path in days
    requires var reports := Reports(days[path].children);
      && |reports| >= 3 && |reports| % 2 == 1 && j < |reports|
      && Hashes(s.h, reports)[j] == Merkle.Greatest(Hashes(s.h, reports))
      && ReportOf(extra) == [reports[j]]
    ensures var grown := days[path].(children := days[path].children + [extra]);
      && ChainValid(s, days[path := grown], chain)
      && multiset(Covered(grown)) != multiset(Covered(days[path]))
  {
    var grown := days[path].(children := days[path].children + [extra]);
    RepeatedReportKeepsRoot(s.h, days[path], extra, j);
    forall i | 0 <= i < |chain| ensures EvidenceMatches(s, days[path := grown], chain[i]) {
      assert EvidenceMatches(s, days, chain[i]);
    }
  }

  // ----- which changes of a sealed day verification notices ---------------------------------------

  /** Some block of the chain seals the day at `path`. */
  ghost predicate Seals(s: Setting, chain: seq<Block>, path: string) {
    exists i :: 0 <= i < |chain| && JoinPath(s.evidenceDir, chain[i].date) == path
  }

  /** After a sealed day was changed, the chain is still valid exactly when the day is empty or kept its root. */
  lemma ChangedDayPassesIff(s: Setting, days: map<string, Listing>, chain: seq<Block>, path: string, changed: Listing)
    requires ChainValid(s, days, chain) && Seals(s, chain, path)
    requires path in days && RootOf(s.h, days[path]).Some?
    ensures ChainValid(s, days[path := changed], chain) <==>
      Covered(changed) == [] || RootOf(s.h, changed) == RootOf(s.h, days[path])
  {
    var after := days[path := changed];
    if Covered(changed) == [] || RootOf(s.h, changed) == RootOf(s.h, days[path]) {
      forall i | 0 <= i < |chain| ensures EvidenceMatches(s, after, chain[i]) {
        assert EvidenceMatches(s, days, chain[i]);
      }
    } else {
      var i :| 0 <= i < |chain| && JoinPath(s.evidenceDir, chain[i].date) == path;
      assert EvidenceMatches(s, days, chain[i]) && !EvidenceMatches(s, after, chain[i]);
    }
  }

  /** Verification skips a day that is not there, so removing one never makes a chain invalid. */
  lemma RemovedDayPasses(s: Setting, days: map<string, Listing>, chain: seq<Block>, path: string)
    requires ChainValid(s, days, chain)
    ensures ChainValid(s, days - {path}, chain)
  {
    forall i | 0 <= i < |chain| ensures EvidenceMatches(s, days - {path}, chain[i]) {
      assert EvidenceMatches(s, days, chain[i]);
    }
  }

  /** Nor does it matter for the others: what is left is valid iff it was, apart from the removed day's own blocks. */
  lemma RemovedDayHidesOnlyItself(s: Setting, days: map<string, Listing>, chain: seq<Block>, path: string)
    ensures ChainValid(s, days - {path}, chain) <==>
      Linked(s.h, chain) && forall i :: 0 <= i < |chain| && JoinPath(s.evidenceDir, chain[i].date) != path ==>
        EvidenceMatches(s, days, chain[i])
  {
    forall i | 0 <= i < |chain|
      ensures EvidenceMatches(s, days - {path}, chain[i]) <==>
        (JoinPath(s.evidenceDir, chain[i].date) != path ==> EvidenceMatches(s, days, chain[i]))
    {
    }
  }

  /**
    While the day still holds the recorded number of reports, verification misses nothing: the chain
    stays valid exactly when the reports are the same up to order.
   */
  lemma SameCountChangePassesIff(s: Setting, days: map<string, Listing>, chain: seq<Block>, i: nat, changed: Listing)
    requires HexDigests(s.h) && ChainValid(s, days, chain)
    requires i < |chain| && CountedDay(s, days, chain[i]) && |Covered(changed)| == chain[i].collectorCount
    requires NoCollision(s.h, HashedForListing(s.h, DayOf(s, days, chain[i])) + HashedForListing(s.h, changed))
    ensures ChainValid(s, days[JoinPath(s.evidenceDir, chain[i].date) := changed], chain) <==>
      multiset(Covered(changed)) == multiset(Covered(DayOf(s, days, chain[i])))
  {
    var path := JoinPath(s.evidenceDir, chain[i].date);
    assert Seals(s, chain, path);
    ChangedDayPassesIff(s, days, chain, path, changed);
    RootAndCountBindCoveredFiles(s.h, days[path], changed);
  }

  /**
    For a change to any number of reports: it passes exactly when the day is empty afterwards or its
    sorted digests have the same completion, unless a report spells a pair of digests.
   */
  lemma AnyChangePassesIff(s: Setting, days: map<string, Listing>, chain: seq<Block>, path: string, changed: Listing)
    requires HexDigests(s.h) && ChainValid(s, days, chain) && Seals(s, chain, path)
    requires path in days && Covered(days[path]) != []
    requires NoCollision(s.h, HashedForListing(s.h, days[path]) + HashedForListing(s.h, changed))
    requires NoPairText(s.h, days[path], changed) && NoPairText(s.h, changed, days[path])
    ensures ChainValid(s, days[path := changed], chain) <==>
      Covered(changed) == [] || Completion(s.h, changed) == Completion(s.h, days[path])
  {
    ChangedDayPassesIff(s, days, chain, path, changed);
    if Covered(changed) != [] {
      RootBindsCompletion(s.h, changed, days[path]) by {
        assert HashedForListing(s.h, changed) + HashedForListing(s.h, days[path])
            == HashedForListing(s.h, days[path]) + HashedForListing(s.h, changed);
      }
    }
  }

  /** A report that spells the digests of a sealed day's two reports can replace them both. */
  lemma PairTextGoesUnnoticed(s: Setting, days: map<string, Listing>, chain: seq<Block>, path: string, changed: Listing)
    requires ChainValid(s, days, chain) && Seals(s, chain, path)
    requires path in days && |Covered(days[path])| == 2
    requires Covered(changed) == [Merkle.PairAt(Merkle.Leaves(Hashes(s.h, Covered(days[path]))), 0)]
    ensures ChainValid(s, days[path := changed], chain)
    ensures multiset(Covered(changed)) != multiset(Covered(days[path]))
  {
    PairTextKeepsRoot(s.h, days[path], changed);
    ChangedDayPassesIff(s, days, chain, path, changed);
  }

  // ----- what a sealed block records --------------------------------------------------------------

  /** A block records its day: how many reports it covers, their root, and who sealed it when. */
  lemma SealedBlockRecordsDay(s: Setting, w: World, r: Request)
    requires NewBlock(s, w, r).Some?
    ensures var b, day := NewBlock(s, w, r).value, Resolve(s, w.days, r.path);
      && day in w.days && b.collectorCount == b.leafCount == |Covered(w.days[day])| > 0
      && RootOf(s.h, w.days[day]) == Some(b.merkleRoot) && b.date == NameOf(day)
      && b.timestamp == r.timestamp && b.tenant == r.tenant && b.signatory == r.signatory
  {
  }

  /** So a day sealed under the evidence directory is there with as many reports as the block counts. */
  lemma SealedDayIsCounted(s: Setting, w: World, r: Request)
    requires NewBlock(s, w, r).Some? && UnderEvidence(s, w.days, r.path)
    ensures CountedDay(s, w.days, NewBlock(s, w, r).value)
  {
    SealedBlockRecordsDay(s, w, r);
  }

  lemma {:induction false} NameOfJoined(base: string, name: string)
    requires '/' !in name
    ensures NameOf(base + "/" + name) == name
    decreases |name|
  {
    var p := base + "/" + name;
    if name != [] {
      var front := name[..|name| - 1];
      assert p[..|p| - 1] == base + "/" + front;
      NameOfJoined(base, front);
      assert p[|p| - 1] == name[|name| - 1] && name == front + [name[|name| - 1]];
    }
  }

  /** A seal by bare date means the day of that name under the evidence directory. */
  lemma SealByDate(s: Setting, w: World, r: Request)
    requires r.path != "" && '/' !in r.path && r.path !in w.days
    requires s.evidenceDir + "/" + r.path in w.days && Covered(w.days[s.evidenceDir + "/" + r.path]) != []
    ensures UnderEvidence(s, w.days, r.path)
    ensures var day := w.days[s.evidenceDir + "/" + r.path]; var b := NewBlock(s, w, r);
      b.Some? && b.value.date == r.path && Some(b.value.merkleRoot) == RootOf(s.h, day)
  {
    assert r.path[0] in r.path;
    NameOfJoined(s.evidenceDir, r.path);
  }

  /** A path that exists is sealed as it is. */
  lemma SealByPath(s: Setting, w: World, r: Request)
    requires r.path in w.days && Covered(w.days[r.path]) != []
    ensures NewBlock(s, w, r).Some? && Some(NewBlock(s, w, r).value.merkleRoot) == RootOf(s.h, w.days[r.path])
  {
  }

  /** Every block's day is on disk with the recorded number of reports. */
  ghost predicate AllCounted(s: Setting, w: World, tenant: string) {
    forall i :: 0 <= i < |Chain(s, w.ledgers, tenant)| ==> CountedDay(s, w.days, Chain(s, w.ledgers, tenant)[i])
  }

  lemma SealStepCounts(s: Setting, w: World, r: Request, tenant: string)
    requires Sound(s, w, tenant) && AllCounted(s, w, tenant) && Orderly(s, w, Seal(r))
    ensures AllCounted(s, Step(s, w, Seal(r)), tenant)
  {
    if NewBlock(s, w, r).Some? {
      if tenant == r.tenant {
        SealAppends(s, w, r);
        assert CountedDay(s, w.days, NewBlock(s, w, r).value) by { SealedDayIsCounted(s, w, r); }
        CountedGrows(s, w.days, Chain(s, w.ledgers, tenant), NewBlock(s, w, r).value);
      } else {
        assert LedgerText(SealedWorld(s, w, r).ledgers, tenant) == LedgerText(w.ledgers, tenant);
      }
    }
  }

  lemma CountedGrows(s: Setting, days: map<string, Listing>, chain: seq<Block>, b: Block)
    requires (forall i :: 0 <= i < |chain| ==> CountedDay(s, days, chain[i])) && CountedDay(s, days, b)
    ensures forall i :: 0 <= i < |chain + [b]| ==> CountedDay(s, days, (chain + [b])[i])
  {
  }

  lemma CollectStepCounts(s: Setting, w: World, path: string, day: Listing, tenant: string)
    requires AllCounted(s, w, tenant) && Orderly(s, w, Collect(path, day)) && tenant in w.ledgers
    ensures AllCounted(s, Step(s, w, Collect(path, day)), tenant)
  {
    var chain := Chain(s, w.ledgers, tenant);
    forall i | 0 <= i < |chain| ensures CountedDay(s, w.days[path := day], chain[i]) {
      assert CountedDay(s, w.days, chain[i]) && JoinPath(s.evidenceDir, chain[i].date) != path;
    }
  }

  lemma NoLedgerNoBlocks(s: Setting, w: World, tenant: string)
    requires LedgerText(w.ledgers, tenant) == ""
    ensures Chain(s, w.ledgers, tenant) == [] && Sound(s, w, tenant) && AllCounted(s, w, tenant)
  {
    assert Lines("") == [""];
    BlankLineReadsNothing(s.codec, "");
    ReadSingleLine(s.codec, "");
  }

  /** Every orderly run keeps the recorded counts true of the days on disk. */
  lemma {:induction false} RunsKeepCounts(s: Setting, w: World, events: seq<Event>, tenant: string)
    requires Sound(s, w, tenant) && AllCounted(s, w, tenant) && OrderlyRun(s, w, events)
    ensures Sound(s, Run(s, w, events), tenant) && AllCounted(s, Run(s, w, events), tenant)
    decreases |events|
  {
    if events != [] {
      var next := Step(s, w, events[0]);
      match events[0] {
        case Seal(r) =>
          SealStep(s, w, r, tenant);
          SealStepCounts(s, w, r, tenant);
        case Collect(path, day) =>
          CollectStep(s, w, path, day, tenant);
          if tenant in w.ledgers {
            CollectStepCounts(s, w, path, day, tenant);
          } else {
            NoLedgerNoBlocks(s, next, tenant);
          }
      }
      RunsKeepCounts(s, next, events[1..], tenant);
    }
  }

  /**
    End to end: two vaults that started without a ledger for the tenant, each with its own seals and
    collections, hold the same reports for every sealed day once the heads of their ledgers agree.
   */
  lemma EqualHeadsEqualEvidence(s: Setting, w1: World, events1: seq<Event>, w2: World, events2: seq<Event>, tenant: string, i: nat)
    requires HexDigests(s.h) && LedgerText(w1.ledgers, tenant) == "" && LedgerText(w2.ledgers, tenant) == ""
    requires OrderlyRun(s, w1, events1) && OrderlyRun(s, w2, events2)
    requires var z1, z2 := Run(s, w1, events1), Run(s, w2, events2);
      var a, b := Chain(s, z1.ledgers, tenant), Chain(s, z2.ledgers, tenant);
      && a != [] && b != [] && Head(a) == Head(b) && PipeFreeFields(a) && PipeFreeFields(b)
      && NoCollision(s.h, Payloads(a) + Payloads(b)) && i < |a| && i < |b|
      && JoinPath(s.evidenceDir, a[i].date) in z1.days && JoinPath(s.evidenceDir, b[i].date) in z2.days
      && NoCollision(s.h, HashedForListing(s.h, DayOf(s, z1.days, a[i])) + HashedForListing(s.h, DayOf(s, z2.days, b[i])))
    ensures var z1, z2 := Run(s, w1, events1), Run(s, w2, events2);
      var a, b := Chain(s, z1.ledgers, tenant), Chain(s, z2.ledgers, tenant);
      |a| == |b| && multiset(Covered(DayOf(s, z1.days, a[i]))) == multiset(Covered(DayOf(s, z2.days, b[i])))
  {
    var z1, z2 := Run(s, w1, events1), Run(s, w2, events2);
    var a, b := Chain(s, z1.ledgers, tenant), Chain(s, z2.ledgers, tenant);
    NoLedgerNoBlocks(s, w1, tenant);
    NoLedgerNoBlocks(s, w2, tenant);
    RunsKeepCounts(s, w1, events1, tenant);
    RunsKeepCounts(s, w2, events2, tenant);
    HeadsAgreeLengthsAgree(s.h, a, b);
    assert CountedDay(s, z1.days, a[i]) && CountedDay(s, z2.days, b[i]);
    HeadBindsEvidence(s, z1.days, z2.days, a, b, i);
  }

  /** A block is checked against the day of its date below the evidence directory, or against the directory an absolute date names. */
  lemma CheckedDirectory(s: Setting, days: map<string, Listing>, b: Block)
    ensures var day := if b.date != "" && b.date[0] == '/' then b.date else s.evidenceDir + "/" + b.date;
      EvidenceMatches(s, days, b) <==> day !in days || RootOf(s.h, days[day]) in {None, Some(b.merkleRoot)}
  {
  }
}
