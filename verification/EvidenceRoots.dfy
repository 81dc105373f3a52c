/**
  Which files of a collection day the vault hashes, and what the resulting root and count say about
  them (`_compute_evidence_merkle_root` of `sentinel/vault.py`).
 */
module EvidenceRoots {
  import opened Prelude
  import opened Digests
  import opened Merkle
  import opened MerkleCompletion

  /** One child of a day directory, with the contents of its two candidate report files. */
  datatype Entry = Entry(name: string, isDir: bool, report: Option<Bytes>, evidence: Option<Bytes>)

  /** A day directory: its children in name order, and every `*.json` file below it in path order. */
  datatype Listing = Listing(children: seq<Entry>, nested: seq<Named>)

  datatype Named = Named(name: string, contents: Bytes)

  function ReportOf(e: Entry): seq<Bytes> {
    if !e.isDir || e.name == "manifests" then []
    else match e.report
      case Some(r) => [r]
      case None => (match e.evidence case Some(v) => [v] case None => [])
  }

  function Reports(children: seq<Entry>): seq<Bytes> {
    if children == [] then []
    else Reports(children[..|children| - 1]) + ReportOf(children[|children| - 1])
  }

  function NestedReports(nested: seq<Named>): seq<Bytes> {
    if nested == [] then []
    else
      var last := nested[|nested| - 1];
      NestedReports(nested[..|nested| - 1]) +
      (if last.name == "report.json" || last.name == "evidence.json" then [last.contents] else [])
  }

  /** The contents a seal covers: the children's reports, or the nested ones when there are none. */
  function Covered(l: Listing): seq<Bytes> {
    if Reports(l.children) != [] then Reports(l.children) else NestedReports(l.nested)
  }

  function Hashes(h: Hash, contents: seq<Bytes>): (r: seq<string>)
    ensures |r| == |contents|
    ensures forall i :: 0 <= i < |r| ==> r[i] == h(contents[i])
  {
    seq(|contents|, i requires 0 <= i < |contents| => h(contents[i]))
  }

  function RootOf(h: Hash, l: Listing): Option<string> {
    if Covered(l) == [] then None else Some(MerkleRoot(h, Hashes(h, Covered(l))))
  }

  lemma ReportsGrow(children: seq<Entry>, i: nat)
    requires i < |children|
    ensures Reports(children[..i + 1]) == Reports(children[..i]) + ReportOf(children[i])
  {
    assert children[..i + 1][..i] == children[..i];
  }

  lemma NestedReportsGrow(nested: seq<Named>, i: nat)
    requires i < |nested|
    ensures NestedReports(nested[..i + 1]) == NestedReports(nested[..i]) + NestedReports([nested[i]])
  {
    assert nested[..i + 1][..i] == nested[..i];
    assert [nested[i]][..0] == [];
  }

  lemma HashesGrow(h: Hash, s: seq<Bytes>, x: Bytes)
    ensures Hashes(h, s + [x]) == Hashes(h, s) + [h(x)]
  {
    assert forall i :: 0 <= i < |s| ==> (s + [x])[i] == s[i];
  }

  method HashChildren(h: Hash, children: seq<Entry>) returns (leafHashes: seq<string>)
    ensures leafHashes == Hashes(h, Reports(children))
  {
    leafHashes := [];
    for i := 0 to |children|
      invariant leafHashes == Hashes(h, Reports(children[..i]))
    {
      var e := children[i];
      ReportsGrow(children, i);
      if e.isDir && e.name != "manifests" {
        var file := e.report;
        if file == None {
          file := e.evidence;
        }
        if file.Some? {
          HashesGrow(h, Reports(children[..i]), file.value);
          leafHashes := leafHashes + [h(file.value)];
        }
      }
    }
    assert children[..|children|] == children;
  }

  method HashNested(h: Hash, nested: seq<Named>) returns (leafHashes: seq<string>)
    ensures leafHashes == Hashes(h, NestedReports(nested))
  {
    leafHashes := [];
    for i := 0 to |nested|
      invariant leafHashes == Hashes(h, NestedReports(nested[..i]))
    {
      NestedReportsGrow(nested, i);
      assert NestedReports([nested[i]][..0]) == [];
      if nested[i].name == "report.json" || nested[i].name == "evidence.json" {
        HashesGrow(h, NestedReports(nested[..i]), nested[i].contents);
        leafHashes := leafHashes + [h(nested[i].contents)];
      }
    }
    assert nested[..|nested|] == nested;
  }

  /** Tries the children first and the nested files only when no child has a report. */
  method ComputeEvidenceMerkleRoot(h: Hash, day: Option<Listing>) returns (root: Option<string>, count: nat)
    ensures day == None ==> root == None && count == 0
    ensures day.Some? ==> root == RootOf(h, day.value) && count == |Covered(day.value)|
  {
    if day == None {
      return None, 0;
    }
    var leafHashes := HashChildren(h, day.value.children);
    if leafHashes == [] {
      leafHashes := HashNested(h, day.value.nested);
    }
    if leafHashes == [] {
      return None, 0;
    }
    return Some(MerkleRoot(h, leafHashes)), |leafHashes|;
  }

  // ----- what root and count bind -----------------------------------------------------------------

  function Without<T>(s: seq<T>, j: nat): seq<T>
    requires j < |s|
  {
    s[..j] + s[j + 1..]
  }

  lemma MultisetWithout<T>(s: seq<T>, j: nat)
    requires j < |s|
    ensures multiset(Without(s, j)) == multiset(s) - multiset{s[j]}
    ensures multiset(s) == multiset(Without(s, j)) + multiset{s[j]}
  {
    assert s == (s[..j] + [s[j]]) + s[j + 1..];
    assert multiset(s) == multiset(s[..j]) + multiset{s[j]} + multiset(s[j + 1..]);
    assert multiset(Without(s, j)) == multiset(s[..j]) + multiset(s[j + 1..]);
  }

  lemma HashesWithout(h: Hash, s: seq<Bytes>, j: nat)
    requires j < |s|
    ensures Hashes(h, Without(s, j)) == Without(Hashes(h, s), j)
  {
    var a, b := Hashes(h, Without(s, j)), Without(Hashes(h, s), j);
    forall i | 0 <= i < |a| ensures a[i] == b[i] {
      assert Without(s, j)[i] == if i < j then s[i] else s[i + 1];
    }
  }

  lemma FindHash(h: Hash, x: Bytes, b: seq<Bytes>) returns (j: nat)
    requires h(x) in multiset(Hashes(h, b))
    ensures j < |b| && h(b[j]) == h(x)
  {
    j :| 0 <= j < |b| && Hashes(h, b)[j] == h(x);
  }

  function Distinct(s: seq<Bytes>): set<Bytes> {
    set x | x in s
  }

  lemma {:induction false} EqualHashesEqualContents(h: Hash, a: seq<Bytes>, b: seq<Bytes>)
    requires NoCollision(h, Distinct(a) + Distinct(b))
    requires multiset(Hashes(h, a)) == multiset(Hashes(h, b))
    ensures multiset(a) == multiset(b)
    decreases |a|
  {
    assert |a| == |multiset(Hashes(h, a))| == |multiset(Hashes(h, b))| == |b|;
    if a != [] {
      assert Hashes(h, a)[0] in multiset(Hashes(h, a));
      var j := FindHash(h, a[0], b);
      EqualDigestsEqualContents(h, Distinct(a) + Distinct(b), a[0], b[j]);
      HashesWithout(h, a, 0);
      HashesWithout(h, b, j);
      MultisetWithout(Hashes(h, a), 0);
      MultisetWithout(Hashes(h, b), j);
      NoCollisionWithout(h, a, b, j);
      EqualHashesEqualContents(h, Without(a, 0), Without(b, j));
      MultisetWithout(a, 0);
      MultisetWithout(b, j);
    }
  }

  lemma NoCollisionWithout(h: Hash, a: seq<Bytes>, b: seq<Bytes>, j: nat)
    requires NoCollision(h, Distinct(a) + Distinct(b)) && a != [] && j < |b|
    ensures NoCollision(h, Distinct(Without(a, 0)) + Distinct(Without(b, j)))
  {
    assert Distinct(Without(a, 0)) <= Distinct(a) && Distinct(Without(b, j)) <= Distinct(b);
  }

  lemma HashesAreDigests(h: Hash, s: seq<Bytes>)
    requires HexDigests(h)
    ensures AreDigests(Hashes(h, s))
  {
  }

  /** Every text hashed to obtain a listing's root: the covered files and the tree's inner pairs. */
  function HashedForListing(h: Hash, l: Listing): set<Bytes> {
    Distinct(Covered(l)) + HashedFor(h, Leaves(Hashes(h, Covered(l))))
  }

  /** Root and count together fix the covered files up to order, and nothing beyond that. */
  lemma RootAndCountBindCoveredFiles(h: Hash, a: Listing, b: Listing)
    requires HexDigests(h)
    requires NoCollision(h, HashedForListing(h, a) + HashedForListing(h, b))
    ensures RootOf(h, a) == RootOf(h, b) && |Covered(a)| == |Covered(b)| <==> multiset(Covered(a)) == multiset(Covered(b))
  {
    var x, y := Covered(a), Covered(b);
    HashesAreDigests(h, x);
    HashesAreDigests(h, y);
    assert |multiset(x)| == |x| && |multiset(y)| == |y|;
    if |x| == |y| {
      RootsAgreeIffSameLeaves(h, Hashes(h, x), Hashes(h, y));
      if multiset(x) == multiset(y) {
        SameContentsSameHashes(h, x, y);
      } else if RootOf(h, a) == RootOf(h, b) && x != [] {
        EqualHashesEqualContents(h, x, y);
      }
    }
  }

  lemma {:induction false} SameContentsSameHashes(h: Hash, a: seq<Bytes>, b: seq<Bytes>)
    requires multiset(a) == multiset(b)
    ensures multiset(Hashes(h, a)) == multiset(Hashes(h, b))
    decreases |a|
  {
    assert |a| == |multiset(a)| == |multiset(b)| == |b|;
    if a != [] {
      assert a[0] in multiset(b);
      var j :| 0 <= j < |b| && b[j] == a[0];
      HashesWithout(h, a, 0);
      HashesWithout(h, b, j);
      MultisetWithout(a, 0);
      MultisetWithout(b, j);
      SameContentsSameHashes(h, Without(a, 0), Without(b, j));
      MultisetWithout(Hashes(h, a), 0);
      MultisetWithout(Hashes(h, b), j);
    }
  }

  /**
    The root alone is weaker than that: when an odd number of at least three reports is covered,
    repeating the one with the greatest digest in a further control directory keeps the root.
   */
  lemma RepeatedReportKeepsRoot(h: Hash, l: Listing, extra: Entry, j: nat)
    requires |Reports(l.children)| >= 3 && |Reports(l.children)| % 2 == 1 && j < |Reports(l.children)|
    requires Hashes(h, Reports(l.children))[j] == Greatest(Hashes(h, Reports(l.children)))
    requires ReportOf(extra) == [Reports(l.children)[j]]
    ensures RootOf(h, l.(children := l.children + [extra])) == RootOf(h, l)
    ensures multiset(Covered(l.(children := l.children + [extra]))) != multiset(Covered(l))
  {
    var c := Reports(l.children);
    var l' := l.(children := l.children + [extra]);
    assert l'.children[..|l'.children| - 1] == l.children;
    assert Covered(l') == c + [c[j]];
    HashesGrow(h, c, c[j]);
    DuplicatedGreatestKeepsRoot(h, Hashes(h, c));
    assert |multiset(Covered(l'))| == |multiset(Covered(l))| + 1;
  }

  // ----- what the root alone binds ----------------------------------------------------------------

  /** The leaf digests as the tree pairs them in the end: sorted, then completed to a power of two. */
  function Completion(h: Hash, l: Listing): seq<string>
    requires Covered(l) != []
  {
    Complete(Leaves(Hashes(h, Covered(l))))
  }

  /** No covered report is, as a text, one of the pairs hashed inside the other day's tree. */
  predicate NoPairText(h: Hash, a: Listing, b: Listing) {
    Distinct(Covered(a)) !! HashedFor(h, Leaves(Hashes(h, Covered(b))))
  }

  lemma LeavesAreHashes(h: Hash, l: Listing, x: string) returns (report: Bytes)
    requires Covered(l) != [] && x in Leaves(Hashes(h, Covered(l)))
    ensures report in Distinct(Covered(l)) && h(report) == x
  {
    var hashes := Hashes(h, Covered(l));
    assert x in multiset(Leaves(hashes));
    assert x in multiset(hashes);
    var j :| 0 <= j < |hashes| && hashes[j] == x;
    report := Covered(l)[j];
  }

  lemma ListingLeavesApart(h: Hash, a: Listing, b: Listing)
    requires Covered(a) != [] && Covered(b) != [] && NoPairText(h, a, b)
    requires NoCollision(h, HashedForListing(h, a) + HashedForListing(h, b))
    ensures LeavesApart(h, Leaves(Hashes(h, Covered(a))), Leaves(Hashes(h, Covered(b))))
  {
    forall x, pair | x in Leaves(Hashes(h, Covered(a))) && pair in HashedFor(h, Leaves(Hashes(h, Covered(b))))
      ensures x != h(pair)
    {
      var report := LeavesAreHashes(h, a, x);
      assert report in HashedForListing(h, a) && pair in HashedForListing(h, b);
    }
  }

  /**
    Without the count: two days of any sizes have one root exactly when their sorted digests have one
    completion, as long as no report is the text of a pair of digests inside the other tree.
   */
  lemma RootBindsCompletion(h: Hash, a: Listing, b: Listing)
    requires HexDigests(h) && Covered(a) != [] && Covered(b) != []
    requires NoCollision(h, HashedForListing(h, a) + HashedForListing(h, b))
    requires NoPairText(h, a, b) && NoPairText(h, b, a)
    ensures RootOf(h, a) == RootOf(h, b) <==> Completion(h, a) == Completion(h, b)
  {
    var x, y := Hashes(h, Covered(a)), Hashes(h, Covered(b));
    HashesAreDigests(h, Covered(a));
    HashesAreDigests(h, Covered(b));
    SortKeepsDigests(x);
    SortKeepsDigests(y);
    assert HashedForListing(h, b) + HashedForListing(h, a) == HashedForListing(h, a) + HashedForListing(h, b);
    ListingLeavesApart(h, a, b);
    ListingLeavesApart(h, b, a);
    RootsAgreeIffSameCompletion(h, Leaves(x), Leaves(y));
  }

  /** That premise is needed: a single report that spells two digests has the root of those two reports. */
  lemma PairTextKeepsRoot(h: Hash, a: Listing, b: Listing)
    requires |Covered(a)| == 2
    requires Covered(b) == [PairAt(Leaves(Hashes(h, Covered(a))), 0)]
    ensures RootOf(h, a) == RootOf(h, b) && multiset(Covered(a)) != multiset(Covered(b))
  {
    var x, y := Leaves(Hashes(h, Covered(a))), Leaves(Hashes(h, Covered(b)));
    assert |y| == 1 && y[0] in multiset(Hashes(h, Covered(b)));
    assert NextLevel(h, x) == [h(PairAt(x, 0))];
    assert |multiset(Covered(a))| == 2 && |multiset(Covered(b))| == 1;
  }

  // ----- which files are covered ------------------------------------------------------------------

  /** The control directory has this report: its `report.json`, or its `evidence.json` if there is no other. */
  predicate HasReport(e: Entry, contents: Bytes) {
    e.isDir && e.name != "manifests" && (e.report == Some(contents) || (e.report == None && e.evidence == Some(contents)))
  }

  lemma {:induction false} ReportsIff(children: seq<Entry>, contents: Bytes)
    ensures contents in Reports(children) <==> exists i :: 0 <= i < |children| && HasReport(children[i], contents)
  {
    if children != [] {
      var front, last := children[..|children| - 1], children[|children| - 1];
      ReportsIff(front, contents);
      assert contents in ReportOf(last) <==> HasReport(last, contents);
    }
  }

  lemma {:induction false} NestedReportsIff(nested: seq<Named>, contents: Bytes)
    ensures contents in NestedReports(nested) <==>
      exists i :: 0 <= i < |nested| && nested[i].contents == contents && nested[i].name in ["report.json", "evidence.json"]
  {
    if nested != [] {
      NestedReportsIff(nested[..|nested| - 1], contents);
    }
  }

  /** Covered are the reports of the control directories, and nested files only when no control directory has one. */
  lemma CoveredIff(l: Listing, contents: Bytes)
    ensures contents in Covered(l) <==>
      if exists i, c :: 0 <= i < |l.children| && HasReport(l.children[i], c)
      then exists i :: 0 <= i < |l.children| && HasReport(l.children[i], contents)
      else exists i :: 0 <= i < |l.nested| && l.nested[i].contents == contents && l.nested[i].name in ["report.json", "evidence.json"]
  {
    ReportsIff(l.children, contents);
    NestedReportsIff(l.nested, contents);
    if i, c :| 0 <= i < |l.children| && HasReport(l.children[i], c) {
      ReportsIff(l.children, c);
    }
    if Reports(l.children) != [] {
      ReportsIff(l.children, Reports(l.children)[0]);
    }
  }

  predicate HasAnyReport(e: Entry) {
    e.isDir && e.name != "manifests" && (e.report.Some? || e.evidence.Some?)
  }

  /** The count is the number of control directories that have a report of either name. */
  lemma {:induction false} CountIsDirectories(children: seq<Entry>, which: set<int>)
    requires forall i :: i in which <==> 0 <= i < |children| && HasAnyReport(children[i])
    ensures |Reports(children)| == |which|
    decreases |children|
  {
    if children == [] {
      assert forall i :: i !in which;
      assert which == {};
    } else {
      var n := |children| - 1;
      assert |ReportOf(children[n])| == if HasAnyReport(children[n]) then 1 else 0;
      CountIsDirectories(children[..n], which - {n});
    }
  }
}
