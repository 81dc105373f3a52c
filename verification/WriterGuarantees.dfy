/** What a finished evidence directory is worth: when it verifies, and which writes survive in it. */
module WriterGuarantees {
  import opened Prelude
  import opened Digests
  import opened Manifests
  import opened EvidenceWriter
  import LedgerFile

  predicate Touches(w: Write, n: string) {
    w.name == n || TempName(w.name) == n
  }

  /** The last write that decides about a name decides it: as its target it stays, as its temporary file it goes. */
  lemma {:induction false} LastWriteDecides(d: Dir, ws: seq<Write>, n: string, i: nat)
    requires i < |ws| && Touches(ws[i], n) && forall j :: i < j < |ws| ==> !Touches(ws[j], n)
    ensures if ws[i].name == n then n in PutAll(d, ws) && PutAll(d, ws)[n] == ws[i].data else n !in PutAll(d, ws)
    decreases |ws|
  {
    if i < |ws| - 1 {
      LastWriteDecides(d, ws[..|ws| - 1], n, i);
    }
  }

  lemma {:induction false} UntouchedNameStays(d: Dir, ws: seq<Write>, n: string)
    requires forall j :: 0 <= j < |ws| ==> !Touches(ws[j], n)
    ensures n in PutAll(d, ws) <==> n in d
    ensures n in d ==> PutAll(d, ws)[n] == d[n]
  {
    if ws != [] {
      UntouchedNameStays(d, ws[..|ws| - 1], n);
    }
  }

  lemma {:induction false} FindLastTouch(ws: seq<Write>, n: string, from: nat) returns (i: nat)
    requires from < |ws| && Touches(ws[from], n)
    ensures from <= i < |ws| && Touches(ws[i], n) && forall j :: i < j < |ws| ==> !Touches(ws[j], n)
    decreases |ws| - from
  {
    i := from;
    if j :| from < j < |ws| && Touches(ws[j], n) {
      i := FindLastTouch(ws, n, j);
    }
  }

  /** A write to `n`'s own name follows every write that uses `n` as its temporary file. */
  ghost predicate Rewritten(ws: seq<Write>, j: nat)
    requires j < |ws|
  {
    exists k :: j < k < |ws| && ws[k].name == TempName(ws[j].name)
  }

  lemma NamesAre(ws: seq<Write>, n: string) returns (i: nat)
    requires n in Names(ws)
    ensures i < |ws| && ws[i].name == n
  {
    i :| 0 <= i < |ws| && Names(ws)[i] == n;
  }

  lemma ArtifactsAreNames(job: Job)
    requires NamesPass(job)
    ensures Artifacts(job) == Names(Writes(job))
  {
    var ws := ExtraWrites(job, |job.extras|);
    assert Names(Writes(job))[..|ws|] == Names(ws);
  }

  /**
    When a call can succeed: no artifact is used as a later artifact's temporary file, unless it is
    written again afterwards.
   */
  lemma ArtifactsSurviveIff(job: Job, start: Dir)
    requires NamesPass(job)
    ensures ArtifactsSurvive(job, start) <==>
      forall j :: 0 <= j < |Writes(job)| && TempName(Writes(job)[j].name) in Artifacts(job) ==> Rewritten(Writes(job), j)
  {
    var ws, d := Writes(job), Wiped(start, job.undeletable);
    ArtifactsAreNames(job);
    if forall j :: 0 <= j < |ws| && TempName(ws[j].name) in Artifacts(job) ==> Rewritten(ws, j) {
      forall n | n in Artifacts(job) ensures n in PutAll(d, ws) {
        RewrittenSurvives(d, ws, n);
      }
    } else {
      var j :| 0 <= j < |ws| && TempName(ws[j].name) in Artifacts(job) && !Rewritten(ws, j);
      UnrewrittenIsLost(d, ws, j);
    }
  }

  lemma RewrittenSurvives(d: Dir, ws: seq<Write>, n: string)
    requires n in Names(ws)
    requires forall j :: 0 <= j < |ws| && TempName(ws[j].name) == n ==> Rewritten(ws, j)
    ensures n in PutAll(d, ws)
  {
    var i := NamesAre(ws, n);
    var last := FindLastTouch(ws, n, i);
    assert ws[last].name == n;
    LastWriteDecides(d, ws, n, last);
  }

  lemma UnrewrittenIsLost(d: Dir, ws: seq<Write>, j: nat)
    requires j < |ws| && !Rewritten(ws, j)
    ensures TempName(ws[j].name) !in PutAll(d, ws)
  {
    var n := TempName(ws[j].name);
    assert Touches(ws[j], n);
    var last := FindLastTouch(ws, n, j);
    assert ws[j].name != n by { assert |n| == |ws[j].name| + 4; }
    LastWriteDecides(d, ws, n, last);
  }

  /** Two extras, the first of which has the second one's temporary name, lose the first. */
  lemma TemporaryNameClash(job: Job, start: Dir, n: string, first: Bytes, second: Bytes)
    requires !job.encrypt && job.extras == [Extra(TempName(n), first), Extra(n, second)]
    requires SanitizeName(TempName(n)) == Some(TempName(n)) && SanitizeName(n) == Some(n)
    requires !LedgerFile.Blank(first) && !LedgerFile.Blank(second)
    ensures NamesPass(job) && !ArtifactsSurvive(job, start)
  {
    TwoExtraWrites(job, job.extras[0], job.extras[1]);
    var ws := Writes(job);
    assert ws[0].name == TempName(n) && ws[1].name == n && ws[2].name == REPORT && |ws| == 3;
    assert TempName(n)[|n| + 3] == 'p' && REPORT[|REPORT| - 1] == 'n';
    assert !Rewritten(ws, 1);
    assert Names(ws)[0] == TempName(n);
    ArtifactsAreNames(job);
    assert TempName(ws[1].name) in Artifacts(job);
    ArtifactsSurviveIff(job, start);
  }

  /** The shortest such job: extras called `a.tmp` and then `a`. */
  lemma TmpThenPlainFails(job: Job, start: Dir, first: Bytes, second: Bytes)
    requires !job.encrypt && job.extras == [Extra("a.tmp", first), Extra("a", second)]
    requires !LedgerFile.Blank(first) && !LedgerFile.Blank(second)
    ensures NamesPass(job) && !ArtifactsSurvive(job, start)
  {
    assert |Upper("a")| == 1 && |Upper("a.tmp")| == 5;
    PlainNameKept("a");
    PlainNameKept("a.tmp");
    assert TempName("a") == "a.tmp";
    TemporaryNameClash(job, start, "a", first, second);
  }

  /** Encrypted names end in `.enc` and temporary ones in `.tmp`, so encrypted artifacts always survive. */
  lemma EncryptedArtifactsSurvive(job: Job, start: Dir)
    requires NamesPass(job) && job.encrypt
    ensures ArtifactsSurvive(job, start)
  {
    ArtifactsAreNames(job);
    ArtifactsSurviveIff(job, start);
    forall n | n in Artifacts(job) ensures |n| > 0 && n[|n| - 1] == 'c' {
      var i := NamesAre(Writes(job), n);
      EncryptedNames(job, |job.extras|);
    }
    forall j | 0 <= j < |Writes(job)| ensures TempName(Writes(job)[j].name) !in Artifacts(job) {
      var t := TempName(Writes(job)[j].name);
      assert t[|t| - 1] == 'p';
    }
  }

  lemma {:induction false} EncryptedNames(job: Job, n: nat)
    requires NamesPass(job) && job.encrypt && n <= |job.extras|
    ensures forall w :: w in ExtraWrites(job, n) ==> |w.name| > 0 && w.name[|w.name| - 1] == 'c'
    ensures var r := FinalName(job, REPORT); r[|r| - 1] == 'c'
  {
    EncryptedNameEnds(job, REPORT);
    if n > 0 {
      EncryptedNames(job, n - 1);
      EncryptedNameEnds(job, SanitizeName(job.extras[n - 1].name).value);
    }
  }

  lemma EncryptedNameEnds(job: Job, name: string)
    requires job.encrypt
    ensures var final := FinalName(job, name); |final| > 0 && final[|final| - 1] == 'c'
  {
    assert (name + ".enc")[|name| + 3] == 'c';
  }

  // ----- write, then verify -----------------------------------------------------------------------

  /** A file that could not be deleted, is not part of the new set, and was not taken for a temporary file. */
  predicate Stray(job: Job, start: Dir, n: string)
    requires NamesPass(job)
  {
    && n in start && n in job.undeletable && n != LOCK && n != MANIFEST && n !in Listed(job)
    && forall j :: 0 <= j < |Writes(job)| ==> TempName(Writes(job)[j].name) != n
  }

  lemma UnlistedAreStrays(s: Setting, job: Job, start: Dir, n: string)
    requires NamesPass(job)
    ensures n in Unlisted(Finished(s, job, start), FinalManifest(s, job, start)) <==> Stray(job, start, n)
  {
    var ws, d := Writes(job), Wiped(start, job.undeletable);
    ArtifactsAreNames(job);
    if n !in Listed(job) {
      forall j | 0 <= j < |ws| ensures ws[j].name != n {
        assert Names(ws)[j] in Artifacts(job);
        assert Names(ws)[j] in Listed(job);
      }
      if forall j :: 0 <= j < |ws| ==> TempName(ws[j].name) != n {
        UntouchedNameStays(d, ws, n);
      } else {
        var j :| 0 <= j < |ws| && TempName(ws[j].name) == n;
        var last := FindLastTouch(ws, n, j);
        LastWriteDecides(d, ws, n, last);
      }
      assert job.encrypt ==> STUB in Listed(job);
    } else if n in Written(job, start) {
      assert n in FinalManifest(s, job, start).artifacts;
    }
  }

  lemma FinishedManifestReads(s: Setting, job: Job, start: Dir)
    requires JsonLaws(s) && NamesPass(job)
    ensures ReadManifest(s, Finished(s, job, start)) == Some(FinalManifest(s, job, start))
  {
    var m := FinalManifest(s, job, start);
    assert s.parse(s.dump(m)) == Some(m);
  }

  lemma FinishedArtifactsMatch(s: Setting, job: Job, start: Dir)
    requires NamesPass(job)
    ensures var m, base := FinalManifest(s, job, start), Written(job, start);
      ArtifactsMatch(s, Finished(s, job, start), m) <==>
        (MANIFEST in Listed(job) && MANIFEST in base ==> s.sha(base[MANIFEST]) == s.sha(s.dump(m)))
  {
    var m, base, f := FinalManifest(s, job, start), Written(job, start), Finished(s, job, start);
    assert forall n :: n in m.artifacts && n != MANIFEST ==> n in f && f[n] == base[n] && s.sha(f[n]) == m.artifacts[n];
    assert MANIFEST in m.artifacts <==> MANIFEST in Listed(job) && MANIFEST in base;
  }

  /**
    A finished directory verifies, encrypted or not and with or without an HMAC key, exactly when no
    file survived the wipe as a stray and no extra was itself named `manifest.json` (short of that
    extra having the digest of the manifest that lists it).
   */
  lemma FinishedVerifiesIff(s: Setting, job: Job, start: Dir)
    requires JsonLaws(s) && MacNeverEmpty(s) && NamesPass(job)
    ensures Accepts(s, Finished(s, job, start)) <==>
      && (forall n :: n in start ==> !Stray(job, start, n))
      && (MANIFEST in Listed(job) && MANIFEST in Written(job, start) ==>
            s.sha(Written(job, start)[MANIFEST]) == s.sha(s.dump(FinalManifest(s, job, start))))
  {
    var m, f := FinalManifest(s, job, start), Finished(s, job, start);
    FinishedManifestReads(s, job, start);
    FinishedArtifactsMatch(s, job, start);
    assert s.hmacKey != "" ==> s.mac(s.hmacKey, m.artifacts) != "";
    assert SignatureMatches(s, m);
    forall n ensures n in Unlisted(f, m) <==> Stray(job, start, n) {
      UnlistedAreStrays(s, job, start, n);
    }
    assert Unlisted(f, m) == {} <==> forall n :: n in start ==> !Stray(job, start, n);
  }

  /** The case the writer is for: everything could be deleted and no extra takes the manifest's name. */
  lemma WriteThenVerify(s: Setting, job: Job, start: Dir)
    requires JsonLaws(s) && MacNeverEmpty(s) && NamesPass(job)
    requires start.Keys !! job.undeletable && ManifestUntouched(job)
    ensures Accepts(s, Finished(s, job, start))
    ensures LOCK !in FinalManifest(s, job, start).artifacts
  {
    ArtifactsAreNames(job);
    ReportIsNotManifest(job);
    forall n | n in Listed(job) ensures n != MANIFEST && n != LOCK {
      if n in Artifacts(job) {
        var i := NamesAre(Writes(job), n);
        ExtraNamesAreNotLock(job, |job.extras|);
        assert FinalName(job, REPORT)[0] == 'r';
        assert i < |Writes(job)| - 1 ==> Writes(job)[i] in ExtraWrites(job, |job.extras|);
      } else {
        assert n == STUB && STUB[0] == 'r';
      }
    }
    FinishedVerifiesIff(s, job, start);
  }

  lemma {:induction false} ExtraNamesAreNotLock(job: Job, n: nat)
    requires NamesPass(job) && n <= |job.extras|
    ensures forall w :: w in ExtraWrites(job, n) ==> w.name != LOCK
  {
    if n > 0 {
      ExtraNamesAreNotLock(job, n - 1);
      var v := SanitizeName(job.extras[n - 1].name).value;
      assert IsAlnum(v[0]) && FinalName(job, v)[0] == v[0];
    }
  }

  // ----- why an extra must not be called manifest.json --------------------------------------------

  /** An admitted name is taken as it is when it is checked again. */
  lemma PlainNameKept(v: string)
    requires IsPlainName(v)
    ensures SanitizeName(v) == Some(v)
  {
    assert !LedgerFile.IsSpace(v[0]);
    assert IsNameChar(v[|v| - 1]);
    assert LedgerFile.Strip(v) == v;
    SanitizeAdmitsIff(v, v);
  }

  lemma LongNamesAreNotReserved(v: string)
    requires |v| > 3
    ensures !IsReserved(v)
  {
    assert |Upper(v)| == |v|;
  }

  lemma ManifestNameAllowed()
    ensures SanitizeName(MANIFEST) == Some(MANIFEST)
  {
    var v := MANIFEST;
    assert |v| == 13 && v[8] == '.' && forall i :: 0 <= i < 13 && i != 8 ==> 'a' <= v[i] <= 'z';
    LongNamesAreNotReserved(v);
    PlainNameKept(v);
  }

  lemma TwoExtraWrites(job: Job, a: Extra, b: Extra)
    requires !job.encrypt && job.extras == [a, b]
    requires SanitizeName(a.name) == Some(a.name) && SanitizeName(b.name) == Some(b.name)
    requires !LedgerFile.Blank(a.content) && !LedgerFile.Blank(b.content)
    ensures NamesPass(job) && ExtraWrites(job, 2) == [Write(a.name, a.content), Write(b.name, b.content)]
  {
    assert ExtraWrites(job, 0) == [];
    assert ExtraWrites(job, 1) == [Write(a.name, a.content)];
  }

  lemma TwoPuts(a: Write, b: Write)
    requires a.name != b.name && TempName(b.name) != a.name
    ensures PutAll(map[], [a, b]) == map[a.name := a.data, b.name := b.data]
  {
    assert [a, b][..1] == [a] && [a][..0] == [];
    assert PutAll(map[], [a]) == map[a.name := a.data];
  }

  /**
    An unencrypted extra may be named like the manifest. If its text is a manifest for the extras
    before it, the directory verifies half way through the call, before the report exists.
   */
  lemma ManifestExtraAcceptsHalfWritten(s: Setting, job: Job, a: Extra, forged: Manifest)
    requires JsonLaws(s) && MacNeverEmpty(s)
    requires !job.encrypt && job.extras == [a, Extra(MANIFEST, s.dump(forged))]
    requires SanitizeName(a.name) == Some(a.name) && a.name != MANIFEST && TempName(MANIFEST) != a.name
    requires !LedgerFile.Blank(a.content) && !LedgerFile.Blank(s.dump(forged))
    requires forged.artifacts == map[a.name := s.sha(a.content)] && forged.hmac == Signature(s, forged.artifacts)
    ensures NamesPass(job) && !ManifestUntouched(job)
    ensures Accepts(s, PutAll(map[], ExtraWrites(job, 2)))
  {
    ManifestNameAllowed();
    TwoExtraWrites(job, a, job.extras[1]);
    TwoPuts(Write(a.name, a.content), Write(MANIFEST, s.dump(forged)));
    assert s.parse(s.dump(forged)) == Some(forged);
    assert s.hmacKey != "" ==> s.mac(s.hmacKey, forged.artifacts) != "";
    assert ExtraWrites(job, 2)[1].name == MANIFEST;
  }

  // ----- for which names the interruption guarantee holds -----------------------------------------

  function WithContents(job: Job, contents: seq<Bytes>): (r: Job)
    requires |contents| == |job.extras|
    ensures r == job.(extras := r.extras) && |r.extras| == |job.extras|
    ensures forall i :: 0 <= i < |contents| ==> r.extras[i] == Extra(job.extras[i].name, contents[i])
    ensures NamesPass(job) ==> NamesPass(r)
  {
    job.(extras := seq(|contents|, i requires 0 <= i < |contents| => Extra(job.extras[i].name, contents[i])))
  }

  /** No extra will be written under the manifest's own name. */
  predicate NoManifestName(job: Job)
    requires NamesPass(job)
  {
    job.encrypt || forall i :: 0 <= i < |job.extras| ==> SanitizeName(job.extras[i].name).value != MANIFEST
  }

  /** From an empty directory, nothing is accepted before the report is written. */
  ghost predicate NeverAcceptedEarly(s: Setting, job: Job)
    requires NamesPass(job)
  {
    forall i :: 0 <= i <= |job.extras| ==> !Accepts(s, PutAll(map[], ExtraWrites(job, i)))
  }

  lemma {:induction false} NoManifestWritten(job: Job, n: nat)
    requires NamesPass(job) && NoManifestName(job) && n <= |job.extras|
    ensures forall w :: w in ExtraWrites(job, n) ==> w.name != MANIFEST
    decreases n
  {
    if n > 0 {
      NoManifestWritten(job, n - 1);
      NotTheManifest(job, n - 1);
    }
  }

  lemma {:induction false} NoManifestPut(ws: seq<Write>)
    requires forall w :: w in ws ==> w.name != MANIFEST
    ensures MANIFEST !in PutAll(map[], ws)
  {
    if ws != [] {
      NoManifestPut(ws[..|ws| - 1]);
      assert ws[|ws| - 1] in ws;
    }
  }

  lemma NotTheManifest(job: Job, i: nat)
    requires NamesPass(job) && NoManifestName(job) && i < |job.extras|
    ensures FinalName(job, SanitizeName(job.extras[i].name).value) != MANIFEST
  {
    var final := FinalName(job, SanitizeName(job.extras[i].name).value);
    assert job.encrypt ==> final[|final| - 1] == 'c';
    assert MANIFEST[|MANIFEST| - 1] == 'n';
  }

  lemma {:induction false} BlanksWriteNothing(job: Job, n: nat)
    requires NamesPass(job) && n <= |job.extras|
    requires forall i :: 0 <= i < n ==> LedgerFile.Blank(job.extras[i].content)
    ensures ExtraWrites(job, n) == []
  {
    if n > 0 {
      BlanksWriteNothing(job, n - 1);
    }
  }

  lemma EmptyManifestAccepted(s: Setting, m: Manifest)
    requires JsonLaws(s) && MacNeverEmpty(s) && m.artifacts == map[] && m.hmac == Signature(s, map[])
    ensures Accepts(s, map[MANIFEST := s.dump(m)])
  {
    assert s.parse(s.dump(m)) == Some(m);
    assert s.hmacKey != "" ==> s.mac(s.hmacKey, map[]) != "";
  }

  /** A single extra of that name with the text of an empty manifest is accepted as soon as it is there. */
  lemma EmptyManifestExtra(s: Setting, job: Job, i: nat) returns (contents: seq<Bytes>)
    requires JsonLaws(s) && MacNeverEmpty(s) && NamesPass(job) && !job.encrypt
    requires forall m :: !LedgerFile.Blank(s.dump(m))
    requires i < |job.extras| && SanitizeName(job.extras[i].name).value == MANIFEST
    ensures |contents| == |job.extras| && !ManifestUntouched(WithContents(job, contents))
    ensures !NeverAcceptedEarly(s, WithContents(job, contents))
  {
    var m := Manifest(job.controlId, job.now, job.version, map[], Signature(s, map[]));
    contents := seq(|job.extras|, k requires 0 <= k < |job.extras| => if k == i then s.dump(m) else "");
    var j := WithContents(job, contents);
    FirstWritten(j, i);
    EmptyManifestAccepted(s, m);
  }

  /** With nothing but blank extras before it, an extra called like the manifest is alone in the directory. */
  lemma FirstWritten(job: Job, i: nat)
    requires NamesPass(job) && !job.encrypt && i < |job.extras|
    requires forall k :: 0 <= k < i ==> LedgerFile.Blank(job.extras[k].content)
    requires !LedgerFile.Blank(job.extras[i].content) && SanitizeName(job.extras[i].name).value == MANIFEST
    ensures PutAll(map[], ExtraWrites(job, i + 1)) == map[MANIFEST := job.extras[i].content]
    ensures !ManifestUntouched(job)
  {
    var w := Write(MANIFEST, job.extras[i].content);
    BlanksWriteNothing(job, i);
    ExtraWritesGrow(job, i);
    assert ExtraWrites(job, i + 1) == [] + [w];
    PutAllGrows(map[], [], w);
    assert Put(map[], w) == map[MANIFEST := w.data];
  }

  /**
    The premise of the interruption guarantee is exact: for a given list of names it can be met by all
    contents, and no contents are accepted early, exactly when no unencrypted extra takes the name of
    the manifest. That a printed manifest is not blank is the one law of JSON used on top.
   */
  lemma GuaranteeForAllContentsIff(s: Setting, job: Job)
    requires JsonLaws(s) && MacNeverEmpty(s) && NamesPass(job)
    requires forall m :: !LedgerFile.Blank(s.dump(m))
    ensures NoManifestName(job) <==>
      forall contents :: |contents| == |job.extras| ==> ManifestUntouched(WithContents(job, contents))
    ensures NoManifestName(job) <==>
      forall contents :: |contents| == |job.extras| ==> NeverAcceptedEarly(s, WithContents(job, contents))
  {
    if NoManifestName(job) {
      forall contents | |contents| == |job.extras|
        ensures ManifestUntouched(WithContents(job, contents)) && NeverAcceptedEarly(s, WithContents(job, contents))
      {
        var j := WithContents(job, contents);
        assert NoManifestName(j);
        forall i | 0 <= i <= |j.extras| ensures MANIFEST !in PutAll(map[], ExtraWrites(j, i)) {
          NoManifestWritten(j, i);
          NoManifestPut(ExtraWrites(j, i));
        }
        NoManifestWritten(j, |j.extras|);
      }
    } else {
      var i :| 0 <= i < |job.extras| && SanitizeName(job.extras[i].name).value == MANIFEST;
      var contents := EmptyManifestExtra(s, job, i);
    }
  }
}
