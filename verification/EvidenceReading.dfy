/**
  Reading encrypted evidence back (`verify_and_decrypt_artifact` of `sentinel/integrity.py`): the
  control directory must verify before an artifact of it is decrypted.
 */
module EvidenceReading {
  import opened Prelude
  import opened Digests
  import opened Manifests
  import opened EvidenceWriter
  import opened WriterGuarantees
  import LedgerFile

  /** Decryption; None where it raises. */
  type Opener = Bytes -> Option<Bytes>

  datatype ReadError = NotFound | NotVerified(issues: seq<Issue>) | NotCovered | NotDecrypted

  /** Whether an artifact may be read at all. */
  predicate Readable(s: Setting, d: Dir, name: string) {
    name in d && Accepts(s, d) && name in ReadManifest(s, d).value.artifacts
  }

  method VerifyAndDecryptArtifact(s: Setting, d: Dir, name: string, open: Opener) returns (r: Result<Bytes, ReadError>)
    ensures r.Success? <==> Readable(s, d, name) && open(d[name]).Some?
    ensures r.Success? ==> open(d[name]) == Some(r.value)
    ensures r == Failure(NotFound) <==> name !in d
    ensures r.Failure? && r.error.NotVerified? <==> name in d && !Accepts(s, d)
    ensures r.Failure? && r.error.NotVerified? ==> forall i :: i in r.error.issues <==> Holds(s, d, i)
    ensures r == Failure(NotDecrypted) <==> Readable(s, d, name) && open(d[name]) == None
  {
    if name !in d {
      return Failure(NotFound);
    }
    var ok, issues := VerifyManifest(s, d);
    if !ok {
      return Failure(NotVerified(issues));
    }
    var m := s.parse(d[MANIFEST]).value;
    if name !in m.artifacts {
      return Failure(NotCovered);
    }
    match open(d[name])
    case None => return Failure(NotDecrypted);
    case Some(content) => return Success(content);
  }

  /** Decryption undoes every encryption of the job, whatever salt and nonce it drew. */
  ghost predicate Opens(open: Opener, job: Job) {
    forall i, x :: open(job.seal(i, x)) == Some(x)
  }

  predicate IsWritten(job: Job, i: nat)
    requires i < |job.extras|
  {
    !LedgerFile.Blank(job.extras[i].content)
  }

  /** The extra is written, no later one replaces it, and the report does not take its name. */
  predicate Survives(job: Job, i: nat)
    requires NamesPass(job) && i < |job.extras|
  {
    && IsWritten(job, i)
    && SanitizeName(job.extras[i].name).value != REPORT
    && forall j :: i < j < |job.extras| && IsWritten(job, j) ==>
         SanitizeName(job.extras[j].name) != SanitizeName(job.extras[i].name)
  }

  function ExtraName(job: Job, i: nat): string
    requires NamesPass(job) && i < |job.extras|
  {
    FinalName(job, SanitizeName(job.extras[i].name).value)
  }

  /** Encrypted names neither merge nor meet a temporary name or one of the writer's own plain files. */
  lemma EncryptedNamesApart(job: Job, a: string, b: string)
    requires job.encrypt
    ensures FinalName(job, a) == FinalName(job, b) ==> a == b
    ensures FinalName(job, a) != TempName(b) && FinalName(job, a) != STUB && FinalName(job, a) != MANIFEST
  {
    var x, t := FinalName(job, a), TempName(b);
    assert x[|x| - 1] == 'c' && t[|t| - 1] == 'p';
    assert x[..|a|] == a && FinalName(job, b)[..|b|] == b;
    assert STUB[|STUB| - 1] == 'n' && MANIFEST[|MANIFEST| - 1] == 'n';
  }

  /** What a name holds once the first `n` extras are written. */
  function Found(d: Dir, job: Job, n: nat, name: string): Option<Bytes>
    requires NamesPass(job) && n <= |job.extras|
  {
    var f := PutAll(d, ExtraWrites(job, n));
    if name in f then Some(f[name]) else None
  }

  function WriteOf(job: Job, i: nat): Write
    requires NamesPass(job) && i < |job.extras|
  {
    Write(ExtraName(job, i), Encoded(job, i, job.extras[i].content))
  }

  /** Extra `j` writes neither to this name nor to a temporary file of it. */
  predicate Apart(job: Job, j: nat, name: string)
    requires NamesPass(job) && j < |job.extras|
  {
    IsWritten(job, j) ==> ExtraName(job, j) != name && TempName(ExtraName(job, j)) != name
  }

  lemma ExtraIsPut(d: Dir, job: Job, i: nat)
    requires NamesPass(job) && i < |job.extras| && IsWritten(job, i)
    ensures PutAll(d, ExtraWrites(job, i + 1)) == Put(PutAll(d, ExtraWrites(job, i)), WriteOf(job, i))
    ensures Found(d, job, i + 1, ExtraName(job, i)) == Some(WriteOf(job, i).data)
  {
    ExtraWritesGrow(job, i);
    PutAllGrows(d, ExtraWrites(job, i), WriteOf(job, i));
  }

  /** Writing an extra apart from a name leaves what is there. */
  lemma NextExtraSpares(d: Dir, job: Job, name: string, j: nat)
    requires NamesPass(job) && j < |job.extras| && Apart(job, j, name)
    ensures Found(d, job, j + 1, name) == Found(d, job, j, name)
  {
    if IsWritten(job, j) {
      ExtraIsPut(d, job, j);
    } else {
      assert ExtraWrites(job, j + 1) == ExtraWrites(job, j);
    }
  }

  lemma {:induction false} Constant<T>(s: seq<T>, from: nat, n: nat)
    requires from <= n < |s| && forall k :: from <= k < n ==> s[k] == s[k + 1]
    ensures s[n] == s[from]
    decreases n
  {
    if from < n {
      Constant(s, from, n - 1);
    }
  }

  lemma ExtrasSpare(d: Dir, job: Job, name: string, from: nat)
    requires NamesPass(job) && from <= |job.extras|
    requires forall j :: from <= j < |job.extras| ==> Apart(job, j, name)
    ensures Found(d, job, |job.extras|, name) == Found(d, job, from, name)
  {
    var found := seq(|job.extras| + 1, k requires 0 <= k <= |job.extras| => Found(d, job, k, name));
    forall k | from <= k < |job.extras| ensures found[k] == found[k + 1] {
      NextExtraSpares(d, job, name, k);
    }
    Constant(found, from, |job.extras|);
  }

  lemma LaterExtrasApart(job: Job, i: nat, j: nat)
    requires NamesPass(job) && job.encrypt && i < j < |job.extras| && Survives(job, i)
    ensures Apart(job, j, ExtraName(job, i))
  {
    var a, b := SanitizeName(job.extras[i].name).value, SanitizeName(job.extras[j].name).value;
    EncryptedNamesApart(job, a, b);
    EncryptedNamesApart(job, a, ExtraName(job, j));
  }

  lemma AllLaterExtrasApart(job: Job, i: nat)
    requires NamesPass(job) && job.encrypt && i < |job.extras| && Survives(job, i)
    ensures forall j :: i + 1 <= j < |job.extras| ==> Apart(job, j, ExtraName(job, i))
  {
    forall j | i + 1 <= j < |job.extras| ensures Apart(job, j, ExtraName(job, i)) {
      LaterExtrasApart(job, i, j);
    }
  }

  lemma ExtraStays(d: Dir, job: Job, i: nat)
    requires NamesPass(job) && job.encrypt && i < |job.extras| && Survives(job, i)
    ensures Found(d, job, |job.extras|, ExtraName(job, i)) == Some(WriteOf(job, i).data)
  {
    assert Found(d, job, i + 1, ExtraName(job, i)) == Some(WriteOf(job, i).data) by { ExtraIsPut(d, job, i); }
    AllLaterExtrasApart(job, i);
    ExtrasSpare(d, job, ExtraName(job, i), i + 1);
  }

  lemma EncryptedManifestUntouched(job: Job)
    requires job.encrypt
    ensures ManifestUntouched(job)
  {
    if NamesPass(job) {
      EncryptedNames(job, |job.extras|);
      assert MANIFEST[|MANIFEST| - 1] == 'n';
    }
  }

  /** A surviving artifact of the last write phase is readable in the finished directory, with the data written. */
  lemma ArtifactIsReadable(s: Setting, job: Job, start: Dir, plain: string, data: Bytes)
    requires JsonLaws(s) && MacNeverEmpty(s) && NamesPass(job) && job.encrypt && start.Keys !! job.undeletable
    requires FinalName(job, plain) in Artifacts(job)
    requires var f := PutAll(Wiped(start, job.undeletable), Writes(job));
      FinalName(job, plain) in f && f[FinalName(job, plain)] == data
    ensures Readable(s, Finished(s, job, start), FinalName(job, plain))
    ensures Finished(s, job, start)[FinalName(job, plain)] == data
  {
    EncryptedManifestUntouched(job);
    WriteThenVerify(s, job, start);
    FinishedManifestReads(s, job, start);
    EncryptedNamesApart(job, plain, plain);
    assert FinalName(job, plain) in Listed(job);
  }

  /** What the report was is what an auditor decrypts from the finished directory. */
  lemma ReportReadsBack(s: Setting, job: Job, start: Dir, open: Opener)
    requires JsonLaws(s) && MacNeverEmpty(s) && NamesPass(job) && job.encrypt && start.Keys !! job.undeletable
    requires Opens(open, job)
    ensures Readable(s, Finished(s, job, start), FinalName(job, REPORT))
    ensures open(Finished(s, job, start)[FinalName(job, REPORT)]) == Some(job.reportText(Artifacts(job)))
  {
    var data := job.seal(|job.extras|, job.reportText(Artifacts(job)));
    PutAllGrows(Wiped(start, job.undeletable), ExtraWrites(job, |job.extras|), Write(FinalName(job, REPORT), data));
    ArtifactIsReadable(s, job, start, REPORT, data);
  }

  /** So is every extra that no later extra of the same name, nor the report, has replaced. */
  lemma ExtraReadsBack(s: Setting, job: Job, start: Dir, open: Opener, i: nat)
    requires JsonLaws(s) && MacNeverEmpty(s) && NamesPass(job) && job.encrypt && start.Keys !! job.undeletable
    requires Opens(open, job) && i < |job.extras| && Survives(job, i)
    ensures Readable(s, Finished(s, job, start), ExtraName(job, i))
    ensures open(Finished(s, job, start)[ExtraName(job, i)]) == Some(job.extras[i].content)
  {
    ExtraOutlivesReport(Wiped(start, job.undeletable), job, i);
    ExtraIsArtifact(job, i);
    ArtifactIsReadable(s, job, start, SanitizeName(job.extras[i].name).value, job.seal(i, job.extras[i].content));
  }

  lemma ExtraOutlivesReport(d: Dir, job: Job, i: nat)
    requires NamesPass(job) && job.encrypt && i < |job.extras| && Survives(job, i)
    ensures var f := PutAll(d, Writes(job));
      ExtraName(job, i) in f && f[ExtraName(job, i)] == job.seal(i, job.extras[i].content)
  {
    var name := SanitizeName(job.extras[i].name).value;
    var report := Write(FinalName(job, REPORT), job.seal(|job.extras|, job.reportText(Artifacts(job))));
    ExtraStays(d, job, i);
    EncryptedNamesApart(job, name, REPORT);
    EncryptedNamesApart(job, name, report.name);
    PutAllGrows(d, ExtraWrites(job, |job.extras|), report);
  }

  lemma ExtraIsArtifact(job: Job, i: nat)
    requires NamesPass(job) && i < |job.extras| && IsWritten(job, i)
    ensures ExtraName(job, i) in Artifacts(job)
  {
    ExtraWritesGrow(job, i);
    var ws := ExtraWrites(job, |job.extras|);
    var k :| 0 <= k < |ws| && ws[k].name == ExtraName(job, i);
    assert Names(ws)[k] == ExtraName(job, i);
  }
}
