/** What every file of a finished evidence directory holds, encrypted or not. */
module WrittenContents {
  import opened Prelude
  import opened Digests
  import opened Manifests
  import opened EvidenceWriter
  import opened WriterGuarantees
  import LedgerFile

  /** Write `i` is the last one that targets the name or uses it as a temporary file. */
  predicate DecidedBy(ws: seq<Write>, n: string, i: nat) {
    i < |ws| && Touches(ws[i], n) && forall j :: i < j < |ws| ==> !Touches(ws[j], n)
  }

  predicate Untouched(ws: seq<Write>, n: string) {
    forall i :: 0 <= i < |ws| ==> !Touches(ws[i], n)
  }

  /** The names the writer fills after the artifacts. */
  predicate IsOwnFile(job: Job, n: string) {
    n == MANIFEST || (job.encrypt && n == STUB)
  }

  /**
    Name by name: the manifest and the stub of an encrypted directory; otherwise the data of the last
    write that decides the name, nothing where that write was to a temporary file, and what survived the
    wipe where no write touched it.
   */
  lemma FinishedHolds(s: Setting, job: Job, start: Dir, n: string, i: nat)
    requires NamesPass(job)
    ensures var f, ws := Finished(s, job, start), Writes(job);
      && MANIFEST in f && f[MANIFEST] == s.dump(FinalManifest(s, job, start))
      && (job.encrypt ==> STUB in f && f[STUB] == job.stubText(Artifacts(job)))
      && (!IsOwnFile(job, n) && DecidedBy(ws, n, i) ==>
            if ws[i].name == n then n in f && f[n] == ws[i].data else n !in f)
      && (!IsOwnFile(job, n) && Untouched(ws, n) ==>
            (n in f <==> n in start && (n == LOCK || n in job.undeletable)) && (n in f ==> f[n] == start[n]))
  {
    var d, ws := Wiped(start, job.undeletable), Writes(job);
    ReportIsNotManifest(job);
    if DecidedBy(ws, n, i) {
      LastWriteDecides(d, ws, n, i);
    }
    if Untouched(ws, n) {
      UntouchedNameStays(d, ws, n);
    }
  }

  /** The report is written last, and nothing takes its place: an unencrypted one is there word for word. */
  lemma PlainReportIsThere(s: Setting, job: Job, start: Dir)
    requires NamesPass(job) && !job.encrypt
    ensures var f := Finished(s, job, start);
      "report.json" in f && f["report.json"] == job.reportText(Artifacts(job))
  {
    var ws := Writes(job);
    assert REPORT[0] == 'r' && MANIFEST[0] == 'm';
    assert DecidedBy(ws, REPORT, |ws| - 1);
    FinishedHolds(s, job, start, REPORT, |ws| - 1);
  }

  // ----- unencrypted extras -----------------------------------------------------------------------

  function PlainName(job: Job, i: nat): string
    requires NamesPass(job) && i < |job.extras|
  {
    SanitizeName(job.extras[i].name).value
  }

  predicate IsBlank(job: Job, i: nat)
    requires i < |job.extras|
  {
    LedgerFile.Blank(job.extras[i].content)
  }

  /** Extra `j` is written, to this name or to the name it is the temporary file of. */
  predicate Disturbs(job: Job, j: nat, n: string)
    requires NamesPass(job) && j < |job.extras|
  {
    !IsBlank(job, j) && (PlainName(job, j) == n || TempName(PlainName(job, j)) == n)
  }

  /** Nothing written after extra `i` touches its name: no later extra, no report, no manifest. */
  predicate Undisturbed(job: Job, i: nat)
    requires NamesPass(job) && i < |job.extras|
  {
    && (forall j :: i < j < |job.extras| ==> !Disturbs(job, j, PlainName(job, i)))
    && PlainName(job, i) != REPORT && PlainName(job, i) != TempName(REPORT) && PlainName(job, i) != MANIFEST
  }

  function WriteOf(job: Job, j: nat): Write
    requires NamesPass(job) && j < |job.extras|
  {
    Write(PlainName(job, j), job.extras[j].content)
  }

  /** The write is that of a non-blank extra behind `i` and before `n`. */
  predicate FromLater(job: Job, i: nat, n: nat, w: Write)
    requires NamesPass(job) && n <= |job.extras|
  {
    exists j :: i < j < n && !IsBlank(job, j) && w == WriteOf(job, j)
  }

  lemma FromLaterStays(job: Job, i: nat, n: nat, w: Write)
    requires NamesPass(job) && n < |job.extras| && FromLater(job, i, n, w)
    ensures FromLater(job, i, n + 1, w)
  {
    var j :| i < j < n && !IsBlank(job, j) && w == WriteOf(job, j);
    assert i < j < n + 1;
  }

  lemma PlainWritesGrow(job: Job, n: nat)
    requires NamesPass(job) && !job.encrypt && n < |job.extras|
    ensures ExtraWrites(job, n + 1) == if IsBlank(job, n) then ExtraWrites(job, n) else ExtraWrites(job, n) + [WriteOf(job, n)]
  {
    if !IsBlank(job, n) {
      ExtraWritesGrow(job, n);
    }
  }

  /** The write at `p` is that of extra `i`, and those behind it are the writes of later extras before `n`. */
  predicate StandsAt(job: Job, i: nat, n: nat, ws: seq<Write>, p: nat)
    requires NamesPass(job) && i < |job.extras| && n <= |job.extras|
  {
    p < |ws| && ws[p] == WriteOf(job, i) && forall q :: p < q < |ws| ==> FromLater(job, i, n, ws[q])
  }

  lemma BlankKeepsPlace(job: Job, i: nat, n: nat, ws: seq<Write>, p: nat)
    requires NamesPass(job) && i < |job.extras| && n < |job.extras| && StandsAt(job, i, n, ws, p)
    ensures StandsAt(job, i, n + 1, ws, p)
  {
    forall q | p < q < |ws| ensures FromLater(job, i, n + 1, ws[q]) {
      FromLaterStays(job, i, n, ws[q]);
    }
  }

  lemma WriteKeepsPlace(job: Job, i: nat, n: nat, ws: seq<Write>, p: nat)
    requires NamesPass(job) && i < n < |job.extras| && !IsBlank(job, n) && StandsAt(job, i, n, ws, p)
    ensures StandsAt(job, i, n + 1, ws + [WriteOf(job, n)], p)
  {
    BlankKeepsPlace(job, i, n, ws, p);
    assert FromLater(job, i, n + 1, WriteOf(job, n));
  }

  predicate Placed(job: Job, i: nat, n: nat)
    requires NamesPass(job) && i < n <= |job.extras|
  {
    StandsAt(job, i, n, ExtraWrites(job, n), |ExtraWrites(job, i)|)
  }

  lemma FirstPlaced(job: Job, i: nat)
    requires NamesPass(job) && !job.encrypt && i < |job.extras| && !IsBlank(job, i)
    ensures Placed(job, i, i + 1)
  {
    PlainWritesGrow(job, i);
  }

  lemma NextPlaced(job: Job, i: nat, n: nat)
    requires NamesPass(job) && !job.encrypt && i < n < |job.extras| && Placed(job, i, n)
    ensures Placed(job, i, n + 1)
  {
    PlainWritesGrow(job, n);
    if IsBlank(job, n) {
      BlankKeepsPlace(job, i, n, ExtraWrites(job, n), |ExtraWrites(job, i)|);
    } else {
      WriteKeepsPlace(job, i, n, ExtraWrites(job, n), |ExtraWrites(job, i)|);
    }
  }

  /** Where extra `i` stands among the writes. */
  lemma {:induction false} LaterWrites(job: Job, i: nat, n: nat)
    requires NamesPass(job) && !job.encrypt && i < n <= |job.extras| && !IsBlank(job, i)
    ensures Placed(job, i, n)
    decreases n
  {
    if n == i + 1 {
      FirstPlaced(job, i);
    } else {
      LaterWrites(job, i, n - 1);
      NextPlaced(job, i, n - 1);
    }
  }

  /** An undisturbed extra is there word for word; `manifest.json` apart, one that is disturbed is gone or overwritten. */
  lemma PlainExtraIsThere(s: Setting, job: Job, start: Dir, i: nat)
    requires NamesPass(job) && !job.encrypt && i < |job.extras| && !IsBlank(job, i) && Undisturbed(job, i)
    ensures var f := Finished(s, job, start);
      PlainName(job, i) in f && f[PlainName(job, i)] == job.extras[i].content
  {
    var n, p, ws := PlainName(job, i), |ExtraWrites(job, i)|, Writes(job);
    LaterWrites(job, i, |job.extras|);
    forall q | p < q < |ws| ensures !Touches(ws[q], n) {
      if q < |ws| - 1 {
        assert FromLater(job, i, |job.extras|, ws[q]);
        var j :| i < j < |job.extras| && !IsBlank(job, j) && ws[q] == WriteOf(job, j);
        assert !Disturbs(job, j, n);
      }
    }
    assert DecidedBy(ws, n, p);
    FinishedHolds(s, job, start, n, p);
  }

  /** Extra `j` is the last one to disturb the name. */
  predicate LastDisturbs(job: Job, j: nat, n: string)
    requires NamesPass(job) && j < |job.extras|
  {
    Disturbs(job, j, n) && forall k :: j < k < |job.extras| ==> !Disturbs(job, k, n)
  }

  /**
    Exactly what an unencrypted directory holds under the name of an extra, by the last extra that disturbs
    it: the manifest or the report where it has their names, nothing where it was last a temporary file,
    and else the content of that last extra.
   */
  lemma PlainNameHolds(s: Setting, job: Job, start: Dir, n: string, j: nat)
    requires NamesPass(job) && !job.encrypt && j < |job.extras| && LastDisturbs(job, j, n)
    ensures var f := Finished(s, job, start);
      if n == MANIFEST then n in f && f[n] == s.dump(FinalManifest(s, job, start))
      else if n == REPORT then n in f && f[n] == job.reportText(Artifacts(job))
      else if n == TempName(REPORT) || n != PlainName(job, j) then n !in f
      else n in f && f[n] == job.extras[j].content
  {
    var p, ws := |ExtraWrites(job, j)|, Writes(job);
    assert TempName(REPORT)[|REPORT| + 3] == 'p' && MANIFEST[|MANIFEST| - 1] == 'n' && REPORT[0] == 'r' && MANIFEST[0] == 'm';
    if n == REPORT || n == TempName(REPORT) {
      assert DecidedBy(ws, n, |ws| - 1);
      FinishedHolds(s, job, start, n, |ws| - 1);
    } else {
      LaterWrites(job, j, |job.extras|);
      forall q | p < q < |ws| ensures !Touches(ws[q], n) {
        if q < |ws| - 1 {
          assert FromLater(job, j, |job.extras|, ws[q]);
          var k :| j < k < |job.extras| && !IsBlank(job, k) && ws[q] == WriteOf(job, k);
          assert !Disturbs(job, k, n);
        }
      }
      assert DecidedBy(ws, n, p);
      FinishedHolds(s, job, start, n, p);
    }
  }

  // ----- what the manifest lists ------------------------------------------------------------------

  /** After a successful call the manifest lists exactly the artifacts (and the stub), each with the digest of its file. */
  lemma ManifestListsArtifacts(s: Setting, job: Job, start: Dir, n: string)
    requires NamesPass(job) && ArtifactsSurvive(job, start)
    ensures var m := FinalManifest(s, job, start);
      && (n in m.artifacts <==> n in Artifacts(job) || (job.encrypt && n == STUB))
      && (n in m.artifacts && n != MANIFEST ==> n in Finished(s, job, start) && m.artifacts[n] == s.sha(Finished(s, job, start)[n]))
      && m.controlId == job.controlId && m.generatedAt == job.now && m.version == job.version
  {
    assert n in Listed(job) <==> n in Artifacts(job) || (job.encrypt && n == STUB);
  }

  /** Encrypted artifacts carry ".enc" after their names, and every file is written beside itself as ".tmp" first. */
  lemma ArtifactNames(job: Job, n: string)
    requires NamesPass(job)
    ensures |Artifacts(job)| > 0 && Artifacts(job)[|Artifacts(job)| - 1] == if job.encrypt then "report.json.enc" else "report.json"
    ensures FinalName(job, n) == if job.encrypt then n + ".enc" else n
    ensures TempName("manifest.json") == "manifest.json.tmp"
  {
  }
}
