/**
  The evidence writer (`sentinel/output.py`): wipe a control directory, write the artifacts one by
  one through temporary files, and write the manifest last.
 */
module EvidenceWriter {
  import opened Prelude
  import opened Digests
  import opened Manifests
  import LedgerFile

  const REPORT := "report.json"
  const STUB := "report.meta.json"

  /** What one call is given, with the parts it cannot compute itself as parameters. */
  datatype Job = Job(
    controlId: string,
    encrypt: bool,
    seal: (nat, Bytes) -> Bytes,               // the i-th encryption, with its own salt and nonce
    extras: seq<Extra>,
    reportText: seq<string> -> Bytes,          // the payload as JSON, listing these artifacts
    stubText: seq<string> -> Bytes,
    schemaAccepts: seq<string> -> bool,        // schema validation of that payload
    undeletable: set<string>,                  // names whose deletion fails
    now: string,
    version: string)

  datatype Extra = Extra(name: string, content: Bytes)

  datatype WriteError = BadArtifactName | SchemaRejected | ArtifactsLost

  // ----- artifact names ---------------------------------------------------------------------------

  predicate IsAlnum(c: char) {
    'A' <= c <= 'Z' || 'a' <= c <= 'z' || '0' <= c <= '9'
  }

  predicate IsNameChar(c: char) {
    IsAlnum(c) || c == '.' || c == '_' || c == '-'
  }

  function Upper(s: string): string {
    seq(|s|, i requires 0 <= i < |s| => if 'a' <= s[i] <= 'z' then s[i] - 32 as char else s[i])
  }

  predicate HasDotDot(s: string) {
    exists i :: 0 <= i < |s| - 1 && s[i] == '.' && s[i + 1] == '.'
  }

  predicate HasOtherChar(s: string) {
    exists i :: 0 <= i < |s| && !IsNameChar(s[i])
  }

  predicate IsReserved(s: string) {
    Upper(s) in {"CON", "PRN", "AUX", "NUL"}
  }

  /** A file name without a path: letters, digits, dots, underscores and hyphens, at most 128 of them. */
  predicate IsPlainName(v: string) {
    && 0 < |v| <= 128 && IsAlnum(v[0]) && !HasDotDot(v) && !IsReserved(v)
    && forall i :: 0 <= i < |v| ==> IsNameChar(v[i])
  }

  /** The stripped name, when it passes the checks. */
  function SanitizeName(name: string): (r: Option<string>)
    ensures r.Some? ==> r.value != "" && IsAlnum(r.value[0]) && r.value != LOCK
  {
    var v := LedgerFile.Strip(name);
    if v == "" || |v| > 128 || !IsAlnum(v[0]) || HasDotDot(v) || IsReserved(v) || HasOtherChar(v) then None else Some(v)
  }

  /** The checks admit exactly the plain file names, with the white space around them gone. */
  lemma SanitizeAdmitsIff(name: string, v: string)
    ensures SanitizeName(name) == Some(v) <==> v == LedgerFile.Strip(name) && IsPlainName(v)
  {
  }

  /** Letters, digits and the three marks, and nothing next to them; the reserved names in any case. */
  lemma NameLetters()
    ensures forall c :: c in "AZaz09._-" ==> IsNameChar(c)
    ensures forall c :: c in "@[`{/: \\" ==> !IsNameChar(c)
    ensures !IsAlnum('.') && !IsAlnum('_') && !IsAlnum('-')
    ensures forall s :: s in {"con", "Prn", "aUX", "NUL"} ==> IsReserved(s)
  {
    assert Upper("con") == "CON" && Upper("Prn") == "PRN" && Upper("aUX") == "AUX" && Upper("NUL") == "NUL";
  }

  // ----- the writes a job asks for, in order ------------------------------------------------------

  datatype Write = Write(name: string, data: Bytes)

  function FinalName(job: Job, name: string): string {
    if job.encrypt then name + ".enc" else name
  }

  function TempName(final: string): string {
    final + ".tmp"
  }

  function Encoded(job: Job, i: nat, content: Bytes): Bytes {
    if job.encrypt then job.seal(i, content) else content
  }

  /** All extra names pass, or the call fails before it touches the directory. */
  predicate NamesPass(job: Job) {
    forall i :: 0 <= i < |job.extras| ==> SanitizeName(job.extras[i].name).Some?
  }

  /** The extras with content, blank ones left out. */
  function ExtraWrites(job: Job, n: nat): (r: seq<Write>)
    requires NamesPass(job) && n <= |job.extras|
    ensures |r| <= n
  {
    if n == 0 then []
    else
      var x := job.extras[n - 1];
      if LedgerFile.Blank(x.content) then ExtraWrites(job, n - 1)
      else
        ExtraWrites(job, n - 1) +
        [Write(FinalName(job, SanitizeName(x.name).value), Encoded(job, n - 1, x.content))]
  }

  function Names(ws: seq<Write>): (r: seq<string>)
    ensures |r| == |ws|
    ensures forall i :: 0 <= i < |r| ==> r[i] == ws[i].name
  {
    seq(|ws|, i requires 0 <= i < |ws| => ws[i].name)
  }

  function Artifacts(job: Job): seq<string>
    requires NamesPass(job)
  {
    Names(ExtraWrites(job, |job.extras|)) + [FinalName(job, REPORT)]
  }

  function Writes(job: Job): seq<Write>
    requires NamesPass(job)
  {
    var report := Write(FinalName(job, REPORT), Encoded(job, |job.extras|, job.reportText(Artifacts(job))));
    ExtraWrites(job, |job.extras|) + [report]
  }

  /** One write through its temporary file, which the rename removes again. */
  function Put(d: Dir, w: Write): Dir {
    (d - {TempName(w.name)})[w.name := w.data]
  }

  function PutAll(d: Dir, ws: seq<Write>): Dir {
    if ws == [] then d else Put(PutAll(d, ws[..|ws| - 1]), ws[|ws| - 1])
  }

  /** What survives the wipe: the lock file, and whatever could not be deleted. */
  function Wiped(d: Dir, undeletable: set<string>): Dir {
    map n | n in d && (n == LOCK || n in undeletable) :: d[n]
  }

  /** The directory once all artifacts are written, and the names the manifest will list. */
  function Written(job: Job, start: Dir): Dir
    requires NamesPass(job)
  {
    var d := PutAll(Wiped(start, job.undeletable), Writes(job));
    if job.encrypt then d[STUB := job.stubText(Artifacts(job))] else d
  }

  function Listed(job: Job): seq<string>
    requires NamesPass(job)
  {
    Artifacts(job) + (if job.encrypt then [STUB] else [])
  }

  function FinalManifest(s: Setting, job: Job, start: Dir): Manifest
    requires NamesPass(job)
  {
    var artifacts := Digested(s, Written(job, start), set n | n in Listed(job));
    Manifest(job.controlId, job.now, job.version, artifacts, Signature(s, artifacts))
  }

  function Finished(s: Setting, job: Job, start: Dir): Dir
    requires NamesPass(job)
  {
    Written(job, start)[MANIFEST := s.dump(FinalManifest(s, job, start))]
  }

  /** Every artifact is still there after the later temporary files came and went. */
  predicate ArtifactsSurvive(job: Job, start: Dir)
    requires NamesPass(job)
  {
    forall n :: n in Artifacts(job) ==> n in PutAll(Wiped(start, job.undeletable), Writes(job))
  }

  // ----- the control directory --------------------------------------------------------------------

  /** `d` has no manifest of its own: it has the one `start` had, or none. */
  predicate OnlyOldManifest(d: Dir, start: Dir) {
    MANIFEST in d ==> MANIFEST in start && d[MANIFEST] == start[MANIFEST]
  }

  class ControlDirectory {
    var files: Dir
    /** Every state the directory passed through, including partly written files. */
    ghost var seen: iset<Dir>

    constructor (files: Dir)
      ensures this.files == files && seen == iset{files}
    {
      this.files := files;
      this.seen := iset{files};
    }

    /** Deletes a file, or leaves it when the file system refuses. */
    method Unlink(name: string, refused: bool)
      modifies this
      ensures files == if refused then old(files) else old(files) - {name}
      ensures seen == old(seen) + iset{files}
    {
      if !refused {
        files := files - {name};
      }
      seen := seen + iset{files};
    }

    /** Creates or truncates a file and fills it; the file may be seen with any prefix of the data. */
    method WriteBytes(name: string, data: Bytes)
      modifies this
      ensures files == old(files)[name := data]
      ensures seen == old(seen) + iset k: nat | k <= |data| :: old(files)[name := data[..k]]
      ensures files in seen
    {
      assert data[..|data|] == data;
      seen := seen + iset k: nat | k <= |data| :: files[name := data[..k]];
      files := files[name := data];
    }

    /** An atomic rename over the target. */
    method Replace(source: string, target: string)
      requires source in files && source != target
      modifies this
      ensures files == (old(files) - {source})[target := old(files)[source]]
      ensures seen == old(seen) + iset{files}
    {
      var data := files[source];
      files := (files - {source})[target := data];
      seen := seen + iset{files};
    }

    /** No state so far has a manifest other than the one in `start`. */
    ghost predicate OnlyOldSoFar(start: Dir)
      reads this
    {
      OnlyOldManifest(files, start) && forall d :: d in seen ==> OnlyOldManifest(d, start)
    }

    /** The directory was seen with the first extras written, however many of the first `n`. */
    ghost predicate MilestonesSeen(job: Job, base: Dir, n: nat)
      requires NamesPass(job) && n <= |job.extras|
      reads this
    {
      HoldsMilestones(job, base, n, seen)
    }

    method AtomicWrite(final: string, data: Bytes, ghost start: Dir)
      modifies this
      ensures files == Put(old(files), Write(final, data)) && files in seen && old(seen) <= seen
      ensures old(OnlyOldSoFar(start)) && final != MANIFEST ==> OnlyOldSoFar(start)
    {
      var tmp := TempName(final);
      assert tmp[|tmp| - 1] == 'p' && MANIFEST[|MANIFEST| - 1] == 'n';
      WriteBytes(tmp, data);
      Replace(tmp, final);
      assert files == Put(old(files), Write(final, data));
    }

    method Wipe(undeletable: set<string>, ghost start: Dir)
      requires files in seen
      modifies this
      ensures files == Wiped(old(files), undeletable) && files in seen
      ensures old(OnlyOldSoFar(start)) ==> OnlyOldSoFar(start)
    {
      var todo := files.Keys - {LOCK};
      while todo != {}
        invariant todo <= old(files).Keys - {LOCK} && files in seen
        invariant files == map n | n in old(files) && (n == LOCK || n in undeletable || n in todo) :: old(files)[n]
        invariant old(OnlyOldSoFar(start)) ==> OnlyOldSoFar(start)
      {
        var name :| name in todo;
        todo := todo - {name};
        Unlink(name, name in undeletable);
      }
    }

    method WriteExtras(job: Job, ghost start: Dir)
      requires NamesPass(job) && files in seen
      modifies this
      ensures files == PutAll(old(files), ExtraWrites(job, |job.extras|)) && files in seen
      ensures MilestonesSeen(job, old(files), |job.extras|)
      ensures old(OnlyOldSoFar(start)) && ManifestUntouched(job) ==> OnlyOldSoFar(start)
    {
      for i := 0 to |job.extras|
        invariant files == PutAll(old(files), ExtraWrites(job, i)) && files in seen
        invariant MilestonesSeen(job, old(files), i)
        invariant old(OnlyOldSoFar(start)) && ManifestUntouched(job) ==> OnlyOldSoFar(start)
      {
        WriteExtra(job, i, old(files), start);
      }
    }

    /** One turn of that loop; a blank extra is skipped. */
    method WriteExtra(job: Job, i: nat, ghost base: Dir, ghost start: Dir)
      requires NamesPass(job) && i < |job.extras| && files in seen
      requires files == PutAll(base, ExtraWrites(job, i)) && MilestonesSeen(job, base, i)
      modifies this
      ensures files == PutAll(base, ExtraWrites(job, i + 1)) && files in seen
      ensures MilestonesSeen(job, base, i + 1)
      ensures old(OnlyOldSoFar(start)) && ManifestUntouched(job) ==> OnlyOldSoFar(start)
    {
      var x := job.extras[i];
      if !LedgerFile.Blank(x.content) {
        var name, data := FinalName(job, SanitizeName(x.name).value), Encoded(job, i, x.content);
        ExtraWritesGrow(job, i);
        PutAllGrows(base, ExtraWrites(job, i), Write(name, data));
        ghost var before := seen;
        assert ManifestUntouched(job) ==> name != MANIFEST;
        AtomicWrite(name, data, start);
        NextMilestone(job, base, i, before, seen);
      } else {
        NextMilestone(job, base, i, seen, seen);
      }
    }

    /** Writes the report, once the extras are there. */
    method WriteReport(job: Job, ghost base: Dir, ghost start: Dir)
      requires NamesPass(job) && files == PutAll(base, ExtraWrites(job, |job.extras|))
      modifies this
      ensures files == PutAll(base, Writes(job)) && files in seen && old(seen) <= seen
      ensures old(OnlyOldSoFar(start)) ==> OnlyOldSoFar(start)
    {
      ReportIsNotManifest(job);
      var report := Encoded(job, |job.extras|, job.reportText(Artifacts(job)));
      PutAllGrows(base, ExtraWrites(job, |job.extras|), Write(FinalName(job, REPORT), report));
      AtomicWrite(FinalName(job, REPORT), report, start);
    }

    /** Writes the stub that names the artifacts of an encrypted directory. */
    method WriteStub(job: Job, ghost start: Dir)
      requires NamesPass(job)
      modifies this
      ensures files == old(files)[STUB := job.stubText(Artifacts(job))] && files in seen && old(seen) <= seen
      ensures old(OnlyOldSoFar(start)) ==> OnlyOldSoFar(start)
    {
      ReportIsNotManifest(job);
      WriteBytes(STUB, job.stubText(Artifacts(job)));
    }

    /** Everything between the name checks and the manifest. */
    method WriteArtifacts(job: Job) returns (error: Option<WriteError>)
      requires NamesPass(job) && files in seen
      modifies this
      ensures error == None <==> job.schemaAccepts(Artifacts(job)) && ArtifactsSurvive(job, old(files))
      ensures error == None ==> files == Written(job, old(files))
      ensures MilestonesSeen(job, Wiped(old(files), job.undeletable), |job.extras|)
      ensures old(OnlyOldSoFar(files)) && ManifestUntouched(job) ==> OnlyOldSoFar(old(files))
      ensures files in seen
    {
      ghost var start := files;
      Wipe(job.undeletable, start);
      WriteExtras(job, start);
      if !job.schemaAccepts(Artifacts(job)) {
        return Some(SchemaRejected);
      }
      WriteReport(job, Wiped(start, job.undeletable), start);
      if exists n :: n in Artifacts(job) && n !in files {
        return Some(ArtifactsLost);
      }
      if job.encrypt {
        WriteStub(job, start);
      }
      return None;
    }

    /**
      The whole call. A successful call leaves the finished directory; whatever the outcome, every
      accepted state on the way has the manifest the directory started with or is the finished one.
     */
    method WriteEvidence(s: Setting, job: Job) returns (r: Result<string, WriteError>)
      requires JsonLaws(s)
      modifies this
      ensures r.Success? <==>
        NamesPass(job) && job.schemaAccepts(Artifacts(job)) && ArtifactsSurvive(job, old(files))
      ensures r.Success? ==> files == Finished(s, job, old(files)) && r.value == FinalName(job, REPORT)
      ensures !NamesPass(job) ==> files == old(files)
      ensures files in seen
      ensures NamesPass(job) ==> MilestonesSeen(job, Wiped(old(files), job.undeletable), |job.extras|)
      ensures ManifestUntouched(job) ==> forall d :: d in seen && Accepts(s, d) ==>
        OnlyOldManifest(d, old(files)) || (r.Success? && d == files)
      ensures ManifestUntouched(job) && (ReadManifest(s, old(files)) == None || Accepts(s, old(files))) ==>
        forall d :: d in seen && Accepts(s, d) && NoCollision(s.sha, Texts(old(files)) + Texts(d)) ==>
          Contents(d) == Contents(old(files)) || (r.Success? && d == files)
    {
      seen := iset{files};
      ghost var start := files;
      var namesPass := CheckNames(job);
      if !namesPass {
        AcceptedStatesKeepOldContents(s, start, seen);
        return Failure(BadArtifactName);
      }
      var error := WriteArtifacts(job);
      AcceptedStatesKeepOldContents(s, start, seen);
      if error.Some? {
        return Failure(error.value);
      }
      var m := BuildManifest(s, files, job.controlId, Listed(job), job.now, job.version);
      ghost var before := seen;
      WriteBytes(MANIFEST, s.dump(m));
      assert s.dump(m)[..|s.dump(m)|] == s.dump(m);
      assert m == FinalManifest(s, job, start);
      forall d | d in seen && d !in before && Accepts(s, d) ensures d == files {
        PartialManifestRejected(s, Written(job, start), m, d);
      }
      return Success(FinalName(job, REPORT));
    }

    static method CheckNames(job: Job) returns (ok: bool)
      ensures ok == NamesPass(job)
    {
      for i := 0 to |job.extras|
        invariant forall k :: 0 <= k < i ==> SanitizeName(job.extras[k].name).Some?
      {
        if SanitizeName(job.extras[i].name) == None {
          return false;
        }
      }
      return true;
    }
  }

  /** An accepted state with the old manifest holds the old files, if those were accepted themselves. */
  lemma OldManifestMeansOldContents(s: Setting, start: Dir, d: Dir)
    requires ReadManifest(s, start) == None || Accepts(s, start)
    requires OnlyOldManifest(d, start) && Accepts(s, d)
    requires NoCollision(s.sha, Texts(start) + Texts(d))
    ensures Contents(d) == Contents(start)
  {
    assert MANIFEST in d && MANIFEST in start && d[MANIFEST] == start[MANIFEST];
    AcceptanceFixesContents(s, start, d);
  }

  lemma AcceptedStatesKeepOldContents(s: Setting, start: Dir, states: iset<Dir>)
    ensures (ReadManifest(s, start) == None || Accepts(s, start)) && (forall d :: d in states ==> OnlyOldManifest(d, start)) ==>
      forall d :: d in states && Accepts(s, d) && NoCollision(s.sha, Texts(start) + Texts(d)) ==> Contents(d) == Contents(start)
  {
    if (ReadManifest(s, start) == None || Accepts(s, start)) && forall d :: d in states ==> OnlyOldManifest(d, start) {
      forall d | d in states && Accepts(s, d) && NoCollision(s.sha, Texts(start) + Texts(d))
        ensures Contents(d) == Contents(start)
      {
        OldManifestMeansOldContents(s, start, d);
      }
    }
  }

  /** While the manifest is being written nothing is accepted until its last byte is there. */
  lemma PartialManifestRejected(s: Setting, base: Dir, m: Manifest, d: Dir)
    requires JsonLaws(s)
    requires exists k: nat :: k <= |s.dump(m)| && d == base[MANIFEST := s.dump(m)[..k]]
    requires Accepts(s, d)
    ensures d == base[MANIFEST := s.dump(m)]
  {
    assert s.dump(m)[..|s.dump(m)|] == s.dump(m);
    assert forall k :: 0 <= k < |s.dump(m)| ==> s.parse(s.dump(m)[..k]) == None;
  }

  /** No extra ends up in the directory under the manifest's own name. */
  predicate ManifestUntouched(job: Job) {
    NamesPass(job) ==> forall w :: w in ExtraWrites(job, |job.extras|) ==> w.name != MANIFEST
  }

  lemma ReportIsNotManifest(job: Job)
    ensures FinalName(job, REPORT) != MANIFEST && STUB != MANIFEST
  {
    assert FinalName(job, REPORT)[0] == 'r' && MANIFEST[0] == 'm';
  }

  lemma {:induction false} ExtraWritesGrowTo(job: Job, n: nat, m: nat)
    requires NamesPass(job) && n <= m <= |job.extras|
    ensures ExtraWrites(job, n) <= ExtraWrites(job, m)
    decreases m
  {
    if n < m {
      ExtraWritesGrowTo(job, n, m - 1);
    }
  }

  /** The write for a further non-blank extra comes last, and is one of the job's writes. */
  lemma ExtraWritesGrow(job: Job, i: nat)
    requires NamesPass(job) && i < |job.extras| && !LedgerFile.Blank(job.extras[i].content)
    ensures var w := Write(FinalName(job, SanitizeName(job.extras[i].name).value), Encoded(job, i, job.extras[i].content));
      && ExtraWrites(job, i + 1) == ExtraWrites(job, i) + [w]
      && w in ExtraWrites(job, |job.extras|)
  {
    ExtraWritesGrowTo(job, i + 1, |job.extras|);
    var ws := ExtraWrites(job, i + 1);
    assert ws[|ws| - 1] == ExtraWrites(job, |job.extras|)[|ws| - 1];
  }

  ghost predicate HoldsMilestones(job: Job, base: Dir, n: nat, seen: iset<Dir>)
    requires NamesPass(job) && n <= |job.extras|
  {
    forall i :: 0 <= i <= n ==> PutAll(base, ExtraWrites(job, i)) in seen
  }

  lemma NextMilestone(job: Job, base: Dir, n: nat, before: iset<Dir>, after: iset<Dir>)
    requires NamesPass(job) && n < |job.extras|
    requires HoldsMilestones(job, base, n, before) && before <= after && PutAll(base, ExtraWrites(job, n + 1)) in after
    ensures HoldsMilestones(job, base, n + 1, after)
  {
  }

  lemma PutAllGrows(d: Dir, ws: seq<Write>, w: Write)
    ensures PutAll(d, ws + [w]) == Put(PutAll(d, ws), w)
  {
    assert (ws + [w])[..|ws|] == ws;
  }
}
