/**
  Exporting the audit pack (`export_audit_pack` of `sentinel/reporting.py`): verify every control
  directory, add the report and the readme beside them, and archive what the manifests list.
 */
module AuditPack {
  import opened Prelude
  import opened Digests
  import opened Manifests

  const MANIFESTS := "manifests"

  /** A day directory: its own files and its child directories, by name. */
  datatype Tree = Tree(files: Dir, controls: map<string, Dir>)

  /** An archive member below the day's folder; the empty folder holds report and readme. */
  datatype Member = Member(folder: string, name: string, data: Bytes)

  type Archive = seq<Member>

  function Controls(t: Tree): set<string> {
    t.controls.Keys - {MANIFESTS}
  }

  const README := "AUDITOR_README.txt"

  function ReportName(day: string): string {
    "SOC2-Sentinel-Executive-Report-" + day + ".html"
  }

  function PackPath(destination: string, day: string): string {
    destination + "/SOC2-Sentinel-AuditPack-" + day + ".zip"
  }

  /** The day directory with the report and the readme beside the control directories. */
  function WithReport(t: Tree, reportName: string, report: Bytes, readme: Bytes): (r: Tree)
    ensures r.controls == t.controls
  {
    t.(files := t.files[reportName := report][README := readme])
  }

  function Top(day: string, report: Bytes, readme: Bytes): Archive {
    [Member("", ReportName(day), report), Member("", README, readme)]
  }

  function TopFiles(day: string, report: Bytes, readme: Bytes): Dir {
    map[ReportName(day) := report][README := readme]
  }

  /** One folder of the unpacked archive; a repeated member overwrites the earlier one. */
  function Unpack(a: Archive, folder: string): Dir {
    if a == [] then map[]
    else
      var last := a[|a| - 1];
      var rest := Unpack(a[..|a| - 1], folder);
      if last.folder == folder then rest[last.name := last.data] else rest
  }

  predicate AllAccepted(s: Setting, t: Tree) {
    forall c :: c in Controls(t) ==> Accepts(s, t.controls[c])
  }

  /** The part of a control directory that goes into the pack: the manifest and what it lists. */
  function Packed(s: Setting, d: Dir): Dir {
    match ReadManifest(s, d)
    case None => if MANIFEST in d then map[MANIFEST := d[MANIFEST]] else map[]
    case Some(m) => map n | n in d && (n == MANIFEST || n in m.artifacts) :: d[n]
  }

  /** `entries` holds the files of `d` named in `names`, all in one folder, and nothing else there. */
  ghost predicate HoldsExactly(entries: Archive, folder: string, files: Dir) {
    && (forall e :: e in entries ==> e.folder == folder)
    && Unpack(entries, folder) == files
  }

  datatype ExportError = NoDirectory | IntegrityFailed(failed: map<string, seq<Issue>>)

  /** The directories that do not verify, each with exactly the issues that hold of it. */
  ghost predicate ListsFailures(s: Setting, t: Tree, failed: map<string, seq<Issue>>) {
    && (forall c :: c in failed <==> c in Controls(t) && !Accepts(s, t.controls[c]))
    && (forall c, i :: c in failed ==> (i in failed[c] <==> Holds(s, t.controls[c], i)))
  }

  /** The directory of one day, if it exists, and the audit packs written so far, by path. */
  class EvidenceDay {
    const name: string
    var tree: Option<Tree>
    var packs: map<string, Archive>

    constructor (name: string, tree: Option<Tree>, packs: map<string, Archive>)
      ensures this.name == name && this.tree == tree && this.packs == packs
    {
      this.name := name;
      this.tree := tree;
      this.packs := packs;
    }

    /** Sorts every control directory into verified or failed; a missing day directory is an error of its own. */
    method VerifyTree(s: Setting) returns (found: bool, verified: set<string>, failed: map<string, seq<Issue>>, total: nat)
      ensures found <==> tree.Some?
      ensures !found ==> verified == {} && failed == map[] && total == 0
      ensures found ==> forall c :: c in verified <==> c in Controls(tree.value) && Accepts(s, tree.value.controls[c])
      ensures found ==> ListsFailures(s, tree.value, failed) && total == |Controls(tree.value)|
    {
      verified, failed, total := {}, map[], 0;
      if tree == None {
        return false, verified, failed, total;
      }
      found := true;
      var controls := tree.value.controls;
      var todo := Controls(tree.value);
      while todo != {}
        invariant todo <= Controls(tree.value)
        invariant forall c :: c in verified <==> c in Controls(tree.value) && c !in todo && Accepts(s, controls[c])
        invariant forall c :: c in failed <==> c in Controls(tree.value) && c !in todo && !Accepts(s, controls[c])
        invariant forall c, i :: c in failed ==> (i in failed[c] <==> Holds(s, controls[c], i))
        invariant total + |todo| == |Controls(tree.value)|
      {
        var c :| c in todo;
        todo := todo - {c};
        total := total + 1;
        var ok, issues := VerifyManifest(s, controls[c]);
        if ok {
          verified := verified + {c};
        } else {
          failed := failed[c := issues];
        }
      }
    }

    /** Archives one control directory: the manifest, then each listed file that exists. */
    method PackControl(s: Setting, c: string) returns (entries: Archive)
      requires tree.Some? && c in tree.value.controls
      ensures HoldsExactly(entries, c, Packed(s, tree.value.controls[c]))
    {
      var d := tree.value.controls[c];
      entries := [];
      if MANIFEST !in d {
        return;
      }
      entries := [Member(c, MANIFEST, d[MANIFEST])];
      assert entries[..0] == [];
      var parsed := s.parse(d[MANIFEST]);
      if parsed == None {
        return;
      }
      var todo := parsed.value.artifacts.Keys;
      while todo != {}
        invariant todo <= parsed.value.artifacts.Keys
        invariant forall e :: e in entries ==> e.folder == c
        invariant Unpack(entries, c) ==
          map n | n in d && (n == MANIFEST || (n in parsed.value.artifacts && n !in todo)) :: d[n]
      {
        var name :| name in todo;
        todo := todo - {name};
        if name in d {
          UnpackMore(entries, Member(c, name, d[name]), c);
          entries := entries + [Member(c, name, d[name])];
        }
      }
    }

    /** Archives every control directory behind the given members of the top folder. */
    method PackControls(s: Setting, top: Archive) returns (archive: Archive)
      requires tree.Some? && forall e :: e in top ==> e.folder == ""
      ensures IsPackOf(s, tree.value, archive)
      ensures "" !in Controls(tree.value) ==> Unpack(archive, "") == Unpack(top, "")
    {
      archive := top;
      UnpackElsewhere(archive);
      var todo := Controls(tree.value);
      while todo != {}
        invariant todo <= Controls(tree.value)
        invariant "" !in Controls(tree.value) ==> Unpack(archive, "") == Unpack(top, "")
        invariant forall c :: c != "" ==> Unpack(archive, c) == PackedFolder(s, tree.value, Controls(tree.value) - todo, c)
      {
        var c :| c in todo;
        var entries := PackControl(s, c);
        AppendFolder(archive, entries, c, Packed(s, tree.value.controls[c]));
        todo := todo - {c};
        archive := archive + entries;
      }
    }

    /**
      Fails, touching nothing, exactly when the day directory is missing or some control directory does
      not verify. Otherwise the pack lies in the destination under the name of the day.
     */
    method ExportAuditPack(s: Setting, destination: string, report: Bytes, readme: Bytes) returns (r: Result<string, ExportError>)
      modifies this
      ensures r == Failure(NoDirectory) <==> old(tree) == None
      ensures r.Success? <==> old(tree).Some? && AllAccepted(s, old(tree).value)
      ensures r.Failure? ==> tree == old(tree) && packs == old(packs)
      ensures r.Failure? && r.error.IntegrityFailed? ==> tree.Some? && ListsFailures(s, tree.value, r.error.failed)
      ensures r.Success? ==> tree == Some(WithReport(old(tree).value, ReportName(name), report, readme))
      ensures r.Success? ==> AllAccepted(s, tree.value)
      ensures r.Success? ==> r.value == PackPath(destination, name) && r.value in packs
      ensures r.Success? ==> packs == old(packs)[r.value := packs[r.value]]
      ensures r.Success? ==> VerifiesFolderByFolder(s, tree.value, packs[r.value])
      ensures r.Success? && "" !in Controls(tree.value) ==> Unpack(packs[r.value], "") == TopFiles(name, report, readme)
    {
      if tree == None {
        return Failure(NoDirectory);
      }
      var _, _, failed, _ := VerifyTree(s);
      if failed != map[] {
        assert failed.Keys != {};
        return Failure(IntegrityFailed(failed));
      }
      var archive := BuildPack(s, report, readme);
      packs := packs[PackPath(destination, name) := archive];
      return Success(PackPath(destination, name));
    }

    /** Writes report and readme into the verified day directory and archives what the manifests list. */
    method BuildPack(s: Setting, report: Bytes, readme: Bytes) returns (archive: Archive)
      requires tree.Some? && AllAccepted(s, tree.value)
      modifies this`tree
      ensures tree == Some(WithReport(old(tree).value, ReportName(name), report, readme))
      ensures AllAccepted(s, tree.value) && VerifiesFolderByFolder(s, tree.value, archive)
      ensures "" !in Controls(tree.value) ==> Unpack(archive, "") == TopFiles(name, report, readme)
    {
      tree := Some(WithReport(tree.value, ReportName(name), report, readme));
      TopUnpacks(name, report, readme);
      archive := PackControls(s, Top(name, report, readme));
      PackVerifies(s, tree.value, archive);
    }
  }

  /** A folder of the pack once the control directories in `done` are archived. */
  function PackedFolder(s: Setting, t: Tree, done: set<string>, folder: string): Dir {
    if folder in done && folder in t.controls then Packed(s, t.controls[folder]) else map[]
  }

  ghost predicate IsPackOf(s: Setting, t: Tree, archive: Archive) {
    forall c :: c != "" ==> Unpack(archive, c) == PackedFolder(s, t, Controls(t), c)
  }

  /**
    Unpacked, every control directory is accepted and has the contents it had in the tree, and there
    is no other folder.
   */
  ghost predicate VerifiesFolderByFolder(s: Setting, t: Tree, archive: Archive) {
    && (forall c :: c in Controls(t) && c != "" ==>
          Accepts(s, Unpack(archive, c)) && Contents(Unpack(archive, c)) == Contents(t.controls[c]))
    && (forall c :: c !in Controls(t) && c != "" ==> Unpack(archive, c) == map[])
  }

  /** A pack of accepted control directories is accepted, folder by folder, and complete. */
  lemma PackVerifies(s: Setting, t: Tree, archive: Archive)
    requires AllAccepted(s, t)
    requires IsPackOf(s, t, archive)
    ensures VerifiesFolderByFolder(s, t, archive)
  {
    forall c | c in Controls(t) && c != ""
      ensures Accepts(s, Unpack(archive, c)) && Contents(Unpack(archive, c)) == Contents(t.controls[c])
    {
      PackedIsAcceptedAndComplete(s, t.controls[c]);
    }
  }

  lemma AppendFolder(a: Archive, entries: Archive, c: string, files: Dir)
    requires HoldsExactly(entries, c, files)
    ensures forall f :: f != c ==> Unpack(a + entries, f) == Unpack(a, f)
    ensures Unpack(a, c) == map[] ==> Unpack(a + entries, c) == files
  {
    UnpackConcat(a, entries, c);
    forall f | f != c ensures Unpack(a + entries, f) == Unpack(a, f) {
      UnpackConcat(a, entries, f);
      UnpackForeign(entries, c, f);
    }
  }

  lemma TopUnpacks(day: string, report: Bytes, readme: Bytes)
    ensures Unpack(Top(day, report, readme), "") == TopFiles(day, report, readme)
    ensures forall e :: e in Top(day, report, readme) ==> e.folder == ""
  {
    var x, y := Member("", ReportName(day), report), Member("", README, readme);
    UnpackMore([], x, "");
    UnpackMore([x], y, "");
    assert [] + [x] == [x] && [x] + [y] == Top(day, report, readme);
  }

  lemma UnpackMore(a: Archive, e: Member, folder: string)
    ensures Unpack(a + [e], folder) == if e.folder == folder then Unpack(a, folder)[e.name := e.data] else Unpack(a, folder)
  {
    assert (a + [e])[..|a|] == a;
  }

  lemma {:induction false} UnpackConcat(a: Archive, b: Archive, folder: string)
    ensures Unpack(a + b, folder) == Unpack(a, folder) + Unpack(b, folder)
    decreases |b|
  {
    if b == [] {
      assert a + b == a;
    } else {
      assert (a + b)[..|a + b| - 1] == a + b[..|b| - 1];
      UnpackConcat(a, b[..|b| - 1], folder);
    }
  }

  lemma {:induction false} UnpackForeign(a: Archive, home: string, folder: string)
    requires forall e :: e in a ==> e.folder == home
    ensures folder != home ==> Unpack(a, folder) == map[]
  {
    if a != [] {
      assert a[|a| - 1] in a;
      UnpackForeign(a[..|a| - 1], home, folder);
    }
  }

  lemma UnpackElsewhere(a: Archive)
    requires forall e :: e in a ==> e.folder == ""
    ensures forall f :: f != "" ==> Unpack(a, f) == map[]
  {
    forall f | f != "" ensures Unpack(a, f) == map[] {
      UnpackForeign(a, "", f);
    }
  }

  /**
    What goes into the pack for an accepted control directory is all of it but an unlisted lock
    file, and it is accepted again after unpacking.
   */
  lemma PackedIsAcceptedAndComplete(s: Setting, d: Dir)
    requires Accepts(s, d)
    ensures Accepts(s, Packed(s, d))
    ensures Contents(Packed(s, d)) == Contents(d)
  {
    var m, p := ReadManifest(s, d).value, Packed(s, d);
    assert MANIFEST in p && p[MANIFEST] == d[MANIFEST];
    assert ArtifactsMatch(s, p, m);
    forall n | n in Contents(d) ensures n in p {
      assert n !in Unlisted(d, m);
    }
    assert Unlisted(p, m) == {};
  }

  /** A child directory called "manifests" is neither verified nor packed, whatever it holds. */
  lemma ManifestsDirectoryIsLeftOut(s: Setting, t: Tree, archive: Archive, d: Dir)
    requires IsPackOf(s, t, archive)
    ensures var t' := t.(controls := t.controls["manifests" := d]);
      (AllAccepted(s, t') <==> AllAccepted(s, t)) && IsPackOf(s, t', archive) && Unpack(archive, "manifests") == map[]
  {
    var t' := t.(controls := t.controls["manifests" := d]);
    assert Controls(t') == Controls(t);
    assert forall c :: c in Controls(t) ==> t'.controls[c] == t.controls[c];
    assert Unpack(archive, "manifests") == PackedFolder(s, t, Controls(t), "manifests");
  }
}
