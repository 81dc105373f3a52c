/**
  Control-directory manifests (`sentinel/integrity.py`): building one over the written files and
  accepting or rejecting a directory against the one it holds.
 */
module Manifests {
  import opened Prelude
  import opened Digests

  /** The regular files of a control directory. */
  type Dir = map<string, Bytes>

  const MANIFEST := "manifest.json"
  const LOCK := ".lock"

  /** The fields of the manifest document; an absent or empty `hmac_sha256` is the empty text. */
  datatype Manifest = Manifest(
    controlId: string, generatedAt: string, version: string, artifacts: map<string, string>, hmac: string)

  /** Digest, JSON printing and parsing, the HMAC over the canonical artifact list, and the key in force. */
  datatype Setting = Setting(
    sha: Hash,
    dump: Manifest -> Bytes,
    parse: Bytes -> Option<Manifest>,
    mac: (string, map<string, string>) -> string,
    hmacKey: string)

  /** JSON laws: a printed manifest parses back, and no proper prefix of it parses at all. */
  ghost predicate JsonLaws(s: Setting) {
    forall m ::
      && s.parse(s.dump(m)) == Some(m)
      && forall k :: 0 <= k < |s.dump(m)| ==> s.parse(s.dump(m)[..k]) == None
  }

  ghost predicate MacNeverEmpty(s: Setting) {
    forall key, artifacts :: s.mac(key, artifacts) != ""
  }

  // ----- building ---------------------------------------------------------------------------------

  function Digested(s: Setting, d: Dir, names: set<string>): map<string, string> {
    map n | n in names && n in d :: s.sha(d[n])
  }

  function Signature(s: Setting, artifacts: map<string, string>): string {
    if s.hmacKey == "" then "" else s.mac(s.hmacKey, artifacts)
  }

  method BuildManifest(s: Setting, d: Dir, controlId: string, written: seq<string>, now: string, version: string)
    returns (m: Manifest)
    ensures m.artifacts == Digested(s, d, set n | n in written)
    ensures m.hmac == Signature(s, m.artifacts)
    ensures m.controlId == controlId && m.generatedAt == now && m.version == version
  {
    var artifacts: map<string, string> := map[];
    for i := 0 to |written|
      invariant artifacts == Digested(s, d, set n | n in written[..i])
    {
      if written[i] in d {
        artifacts := artifacts[written[i] := s.sha(d[written[i]])];
      }
    }
    assert written[..|written|] == written;
    m := Manifest(controlId, now, version, artifacts, if s.hmacKey == "" then "" else s.mac(s.hmacKey, artifacts));
  }

  // ----- accepting --------------------------------------------------------------------------------

  datatype Issue =
    | ManifestMissing
    | InvalidJson
    | MissingArtifact(name: string)
    | HashMismatch(name: string)
    | UnlistedFiles(names: set<string>)
    | KeyWithoutHmac
    | HmacMismatch
    | HmacWithoutKey

  function ReadManifest(s: Setting, d: Dir): Option<Manifest> {
    if MANIFEST in d then s.parse(d[MANIFEST]) else None
  }

  function Unlisted(d: Dir, m: Manifest): set<string> {
    d.Keys - m.artifacts.Keys - {MANIFEST, LOCK}
  }

  predicate ArtifactsMatch(s: Setting, d: Dir, m: Manifest) {
    forall n :: n in m.artifacts ==> n in d && s.sha(d[n]) == m.artifacts[n]
  }

  /** With a key the stored code must match; without one no code may be stored. */
  predicate SignatureMatches(s: Setting, m: Manifest) {
    if s.hmacKey == "" then m.hmac == "" else m.hmac != "" && m.hmac == s.mac(s.hmacKey, m.artifacts)
  }

  predicate Accepts(s: Setting, d: Dir) {
    && ReadManifest(s, d).Some?
    && var m := ReadManifest(s, d).value;
       ArtifactsMatch(s, d, m) && Unlisted(d, m) == {} && SignatureMatches(s, m)
  }

  /** What each reported issue means. */
  predicate Holds(s: Setting, d: Dir, i: Issue) {
    if MANIFEST !in d then i == ManifestMissing
    else match s.parse(d[MANIFEST])
      case None => i == InvalidJson
      case Some(m) =>
        match i
        case ManifestMissing => false
        case InvalidJson => false
        case MissingArtifact(n) => n in m.artifacts && n !in d
        case HashMismatch(n) => n in m.artifacts && n in d && s.sha(d[n]) != m.artifacts[n]
        case UnlistedFiles(names) => names != {} && names == Unlisted(d, m)
        case KeyWithoutHmac => s.hmacKey != "" && m.hmac == ""
        case HmacMismatch => s.hmacKey != "" && m.hmac != "" && s.mac(s.hmacKey, m.artifacts) != m.hmac
        case HmacWithoutKey => s.hmacKey == "" && m.hmac != ""
  }

  /** Reports exactly the issues that hold, and accepts exactly when none does. */
  method VerifyManifest(s: Setting, d: Dir) returns (ok: bool, issues: seq<Issue>)
    ensures forall i :: i in issues <==> Holds(s, d, i)
    ensures ok <==> Accepts(s, d)
  {
    if MANIFEST !in d {
      return false, [ManifestMissing];
    }
    var parsed := s.parse(d[MANIFEST]);
    if parsed == None {
      return false, [InvalidJson];
    }
    var m := parsed.value;
    issues := CheckArtifacts(s, d, m);
    var unlisted := d.Keys - m.artifacts.Keys - {MANIFEST, LOCK};
    if unlisted != {} {
      issues := issues + [UnlistedFiles(unlisted)];
    }
    if s.hmacKey != "" {
      if m.hmac == "" {
        issues := issues + [KeyWithoutHmac];
      } else if s.mac(s.hmacKey, m.artifacts) != m.hmac {
        issues := issues + [HmacMismatch];
      }
    } else if m.hmac != "" {
      issues := issues + [HmacWithoutKey];
    }
    NoIssuesIffAccepted(s, d, issues);
    ok := |issues| == 0;
  }

  method CheckArtifacts(s: Setting, d: Dir, m: Manifest) returns (issues: seq<Issue>)
    ensures forall i :: i in issues <==>
      && (i.MissingArtifact? || i.HashMismatch?) && i.name in m.artifacts
      && if i.MissingArtifact? then i.name !in d else i.name in d && s.sha(d[i.name]) != m.artifacts[i.name]
  {
    issues := [];
    var todo := m.artifacts.Keys;
    while todo != {}
      invariant todo <= m.artifacts.Keys
      invariant forall i :: i in issues <==>
        && (i.MissingArtifact? || i.HashMismatch?) && i.name in m.artifacts && i.name !in todo
        && if i.MissingArtifact? then i.name !in d else i.name in d && s.sha(d[i.name]) != m.artifacts[i.name]
    {
      var name :| name in todo;
      todo := todo - {name};
      if name !in d {
        issues := issues + [MissingArtifact(name)];
      } else if s.sha(d[name]) != m.artifacts[name] {
        issues := issues + [HashMismatch(name)];
      }
    }
  }

  lemma NoIssuesIffAccepted(s: Setting, d: Dir, issues: seq<Issue>)
    requires forall i :: i in issues <==> Holds(s, d, i)
    ensures issues == [] <==> Accepts(s, d)
  {
    if issues == [] {
      assert !Holds(s, d, ManifestMissing) && !Holds(s, d, InvalidJson);
      var m := ReadManifest(s, d).value;
      assert !Holds(s, d, UnlistedFiles(Unlisted(d, m)));
      assert !Holds(s, d, KeyWithoutHmac) && !Holds(s, d, HmacMismatch) && !Holds(s, d, HmacWithoutKey);
      forall n | n in m.artifacts ensures n in d && s.sha(d[n]) == m.artifacts[n] {
        assert !Holds(s, d, MissingArtifact(n)) && !Holds(s, d, HashMismatch(n));
      }
    } else {
      assert Holds(s, d, issues[0]);
    }
  }

  // ----- what acceptance pins down ----------------------------------------------------------------

  /** Everything in the directory but the lock file. */
  function Contents(d: Dir): Dir {
    d - {LOCK}
  }

  function Texts(d: Dir): set<Bytes> {
    d.Values
  }

  lemma AcceptedFileAgrees(s: Setting, d: Dir, e: Dir, n: string)
    requires Accepts(s, d) && Accepts(s, e) && d[MANIFEST] == e[MANIFEST]
    requires NoCollision(s.sha, Texts(d) + Texts(e))
    requires n in Contents(d)
    ensures n in Contents(e) && e[n] == d[n]
  {
    var m := ReadManifest(s, d).value;
    if n != MANIFEST {
      assert n !in Unlisted(d, m);
      assert n in m.artifacts && n in e && s.sha(d[n]) == s.sha(e[n]);
      EqualDigestsEqualContents(s.sha, Texts(d) + Texts(e), d[n], e[n]);
    }
  }

  /** Two accepted directories with the same manifest hold the same files, lock file aside. */
  lemma AcceptanceFixesContents(s: Setting, d: Dir, e: Dir)
    requires Accepts(s, d) && Accepts(s, e) && d[MANIFEST] == e[MANIFEST]
    requires NoCollision(s.sha, Texts(d) + Texts(e))
    ensures Contents(d) == Contents(e)
  {
    forall n | n in Contents(d) ensures n in Contents(e) && e[n] == d[n] {
      AcceptedFileAgrees(s, d, e, n);
    }
    forall n | n in Contents(e) ensures n in Contents(d) {
      AcceptedFileAgrees(s, e, d, n);
    }
  }

  /**
    Tamper detection, both ways: a directory that keeps an accepted directory's manifest is accepted
    exactly when every other file is kept too. Changing, removing or adding any file other than
    `.lock`, in any combination, is rejected; touching only `.lock` is not.
   */
  lemma AcceptedIffContentsKept(s: Setting, d: Dir, e: Dir)
    requires Accepts(s, d) && LOCK !in ReadManifest(s, d).value.artifacts
    requires MANIFEST in e && e[MANIFEST] == d[MANIFEST]
    requires NoCollision(s.sha, Texts(d) + Texts(e))
    ensures Accepts(s, e) <==> Contents(e) == Contents(d)
  {
    if Accepts(s, e) {
      AcceptanceFixesContents(s, d, e);
    } else if Contents(e) == Contents(d) {
      KeptContentsAccepted(s, d, e);
    }
  }

  /** So the lock file `.lock` may come, change and go. */
  lemma LockFileIgnored(s: Setting, d: Dir, data: Bytes)
    requires Accepts(s, d) && LOCK !in ReadManifest(s, d).value.artifacts
    ensures Accepts(s, d[".lock" := data]) && Accepts(s, d - {".lock"})
  {
    assert ".lock" != MANIFEST;
    KeptContentsAccepted(s, d, d[".lock" := data]);
    KeptContentsAccepted(s, d, d - {".lock"});
  }

  lemma KeptContentsAccepted(s: Setting, d: Dir, e: Dir)
    requires Accepts(s, d) && LOCK !in ReadManifest(s, d).value.artifacts
    requires Contents(e) == Contents(d)
    ensures Accepts(s, e)
  {
    var m := ReadManifest(s, d).value;
    assert MANIFEST in Contents(d) && MANIFEST in Contents(e);
    assert e[MANIFEST] == Contents(e)[MANIFEST] == Contents(d)[MANIFEST] == d[MANIFEST];
    forall n | n in m.artifacts ensures n in e && s.sha(e[n]) == m.artifacts[n] {
      assert n in Contents(d) && Contents(e)[n] == Contents(d)[n];
    }
    forall n | n in e && n != LOCK ensures n in d {
      assert n in Contents(e);
    }
    assert Unlisted(e, m) == {} by {
      assert Unlisted(d, m) == {};
      assert Unlisted(e, m) <= Unlisted(d, m);
    }
  }

  // ----- the key ----------------------------------------------------------------------------------

  /**
    A directory written under one key is accepted under another exactly when both sign its artifacts alike,
    and never once the key is gone, or comes up where there was none.
   */
  lemma OtherKeyAcceptsIff(s: Setting, t: Setting, d: Dir)
    requires Accepts(s, d) && MacNeverEmpty(s) && t == s.(hmacKey := t.hmacKey)
    ensures Accepts(t, d) <==>
      if s.hmacKey == "" || t.hmacKey == "" then s.hmacKey == t.hmacKey
      else s.mac(t.hmacKey, ReadManifest(s, d).value.artifacts) == s.mac(s.hmacKey, ReadManifest(s, d).value.artifacts)
  {
    var m := ReadManifest(s, d).value;
    assert s.mac(t.hmacKey, m.artifacts) != "" && s.mac(s.hmacKey, m.artifacts) != "";
  }
}
