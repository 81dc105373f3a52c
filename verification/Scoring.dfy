/**
  The seven control scores of `sentinel/scoring.py`: what each takes from the collected metrics and
  how penalties, the cap on partial evidence and the final clamp make a score of 0 to 100.
  Numbers are exact; finding texts are not modelled.
 */
module Scoring {
  import opened Prelude

  /** A JSON metric value; a text carries what `int()` and `float()` make of it. */
  datatype Raw =
    | Null
    | Number(r: real)
    | Text(asInt: Option<int>, asFloat: Option<real>, empty: bool)
    | Container(empty: bool)

  type Metrics = map<string, Raw>

  datatype Evidence = Evidence(quality: string, metrics: Metrics, composite: Metrics)

  datatype Status = PASS | PARTIAL | FAIL | NOT_ASSESSED

  datatype ControlScore = ControlScore(controlId: string, status: Status, score: real)

  // ----- reading metrics --------------------------------------------------------------------------

  /** `int()` of a number cuts off toward zero. */
  function Truncate(r: real): int {
    if r >= 0.0 then r.Floor else -((-r).Floor)
  }

  function SafeInt(v: Raw, default: int): int {
    match v
    case Number(r) => Truncate(r)
    case Text(Some(i), _, _) => i
    case _ => default
  }

  function SafeFloat(v: Raw, default: real): real {
    match v
    case Number(r) => r
    case Text(_, Some(x), _) => x
    case _ => default
  }

  predicate Truthy(v: Raw) {
    match v
    case Null => false
    case Number(r) => r != 0.0
    case Text(_, _, empty) => !empty
    case Container(empty) => !empty
  }

  /** `m.get(k, default)`. */
  function Get(m: Metrics, k: string, default: Raw): Raw {
    if k in m then m[k] else default
  }

  /** `m.get(k, m.get(k2, default))`. */
  function Get2(m: Metrics, k: string, k2: string, default: Raw): Raw {
    Get(m, k, Get(m, k2, default))
  }

  /** A count under either of two names. */
  method TakeInt(m: Metrics, k: string, k2: string) returns (i: int)
    ensures i == SafeInt(Get2(m, k, k2, ZERO), 0)
  {
    if k in m {
      return SafeInt(m[k], 0);
    }
    if k2 in m {
      return SafeInt(m[k2], 0);
    }
    return 0;
  }

  method TakeFloat(m: Metrics, k: string, k2: string) returns (x: real)
    ensures x == SafeFloat(Get2(m, k, k2, ZERO), 0.0)
  {
    if k in m {
      return SafeFloat(m[k], 0.0);
    }
    if k2 in m {
      return SafeFloat(m[k2], 0.0);
    }
    return 0.0;
  }

  function Flag(b: bool): Raw {
    Number(if b then 1.0 else 0.0)
  }

  const ZERO := Number(0.0)

  // ----- arithmetic of penalties ------------------------------------------------------------------

  function Min(a: real, b: real): real {
    if a < b then a else b
  }

  function Max(a: real, b: real): real {
    if a > b then a else b
  }

  function When(c: bool, penalty: real): real {
    if c then penalty else 0.0
  }

  /** Partial evidence caps a score at 70; every score ends between 0 and 100. */
  function Finish(quality: string, score: real): real {
    Max(0.0, Min(100.0, if quality == "partial" then Min(70.0, score) else score))
  }

  function StatusOf(score: real): Status {
    if score >= 85.0 then PASS else if score >= 50.0 then PARTIAL else FAIL
  }

  /** Missing evidence and a failed collection score nothing; otherwise the raw score is finished. */
  function Graded(id: string, data: Option<Evidence>, raw: Evidence -> real): (c: ControlScore)
    ensures c.controlId == id && 0.0 <= c.score <= 100.0
  {
    match data
    case None => ControlScore(id, NOT_ASSESSED, 0.0)
    case Some(e) =>
      if e.quality == "failed" then ControlScore(id, FAIL, 0.0)
      else
        var score := Finish(e.quality, raw(e));
        ControlScore(id, StatusOf(score), score)
  }

  // ----- identity and access ----------------------------------------------------------------------

  datatype Iam = Iam(orphaned: int, mfa: real, reviewDays: int)

  function ReadIam(m: Metrics): Iam {
    var mfaRaw := Get2(m, "mfa_enforced_percentage", "mfa_enforcement_percent", Null);
    var days := Get(m, "days_since_last_review", Null);
    Iam(SafeInt(Get(m, "orphaned_accounts", ZERO), 0),
        SafeFloat(mfaRaw, 0.0),
        if days == Null then 0 else SafeInt(days, 999))
  }

  function IamRaw(i: Iam): real {
    100.0 - When(i.orphaned > 0, Min(30.0, i.orphaned as real * 5.0))
          - When(i.mfa < 100.0, Min(40.0, (100.0 - i.mfa) * 0.8))
          - When(i.reviewDays > 90, 20.0)
  }

  function IamScore(data: Option<Evidence>): (c: ControlScore)
    ensures c.controlId == "CC6.1" && 0.0 <= c.score <= 100.0
  {
    Graded("CC6.1", data, (e: Evidence) => IamRaw(ReadIam(e.metrics)))
  }

  /** Takes the metrics one by one, each under its first name or, failing that, its second. */
  method TakeIam(m: Metrics) returns (i: Iam)
    ensures i == ReadIam(m)
  {
    var orphaned := SafeInt(Get(m, "orphaned_accounts", ZERO), 0);
    var mfaRaw := Null;
    if "mfa_enforced_percentage" in m {
      mfaRaw := m["mfa_enforced_percentage"];
    } else if "mfa_enforcement_percent" in m {
      mfaRaw := m["mfa_enforcement_percent"];
    }
    var mfa := 0.0;
    if mfaRaw != Null {
      mfa := SafeFloat(mfaRaw, 0.0);
    }
    var reviewDays := 0;
    if "days_since_last_review" in m && m["days_since_last_review"] != Null {
      reviewDays := SafeInt(m["days_since_last_review"], 999);
    }
    i := Iam(orphaned, mfa, reviewDays);
  }

  method EvalIam(data: Option<Evidence>) returns (c: ControlScore)
    ensures c == IamScore(data)
  {
    if data == None {
      return ControlScore("CC6.1", NOT_ASSESSED, 0.0);
    }
    var quality := data.value.quality;
    if quality == "failed" {
      return ControlScore("CC6.1", FAIL, 0.0);
    }
    var i := TakeIam(data.value.metrics);
    var score := 100.0;
    if i.orphaned > 0 {
      score := score - Min(30.0, i.orphaned as real * 5.0);
    }
    if i.mfa < 100.0 {
      score := score - Min(40.0, (100.0 - i.mfa) * 0.8);
    }
    if i.reviewDays > 90 {
      score := score - 20.0;
    }
    c := Conclude("CC6.1", quality, score);
  }

  /** The common end of every evaluation: cap, clamp and status. */
  method Conclude(id: string, quality: string, raw: real) returns (c: ControlScore)
    ensures c == ControlScore(id, StatusOf(Finish(quality, raw)), Finish(quality, raw))
  {
    var score := raw;
    if quality == "partial" {
      score := Min(70.0, score);
    }
    score := Max(0.0, Min(100.0, score));
    var status := if score >= 85.0 then PASS else if score >= 50.0 then PARTIAL else FAIL;
    c := ControlScore(id, status, score);
  }

  // ----- logging ----------------------------------------------------------------------------------

  datatype Logging = Logging(streams: int, completeness: real, retention: int, gapHours: real)

  function ReadLogging(m: Metrics): Logging {
    Logging(SafeInt(Get2(m, "log_streams_active", "active_trails", ZERO), 0),
            SafeFloat(Get2(m, "critical_events_logged_percentage", "log_coverage_percent", ZERO), 0.0),
            SafeInt(Get2(m, "retention_days", "cui_retention_days", ZERO), 0),
            SafeFloat(Get2(m, "longest_gap_hours", "max_gap_hours", ZERO), 0.0))
  }

  function LoggingRaw(l: Logging): real {
    100.0 - When(l.streams == 0, 50.0)
          - When(l.completeness < 95.0, Min(40.0, (95.0 - l.completeness) * 1.5))
          - When(l.retention < 365, 20.0)
          - When(l.gapHours > 24.0, 20.0)
  }

  function LoggingScore(data: Option<Evidence>): (c: ControlScore)
    ensures c.controlId == "CC7.1" && 0.0 <= c.score <= 100.0
  {
    Graded("CC7.1", data, (e: Evidence) => LoggingRaw(ReadLogging(e.metrics)))
  }

  method TakeLogging(m: Metrics) returns (l: Logging)
    ensures l == ReadLogging(m)
  {
    var streams := TakeInt(m, "log_streams_active", "active_trails");
    var completeness := TakeFloat(m, "critical_events_logged_percentage", "log_coverage_percent");
    var retention := TakeInt(m, "retention_days", "cui_retention_days");
    var gapHours := TakeFloat(m, "longest_gap_hours", "max_gap_hours");
    l := Logging(streams, completeness, retention, gapHours);
  }

  method EvalLogging(data: Option<Evidence>) returns (c: ControlScore)
    ensures c == LoggingScore(data)
  {
    if data == None {
      return ControlScore("CC7.1", NOT_ASSESSED, 0.0);
    }
    var quality := data.value.quality;
    if quality == "failed" {
      return ControlScore("CC7.1", FAIL, 0.0);
    }
    var l := TakeLogging(data.value.metrics);
    var score := 100.0;
    if l.streams == 0 {
      score := score - 50.0;
    }
    if l.completeness < 95.0 {
      score := score - Min(40.0, (95.0 - l.completeness) * 1.5);
    }
    if l.retention < 365 {
      score := score - 20.0;
    }
    if l.gapHours > 24.0 {
      score := score - 20.0;
    }
    c := Conclude("CC7.1", quality, score);
  }

  // ----- configuration drift ----------------------------------------------------------------------

  datatype Drift = Drift(evaluated: int, drifted: int, openGroups: int, unapproved: int)

  function ReadDrift(m: Metrics): Drift {
    Drift(SafeInt(Get(m, "resources_evaluated", ZERO), 0),
          SafeInt(Get2(m, "drifted_resources", "config_noncompliant_resources", ZERO), 0),
          SafeInt(Get2(m, "open_security_groups", "open_http_listeners", ZERO), 0),
          SafeInt(Get2(m, "unapproved_changes_detected", "unapproved_changes", ZERO), 0))
  }

  function DriftPenalty(evaluated: int, drifted: int): real {
    if evaluated > 0 && drifted > 0
    then Min(30.0, drifted as real / evaluated as real * 100.0 * 0.5)
    else 0.0
  }

  function DriftRaw(d: Drift): real {
    100.0 - When(d.evaluated == 0, 50.0)
          - When(d.openGroups > 0, Min(40.0, d.openGroups as real * 20.0))
          - When(d.unapproved > 0, Min(30.0, d.unapproved as real * 15.0))
          - DriftPenalty(d.evaluated, d.drifted)
  }

  function ConfigDriftScore(data: Option<Evidence>): (c: ControlScore)
    ensures c.controlId == "CC6.2" && 0.0 <= c.score <= 100.0
  {
    Graded("CC6.2", data, (e: Evidence) => DriftRaw(ReadDrift(e.metrics)))
  }

  method TakeDrift(m: Metrics) returns (d: Drift)
    ensures d == ReadDrift(m)
  {
    var evaluated := SafeInt(Get(m, "resources_evaluated", ZERO), 0);
    var drifted := TakeInt(m, "drifted_resources", "config_noncompliant_resources");
    var openGroups := TakeInt(m, "open_security_groups", "open_http_listeners");
    var unapproved := TakeInt(m, "unapproved_changes_detected", "unapproved_changes");
    d := Drift(evaluated, drifted, openGroups, unapproved);
  }

  method EvalConfigDrift(data: Option<Evidence>) returns (c: ControlScore)
    ensures c == ConfigDriftScore(data)
  {
    if data == None {
      return ControlScore("CC6.2", NOT_ASSESSED, 0.0);
    }
    var quality := data.value.quality;
    if quality == "failed" {
      return ControlScore("CC6.2", FAIL, 0.0);
    }
    var d := TakeDrift(data.value.metrics);
    var score := 100.0;
    if d.evaluated == 0 {
      score := score - 50.0;
    }
    if d.openGroups > 0 {
      score := score - Min(40.0, d.openGroups as real * 20.0);
    }
    if d.unapproved > 0 {
      score := score - Min(30.0, d.unapproved as real * 15.0);
    }
    assert score == DriftRaw(d) + DriftPenalty(d.evaluated, d.drifted);
    if d.evaluated > 0 && d.drifted > 0 {
      var rate := d.drifted as real / d.evaluated as real * 100.0;
      score := score - Min(30.0, rate * 0.5);
    }
    assert score == DriftRaw(d);
    c := Conclude("CC6.2", quality, score);
  }

  // ----- encryption -------------------------------------------------------------------------------

  datatype Encryption = Encryption(undiscovered: bool, atRest: real, inTransit: real, unencrypted: int, fips: bool)

  function ReadEncryption(m: Metrics): Encryption {
    var total := SafeInt(Get(m, "total_confidential_resources", ZERO), 0);
    var enc := SafeInt(Get(m, "encrypted_at_rest", ZERO), 0);
    var tls := Get(m, "tls_enforced_percentage", Null);
    var weak := SafeInt(Get(m, "weak_cipher_endpoints", ZERO), 0);
    var fips := Get(m, "fips_compliant_algorithms", Null);
    Encryption(
      total == 0 && "encrypted_at_rest_percentage" !in m,
      if "encrypted_at_rest_percentage" in m then SafeFloat(m["encrypted_at_rest_percentage"], 0.0)
      else if total > 0 then enc as real / total as real * 100.0
      else 0.0,
      if tls != Null then SafeFloat(tls, 0.0) else if weak == 0 && total > 0 then 100.0 else 0.0,
      SafeInt(Get2(m, "unencrypted_data_stores", "unencrypted_cui_count", ZERO), 0),
      if fips != Null then Truthy(fips) else SafeInt(Get(m, "fips_compliant_keys", ZERO), 0) > 0)
  }

  function EncryptionRaw(x: Encryption): real {
    100.0 - When(x.undiscovered, 40.0)
          - When(x.unencrypted > 0, Min(50.0, x.unencrypted as real * 25.0))
          - When(x.atRest < 100.0, (100.0 - x.atRest) * 0.4)
          - When(x.inTransit < 100.0, (100.0 - x.inTransit) * 0.4)
          - When(!x.fips, 10.0)
  }

  function EncryptionScore(data: Option<Evidence>): (c: ControlScore)
    ensures c.controlId == "C1.2" && 0.0 <= c.score <= 100.0
  {
    Graded("C1.2", data, (e: Evidence) => EncryptionRaw(ReadEncryption(e.metrics)))
  }

  method TakeEncryption(m: Metrics) returns (x: Encryption)
    ensures x == ReadEncryption(m)
  {
    var total := SafeInt(Get(m, "total_confidential_resources", ZERO), 0);
    var enc := SafeInt(Get(m, "encrypted_at_rest", ZERO), 0);
    var atRest := 0.0;
    if "encrypted_at_rest_percentage" in m {
      atRest := SafeFloat(m["encrypted_at_rest_percentage"], 0.0);
    } else if total > 0 {
      atRest := enc as real / total as real * 100.0;
    }
    var inTransit := 0.0;
    var tls := Get(m, "tls_enforced_percentage", Null);
    if tls != Null {
      inTransit := SafeFloat(tls, 0.0);
    } else {
      var weak := SafeInt(Get(m, "weak_cipher_endpoints", ZERO), 0);
      if weak == 0 && total > 0 {
        inTransit := 100.0;
      }
    }
    var unencrypted := TakeInt(m, "unencrypted_data_stores", "unencrypted_cui_count");
    var fips := false;
    var fipsVal := Get(m, "fips_compliant_algorithms", Null);
    if fipsVal != Null {
      fips := Truthy(fipsVal);
    } else {
      fips := SafeInt(Get(m, "fips_compliant_keys", ZERO), 0) > 0;
    }
    x := Encryption(total == 0 && "encrypted_at_rest_percentage" !in m, atRest, inTransit, unencrypted, fips);
  }

  method EvalEncryption(data: Option<Evidence>) returns (c: ControlScore)
    ensures c == EncryptionScore(data)
  {
    if data == None {
      return ControlScore("C1.2", NOT_ASSESSED, 0.0);
    }
    var quality := data.value.quality;
    if quality == "failed" {
      return ControlScore("C1.2", FAIL, 0.0);
    }
    var x := TakeEncryption(data.value.metrics);
    var score := 100.0;
    if x.undiscovered {
      score := score - 40.0;
    }
    if x.unencrypted > 0 {
      score := score - Min(50.0, x.unencrypted as real * 25.0);
    }
    assert score == 100.0 - When(x.undiscovered, 40.0) - When(x.unencrypted > 0, Min(50.0, x.unencrypted as real * 25.0));
    if x.atRest < 100.0 {
      score := score - (100.0 - x.atRest) * 0.4;
    }
    if x.inTransit < 100.0 {
      score := score - (100.0 - x.inTransit) * 0.4;
    }
    if !x.fips {
      score := score - 10.0;
    }
    assert score == EncryptionRaw(x);
    c := Conclude("C1.2", quality, score);
  }

  // ----- retention --------------------------------------------------------------------------------

  datatype Retention = Retention(past: int, repos: int, compliant: int, deletionValid: bool)

  function ReadRetention(m: Metrics): Retention {
    var past := SafeInt(Get(m, "objects_past_retention", ZERO), 0);
    var repos := SafeInt(Get(m, "repositories_checked", Get2(m, "policies_checked", "buckets_checked", ZERO)), 0);
    var missing := SafeInt(Get(m, "repositories_missing_lifecycle",
                               Get2(m, "buckets_missing_lifecycle", "accounts_missing_lifecycle", ZERO)), 0);
    var rest := if repos - missing > 0 then repos - missing else 0;
    Retention(past, repos,
              SafeInt(Get2(m, "compliant_repositories", "compliant_buckets", Number(rest as real)), 0),
              Truthy(Get(m, "deletion_certificates_valid", Flag(repos > 0 && past == 0))))
  }

  function LifecyclePenalty(repos: int, compliant: int): real {
    if repos > 0 && compliant < repos
    then (100.0 - compliant as real / repos as real * 100.0) * 0.7
    else 0.0
  }

  function RetentionRaw(x: Retention): real {
    100.0 - When(x.repos == 0, 40.0)
          - When(x.past > 0, Min(40.0, x.past as real * 10.0))
          - LifecyclePenalty(x.repos, x.compliant)
          - When(!x.deletionValid, 20.0)
  }

  function RetentionScore(data: Option<Evidence>): (c: ControlScore)
    ensures c.controlId == "C1.4" && 0.0 <= c.score <= 100.0
  {
    Graded("C1.4", data, (e: Evidence) => RetentionRaw(ReadRetention(e.metrics)))
  }

  method TakeRetention(m: Metrics) returns (x: Retention)
    ensures x == ReadRetention(m)
  {
    var past := SafeInt(Get(m, "objects_past_retention", ZERO), 0);
    var repos, missing := 0, 0;
    if "repositories_checked" in m {
      repos := SafeInt(m["repositories_checked"], 0);
    } else {
      repos := TakeInt(m, "policies_checked", "buckets_checked");
    }
    if "repositories_missing_lifecycle" in m {
      missing := SafeInt(m["repositories_missing_lifecycle"], 0);
    } else {
      missing := TakeInt(m, "buckets_missing_lifecycle", "accounts_missing_lifecycle");
    }
    var compliant := if repos - missing > 0 then repos - missing else 0;
    if "compliant_repositories" in m {
      compliant := SafeInt(m["compliant_repositories"], 0);
    } else if "compliant_buckets" in m {
      compliant := SafeInt(m["compliant_buckets"], 0);
    }
    var deletionValid := repos > 0 && past == 0;
    if "deletion_certificates_valid" in m {
      deletionValid := Truthy(m["deletion_certificates_valid"]);
    }
    x := Retention(past, repos, compliant, deletionValid);
  }

  method EvalRetention(data: Option<Evidence>) returns (c: ControlScore)
    ensures c == RetentionScore(data)
  {
    if data == None {
      return ControlScore("C1.4", NOT_ASSESSED, 0.0);
    }
    var quality := data.value.quality;
    if quality == "failed" {
      return ControlScore("C1.4", FAIL, 0.0);
    }
    var x := TakeRetention(data.value.metrics);
    var score := 100.0;
    if x.repos == 0 {
      score := score - 40.0;
    }
    if x.past > 0 {
      score := score - Min(40.0, x.past as real * 10.0);
    }
    if x.repos > 0 && x.compliant < x.repos {
      var ratio := x.compliant as real / x.repos as real * 100.0;
      score := score - (100.0 - ratio) * 0.7;
    }
    if !x.deletionValid {
      score := score - 20.0;
    }
    assert score == RetentionRaw(x);
    c := Conclude("C1.4", quality, score);
  }

  // ----- resilience -------------------------------------------------------------------------------

  /** A missed recovery objective; an unknown one (None) costs nothing. */
  datatype Resilience = Resilience(success: int, jobs: int, failed30d: int, restoreTested: bool, rtoMissed: bool, rpoMissed: bool)

  predicate Missed(v: Raw) {
    v != Null && !Truthy(v)
  }

  function ReadResilience(m: Metrics): Resilience {
    var last := Get(m, "last_backup_hours_ago", Null);
    var restore := Get(m, "last_restore_test_days_ago", Null);
    var success :=
      if "successful_backups_24h" in m then SafeInt(m["successful_backups_24h"], 0)
      else if last != Null then (if SafeFloat(last, 999.0) <= 24.0 then 1 else 0)
      else 0;
    var jobs :=
      if "successful_backups_24h" in m then SafeInt(Get(m, "backup_jobs_evaluated", Null), success)
      else if last != Null then 1
      else 0;
    Resilience(success, jobs,
               SafeInt(Get(m, "backup_jobs_failed_30d", Null), 0),
               if "restore_tested_90d" in m then Truthy(m["restore_tested_90d"])
               else if restore != Null then SafeInt(restore, 999) <= 90
               else false,
               Missed(Get(m, "rto_target_met", Null)),
               Missed(Get(m, "rpo_target_met", Null)))
  }

  function BackupPenalty(success: int, jobs: int): real {
    if jobs == 0 || success == 0 then 40.0 else if success < jobs then 20.0 else 0.0
  }

  function ResilienceRaw(x: Resilience): real {
    100.0 - BackupPenalty(x.success, x.jobs)
          - When(x.failed30d > 0, Min(25.0, x.failed30d as real * 5.0))
          - When(!x.restoreTested, 30.0)
          - When(x.rtoMissed, 15.0)
          - When(x.rpoMissed, 15.0)
  }

  function ResilienceScore(data: Option<Evidence>): (c: ControlScore)
    ensures c.controlId == "A1.2" && 0.0 <= c.score <= 100.0
  {
    Graded("A1.2", data, (e: Evidence) => ResilienceRaw(ReadResilience(e.metrics)))
  }

  method TakeResilience(m: Metrics) returns (x: Resilience)
    ensures x == ReadResilience(m)
  {
    var failed30d := SafeInt(Get(m, "backup_jobs_failed_30d", Null), 0);
    var last := Get(m, "last_backup_hours_ago", Null);
    var success, jobs := 0, 0;
    if "successful_backups_24h" in m {
      success := SafeInt(m["successful_backups_24h"], 0);
      jobs := SafeInt(Get(m, "backup_jobs_evaluated", Null), success);
    } else if last != Null {
      jobs := 1;
      if SafeFloat(last, 999.0) <= 24.0 {
        success := 1;
      }
    }
    var restoreDays := Get(m, "last_restore_test_days_ago", Null);
    var restoreTested := false;
    if "restore_tested_90d" in m {
      restoreTested := Truthy(m["restore_tested_90d"]);
    } else if restoreDays != Null {
      restoreTested := SafeInt(restoreDays, 999) <= 90;
    }
    var rto, rpo := Get(m, "rto_target_met", Null), Get(m, "rpo_target_met", Null);
    x := Resilience(success, jobs, failed30d, restoreTested, rto != Null && !Truthy(rto), rpo != Null && !Truthy(rpo));
  }

  method EvalResilience(data: Option<Evidence>) returns (c: ControlScore)
    ensures c == ResilienceScore(data)
  {
    if data == None {
      return ControlScore("A1.2", NOT_ASSESSED, 0.0);
    }
    var quality := data.value.quality;
    if quality == "failed" {
      return ControlScore("A1.2", FAIL, 0.0);
    }
    var x := TakeResilience(data.value.metrics);
    var score := 100.0;
    if x.jobs == 0 || x.success == 0 {
      score := score - 40.0;
    } else if x.success < x.jobs {
      score := score - 20.0;
    }
    assert score == 100.0 - BackupPenalty(x.success, x.jobs);
    if x.failed30d > 0 {
      score := score - Min(25.0, x.failed30d as real * 5.0);
    }
    if !x.restoreTested {
      score := score - 30.0;
    }
    if x.rtoMissed {
      score := score - 15.0;
    }
    if x.rpoMissed {
      score := score - 15.0;
    }
    assert score == ResilienceRaw(x);
    c := Conclude("A1.2", quality, score);
  }

  // ----- zero trust -------------------------------------------------------------------------------

  datatype ZeroTrust = ZeroTrust(passed: int, total: int, identity: bool, device: bool, leastPrivilege: bool, monitoring: bool, maturity: real)

  function ReadZeroTrust(e: Evidence): ZeroTrust {
    ZeroTrust(
      SafeInt(Get(e.metrics, "checks_passed", ZERO), 0),
      SafeInt(Get(e.metrics, "checks_total", ZERO), 0),
      Truthy(Get(e.metrics, "identity_verified", Get(e.composite, "iam_review_current", Flag(false)))),
      Truthy(Get(e.metrics, "device_health_checked", Get(e.composite, "session_timeout_compliant", Flag(false)))),
      Truthy(Get(e.metrics, "least_privilege_enforced", Get(e.composite, "mfa_enforced", Flag(false)))),
      Truthy(Get(e.metrics, "continuous_monitoring_active", Get(e.composite, "encryption_green", Flag(false)))),
      SafeFloat(Get(e.metrics, "zt_maturity_score", ZERO), 0.0))
  }

  function FlagCount(z: ZeroTrust): nat {
    (if z.identity then 1 else 0) + (if z.device then 1 else 0) +
    (if z.leastPrivilege then 1 else 0) + (if z.monitoring then 1 else 0)
  }

  /** Without checks, 25 points a flag; with no flag at all the maturity level steps in. */
  function FlagRaw(flags: nat, maturity: real): real {
    if flags == 0 && maturity > 0.0 then maturity * 25.0 else flags as real * 25.0
  }

  function ZeroTrustRaw(z: ZeroTrust): real {
    if z.total > 0 then z.passed as real / z.total as real * 100.0 else FlagRaw(FlagCount(z), z.maturity)
  }

  function ZeroTrustScore(data: Option<Evidence>): (c: ControlScore)
    ensures c.controlId == "ZT-1" && 0.0 <= c.score <= 100.0
  {
    Graded("ZT-1", data, (e: Evidence) => ZeroTrustRaw(ReadZeroTrust(e)))
  }

  /** A flag among the metrics, or else among the composite checks; false when neither has it. */
  method TakeFlag(e: Evidence, metric: string, check: string) returns (b: bool)
    ensures b == Truthy(Get(e.metrics, metric, Get(e.composite, check, Flag(false))))
  {
    if metric in e.metrics {
      return Truthy(e.metrics[metric]);
    }
    if check in e.composite {
      return Truthy(e.composite[check]);
    }
    return false;
  }

  method TakeZeroTrust(e: Evidence) returns (z: ZeroTrust)
    ensures z == ReadZeroTrust(e)
  {
    var passed := SafeInt(Get(e.metrics, "checks_passed", ZERO), 0);
    var total := SafeInt(Get(e.metrics, "checks_total", ZERO), 0);
    var identity := TakeFlag(e, "identity_verified", "iam_review_current");
    var device := TakeFlag(e, "device_health_checked", "session_timeout_compliant");
    var leastPrivilege := TakeFlag(e, "least_privilege_enforced", "mfa_enforced");
    var monitoring := TakeFlag(e, "continuous_monitoring_active", "encryption_green");
    var maturity := SafeFloat(Get(e.metrics, "zt_maturity_score", ZERO), 0.0);
    z := ZeroTrust(passed, total, identity, device, leastPrivilege, monitoring, maturity);
  }

  method EvalZeroTrust(data: Option<Evidence>) returns (c: ControlScore)
    ensures c == ZeroTrustScore(data)
  {
    if data == None {
      return ControlScore("ZT-1", NOT_ASSESSED, 0.0);
    }
    var quality := data.value.quality;
    if quality == "failed" {
      return ControlScore("ZT-1", FAIL, 0.0);
    }
    var z := TakeZeroTrust(data.value);
    var score := 0.0;
    if z.total > 0 {
      score := z.passed as real / z.total as real * 100.0;
    } else {
      if z.identity {
        score := score + 25.0;
      }
      if z.device {
        score := score + 25.0;
      }
      if z.leastPrivilege {
        score := score + 25.0;
      }
      if z.monitoring {
        score := score + 25.0;
      }
      if z.maturity > 0.0 && score == 0.0 {
        score := z.maturity * 25.0;
      }
    }
    c := Conclude("ZT-1", quality, score);
  }
}
