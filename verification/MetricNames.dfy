/** Under which names each control finds its figures, which name wins, and what stands in for a missing figure. */
module MetricNames {
  import opened Prelude
  import opened Scoring

  /** MFA coverage is read under its first name, and under its second where that is missing; a null counts as none. */
  lemma IamNames(m: Metrics, r: real)
    ensures ReadIam(m["mfa_enforced_percentage" := Number(r)]).mfa == r
    ensures "mfa_enforced_percentage" !in m ==> ReadIam(m["mfa_enforcement_percent" := Number(r)]).mfa == r
    ensures ReadIam(m["mfa_enforced_percentage" := Null]).mfa == 0.0
    ensures ReadIam(m["days_since_last_review" := Null]).reviewDays == 0
    ensures ReadIam(m["orphaned_accounts" := Number(r)]).orphaned == Truncate(r)
    ensures ReadIam(m["days_since_last_review" := Number(r)]).reviewDays == Truncate(r)
    ensures ReadIam(m["days_since_last_review" := Text(None, None, false)]).reviewDays == 999
    ensures ReadIam(map[]) == Iam(0, 0.0, 0)
  {
  }

  lemma LoggingNames(m: Metrics, r: real)
    ensures ReadLogging(m["log_streams_active" := Number(r)]).streams == Truncate(r)
    ensures "log_streams_active" !in m ==> ReadLogging(m["active_trails" := Number(r)]).streams == Truncate(r)
    ensures ReadLogging(m["critical_events_logged_percentage" := Number(r)]).completeness == r
    ensures "critical_events_logged_percentage" !in m ==> ReadLogging(m["log_coverage_percent" := Number(r)]).completeness == r
    ensures ReadLogging(m["retention_days" := Number(r)]).retention == Truncate(r)
    ensures "retention_days" !in m ==> ReadLogging(m["cui_retention_days" := Number(r)]).retention == Truncate(r)
    ensures ReadLogging(m["longest_gap_hours" := Number(r)]).gapHours == r
    ensures "longest_gap_hours" !in m ==> ReadLogging(m["max_gap_hours" := Number(r)]).gapHours == r
    ensures ReadLogging(map[]) == Logging(0, 0.0, 0, 0.0)
  {
  }

  lemma DriftNames(m: Metrics, r: real)
    ensures ReadDrift(m["resources_evaluated" := Number(r)]).evaluated == Truncate(r)
    ensures ReadDrift(m["drifted_resources" := Number(r)]).drifted == Truncate(r)
    ensures "drifted_resources" !in m ==> ReadDrift(m["config_noncompliant_resources" := Number(r)]).drifted == Truncate(r)
    ensures ReadDrift(m["open_security_groups" := Number(r)]).openGroups == Truncate(r)
    ensures "open_security_groups" !in m ==> ReadDrift(m["open_http_listeners" := Number(r)]).openGroups == Truncate(r)
    ensures ReadDrift(m["unapproved_changes_detected" := Number(r)]).unapproved == Truncate(r)
    ensures "unapproved_changes_detected" !in m ==> ReadDrift(m["unapproved_changes" := Number(r)]).unapproved == Truncate(r)
    ensures ReadDrift(map[]) == Drift(0, 0, 0, 0)
  {
  }

  /** A reported share at rest wins over the one computed from counts, and reported TLS over the absence of weak ciphers. */
  lemma EncryptionNames(m: Metrics, r: real)
    ensures ReadEncryption(m["encrypted_at_rest_percentage" := Number(r)]).atRest == r
    ensures !ReadEncryption(m["encrypted_at_rest_percentage" := Number(r)]).undiscovered
    ensures ReadEncryption(m["tls_enforced_percentage" := Number(r)]).inTransit == r
    ensures ReadEncryption(m["unencrypted_data_stores" := Number(r)]).unencrypted == Truncate(r)
    ensures "unencrypted_data_stores" !in m ==> ReadEncryption(m["unencrypted_cui_count" := Number(r)]).unencrypted == Truncate(r)
    ensures ReadEncryption(m["fips_compliant_algorithms" := Number(r)]).fips == (r != 0.0)
    ensures "fips_compliant_algorithms" !in m ==> ReadEncryption(m["fips_compliant_keys" := Number(r)]).fips == (r >= 1.0)
    ensures ReadEncryption(map[]) == Encryption(true, 0.0, 0.0, 0, false)
  {
  }

  lemma EncryptionCounts(enc: nat, total: nat, weak: nat)
    requires total > 0
    ensures var x := ReadEncryption(map["encrypted_at_rest" := Number(enc as real),
                                        "total_confidential_resources" := Number(total as real),
                                        "weak_cipher_endpoints" := Number(weak as real)]);
      !x.undiscovered && x.atRest == 100.0 * (enc as real / total as real) && x.inTransit == if weak == 0 then 100.0 else 0.0
  {
  }

  lemma RetentionNames(m: Metrics, r: real)
    ensures ReadRetention(m["objects_past_retention" := Number(r)]).past == Truncate(r)
    ensures ReadRetention(m["repositories_checked" := Number(r)]).repos == Truncate(r)
    ensures "repositories_checked" !in m ==> ReadRetention(m["policies_checked" := Number(r)]).repos == Truncate(r)
    ensures "repositories_checked" !in m && "policies_checked" !in m ==> ReadRetention(m["buckets_checked" := Number(r)]).repos == Truncate(r)
    ensures ReadRetention(m["compliant_repositories" := Number(r)]).compliant == Truncate(r)
    ensures "compliant_repositories" !in m ==> ReadRetention(m["compliant_buckets" := Number(r)]).compliant == Truncate(r)
    ensures ReadRetention(m["deletion_certificates_valid" := Number(r)]).deletionValid == (r != 0.0)
    ensures ReadRetention(map[]) == Retention(0, 0, 0, false)
  {
  }

  /** Without a count of compliant repositories they are those that are not missing a lifecycle, under any of its three names. */
  lemma CompliantByDifference(name: string, checked: nat, missing: nat)
    requires name in {"repositories_missing_lifecycle", "buckets_missing_lifecycle", "accounts_missing_lifecycle"}
    ensures var x := ReadRetention(map["repositories_checked" := Number(checked as real)][name := Number(missing as real)]);
      x == Retention(0, checked, if missing < checked then checked - missing else 0, checked > 0)
  {
    var m: Metrics := map["repositories_checked" := Number(checked as real)][name := Number(missing as real)];
    assert "objects_past_retention" !in m && "compliant_repositories" !in m && "compliant_buckets" !in m;
    assert "deletion_certificates_valid" !in m && SafeInt(m[name], 0) == missing;
  }

  /** A backup within 24 hours stands for one good job, a restore test within 90 days for a tested restore. */
  lemma ResilienceNames(m: Metrics, r: real)
    ensures ReadResilience(m["successful_backups_24h" := Number(r)]).success == Truncate(r)
    ensures "successful_backups_24h" in m ==> ReadResilience(m["backup_jobs_evaluated" := Number(r)]).jobs == Truncate(r)
    ensures "successful_backups_24h" !in m ==> ReadResilience(m["last_backup_hours_ago" := Number(r)]).success == if r <= 24.0 then 1 else 0
    ensures "successful_backups_24h" !in m ==> ReadResilience(m["last_backup_hours_ago" := Number(r)]).jobs == 1
    ensures ReadResilience(m["backup_jobs_failed_30d" := Number(r)]).failed30d == Truncate(r)
    ensures ReadResilience(m["restore_tested_90d" := Number(r)]).restoreTested == (r != 0.0)
    ensures "restore_tested_90d" !in m ==> ReadResilience(m["last_restore_test_days_ago" := Number(r)]).restoreTested == (r < 91.0)
    ensures ReadResilience(m["rto_target_met" := Number(r)]).rtoMissed == (r == 0.0)
    ensures ReadResilience(m["rpo_target_met" := Number(r)]).rpoMissed == (r == 0.0)
    ensures ReadResilience(map[]) == Resilience(0, 0, 0, false, false, false)
  {
  }

  /** Each zero trust flag is the control's own metric, and the composite check of another control where that is missing. */
  lemma ZeroTrustNames(e: Evidence, r: real)
    ensures ReadZeroTrust(e.(metrics := e.metrics["checks_passed" := Number(r)])).passed == Truncate(r)
    ensures ReadZeroTrust(e.(metrics := e.metrics["checks_total" := Number(r)])).total == Truncate(r)
    ensures ReadZeroTrust(e.(metrics := e.metrics["zt_maturity_score" := Number(r)])).maturity == r
    ensures ReadZeroTrust(e.(metrics := e.metrics["identity_verified" := Number(r)])).identity == (r != 0.0)
    ensures ReadZeroTrust(e.(metrics := e.metrics["device_health_checked" := Number(r)])).device == (r != 0.0)
    ensures ReadZeroTrust(e.(metrics := e.metrics["least_privilege_enforced" := Number(r)])).leastPrivilege == (r != 0.0)
    ensures ReadZeroTrust(e.(metrics := e.metrics["continuous_monitoring_active" := Number(r)])).monitoring == (r != 0.0)
  {
  }

  lemma CompositeChecksStandIn(e: Evidence, r: real)
    ensures "identity_verified" !in e.metrics ==>
      ReadZeroTrust(e.(composite := e.composite["iam_review_current" := Number(r)])).identity == (r != 0.0)
    ensures "device_health_checked" !in e.metrics ==>
      ReadZeroTrust(e.(composite := e.composite["session_timeout_compliant" := Number(r)])).device == (r != 0.0)
    ensures "least_privilege_enforced" !in e.metrics ==>
      ReadZeroTrust(e.(composite := e.composite["mfa_enforced" := Number(r)])).leastPrivilege == (r != 0.0)
    ensures "continuous_monitoring_active" !in e.metrics ==>
      ReadZeroTrust(e.(composite := e.composite["encryption_green" := Number(r)])).monitoring == (r != 0.0)
  {
  }

  /** A value that is no number. */
  predicate Unreadable(v: Raw) {
    v in {Null, Container(true), Container(false), Text(None, None, true), Text(None, None, false)}
  }

  /** Where a figure is no number it counts as zero, but a malformed date of a review as 999 days ago. */
  lemma UnreadableIsZero(m: Metrics, v: Raw)
    requires Unreadable(v)
    ensures ReadIam(m["orphaned_accounts" := v]).orphaned == 0 && ReadIam(m["mfa_enforced_percentage" := v]).mfa == 0.0
    ensures v != Null ==> ReadIam(m["days_since_last_review" := v]).reviewDays == 999
    ensures ReadLogging(m["log_streams_active" := v]).streams == 0 && ReadLogging(m["critical_events_logged_percentage" := v]).completeness == 0.0
    ensures ReadLogging(m["retention_days" := v]).retention == 0 && ReadLogging(m["longest_gap_hours" := v]).gapHours == 0.0
    ensures ReadDrift(m["resources_evaluated" := v]).evaluated == 0 && ReadDrift(m["drifted_resources" := v]).drifted == 0
    ensures ReadDrift(m["open_security_groups" := v]).openGroups == 0 && ReadDrift(m["unapproved_changes_detected" := v]).unapproved == 0
    ensures ReadEncryption(m["encrypted_at_rest_percentage" := v]).atRest == 0.0
    ensures ReadEncryption(m["unencrypted_data_stores" := v]).unencrypted == 0
    ensures v != Null ==> ReadEncryption(m["tls_enforced_percentage" := v]).inTransit == 0.0
  {
  }

  lemma UnreadableRetentionIsZero(m: Metrics, v: Raw)
    requires Unreadable(v)
    ensures ReadRetention(m["objects_past_retention" := v]).past == 0 && ReadRetention(m["repositories_checked" := v]).repos == 0
    ensures ReadRetention(m["compliant_repositories" := v]).compliant == 0
  {
  }

  lemma UnreadableBackupsAreZero(m: Metrics, e: Evidence, v: Raw)
    requires Unreadable(v)
    ensures ReadResilience(m["successful_backups_24h" := v]).success == 0 && ReadResilience(m["backup_jobs_failed_30d" := v]).failed30d == 0
    ensures "restore_tested_90d" !in m ==> !ReadResilience(m["last_restore_test_days_ago" := v]).restoreTested
    ensures "successful_backups_24h" !in m ==> ReadResilience(m["last_backup_hours_ago" := v]).success == 0
    ensures ReadZeroTrust(e.(metrics := e.metrics["checks_passed" := v])).passed == 0
    ensures ReadZeroTrust(e.(metrics := e.metrics["checks_total" := v])).total == 0
    ensures ReadZeroTrust(e.(metrics := e.metrics["zt_maturity_score" := v])).maturity == 0.0
  {
  }

  /** A flag is set unless it is null, zero or empty; a missed objective has to be reported. */
  lemma FlagsRead(m: Metrics, v: Raw)
    ensures ReadResilience(m["restore_tested_90d" := v]).restoreTested <==>
      v !in {Null, Number(0.0), Container(true)} && !(v.Text? && v.empty)
    ensures v != Null ==> ReadResilience(m["rto_target_met" := v]).rtoMissed == !ReadResilience(m["restore_tested_90d" := v]).restoreTested
    ensures !ReadResilience(m["rto_target_met" := Null]).rtoMissed && !ReadResilience(m["rpo_target_met" := Null]).rpoMissed
  {
  }
}
