/**
  What leaving a metric out does to a control score: for some metrics absence reads as no penalty, so
  withholding a bad value pays; for the others absence reads as the worst.
 */
module Omissions {
  import opened Prelude
  import opened Scoring
  import opened ScoreMonotonicity

  function Without(e: Evidence, names: set<string>): Evidence {
    e.(metrics := e.metrics - names)
  }

  // ----- when a better raw score counts -----------------------------------------------------------

  function Cap(quality: string): real {
    if quality == "partial" then 70.0 else 100.0
  }

  /** The gain shows: the collection has not failed, and the two scores are not cut off to the same one. */
  predicate Counts(quality: string, less: real, more: real) {
    quality != "failed" && more > 0.0 && less < Cap(quality)
  }

  lemma RisesIff(id: string, raw: Evidence -> real, w: Evidence, m: Evidence)
    requires w.quality == m.quality
    ensures Graded(id, Some(w), raw).score > Graded(id, Some(m), raw).score <==>
      raw(w) > raw(m) && Counts(m.quality, raw(m), raw(w))
  {
  }

  // ----- identity and access ----------------------------------------------------------------------

  lemma OrphanedOmissionPaysIff(e: Evidence)
    ensures IamScore(Some(Without(e, {"orphaned_accounts"}))).score > IamScore(Some(e)).score <==>
      var x := ReadIam(e.metrics);
      x.orphaned > 0 && Counts(e.quality, IamRaw(x), IamRaw(x.(orphaned := 0)))
  {
    var w := Without(e, {"orphaned_accounts"});
    assert |"orphaned_accounts"| == 17 && |"mfa_enforced_percentage"| == |"mfa_enforcement_percent"| == 23;
    assert |"days_since_last_review"| == 22;
    assert ReadIam(w.metrics) == ReadIam(e.metrics).(orphaned := 0);
    RisesIff("CC6.1", (e: Evidence) => IamRaw(ReadIam(e.metrics)), w, e);
  }

  /** Without an MFA metric the score is that of no MFA at all. */
  lemma MfaOmissionNeverPays(e: Evidence)
    ensures IamScore(Some(Without(e, {"mfa_enforced_percentage", "mfa_enforcement_percent"}))).score <= IamScore(Some(e)).score
  {
    var w := Without(e, {"mfa_enforced_percentage", "mfa_enforcement_percent"});
    assert |"orphaned_accounts"| == 17 && |"mfa_enforced_percentage"| == |"mfa_enforcement_percent"| == 23;
    assert |"days_since_last_review"| == 22;
    assert ReadIam(w.metrics) == ReadIam(e.metrics).(mfa := 0.0);
    RisesIff("CC6.1", (e: Evidence) => IamRaw(ReadIam(e.metrics)), w, e);
  }

  // ----- logging ----------------------------------------------------------------------------------

  lemma LoggingNames()
    ensures |"log_streams_active"| == 18 && |"active_trails"| == |"max_gap_hours"| == 13 && "active_trails"[0] != "max_gap_hours"[0]
    ensures |"critical_events_logged_percentage"| == 33 && |"log_coverage_percent"| == 20 && |"retention_days"| == 14
    ensures |"cui_retention_days"| == 18 && "log_streams_active"[0] != "cui_retention_days"[0] && |"longest_gap_hours"| == 17
  {
  }

  lemma GapOmissionPaysIff(e: Evidence)
    ensures LoggingScore(Some(Without(e, {"longest_gap_hours", "max_gap_hours"}))).score > LoggingScore(Some(e)).score <==>
      var x := ReadLogging(e.metrics);
      x.gapHours > 24.0 && Counts(e.quality, LoggingRaw(x), LoggingRaw(x.(gapHours := 0.0)))
  {
    var w := Without(e, {"longest_gap_hours", "max_gap_hours"});
    LoggingNames();
    assert ReadLogging(w.metrics) == ReadLogging(e.metrics).(gapHours := 0.0);
    RisesIff("CC7.1", (e: Evidence) => LoggingRaw(ReadLogging(e.metrics)), w, e);
  }

  lemma StreamsOmissionNeverPays(e: Evidence)
    ensures LoggingScore(Some(Without(e, {"log_streams_active", "active_trails"}))).score <= LoggingScore(Some(e)).score
  {
    var w := Without(e, {"log_streams_active", "active_trails"});
    LoggingNames();
    assert ReadLogging(w.metrics) == ReadLogging(e.metrics).(streams := 0);
    RisesIff("CC7.1", (e: Evidence) => LoggingRaw(ReadLogging(e.metrics)), w, e);
  }

  lemma CompletenessOmissionNeverPays(e: Evidence)
    ensures LoggingScore(Some(Without(e, {"critical_events_logged_percentage", "log_coverage_percent"}))).score
         <= LoggingScore(Some(e)).score
  {
    var w := Without(e, {"critical_events_logged_percentage", "log_coverage_percent"});
    LoggingNames();
    assert ReadLogging(w.metrics) == ReadLogging(e.metrics).(completeness := 0.0);
    RisesIff("CC7.1", (e: Evidence) => LoggingRaw(ReadLogging(e.metrics)), w, e);
  }

  lemma RetentionDaysOmissionNeverPays(e: Evidence)
    ensures LoggingScore(Some(Without(e, {"retention_days", "cui_retention_days"}))).score <= LoggingScore(Some(e)).score
  {
    var w := Without(e, {"retention_days", "cui_retention_days"});
    LoggingNames();
    assert ReadLogging(w.metrics) == ReadLogging(e.metrics).(retention := 0);
    RisesIff("CC7.1", (e: Evidence) => LoggingRaw(ReadLogging(e.metrics)), w, e);
  }

  // ----- configuration drift ----------------------------------------------------------------------

  lemma DriftNames()
    ensures |"resources_evaluated"| == |"open_http_listeners"| == 19 && "resources_evaluated"[0] != "open_http_listeners"[0]
    ensures |"drifted_resources"| == 17 && |"config_noncompliant_resources"| == 29 && |"open_security_groups"| == 20
    ensures |"unapproved_changes_detected"| == 27 && |"unapproved_changes"| == 18
  {
  }

  lemma DriftOmissionPaysIff(e: Evidence)
    ensures var w, x := Without(e, {"drifted_resources", "config_noncompliant_resources"}), ReadDrift(e.metrics);
      ConfigDriftScore(Some(w)).score > ConfigDriftScore(Some(e)).score <==> x.evaluated > 0 && x.drifted > 0 && Counts(e.quality, DriftRaw(x), DriftRaw(x.(drifted := 0)))
  {
    var w := Without(e, {"drifted_resources", "config_noncompliant_resources"});
    var x := ReadDrift(e.metrics);
    DriftNames();
    assert ReadDrift(w.metrics) == x.(drifted := 0);
    if x.evaluated > 0 && x.drifted > 0 {
      QuotientBelow(x.drifted as real, x.evaluated as real, 0.0);
      assert x.drifted as real / x.evaluated as real != 0.0;
    }
    RisesIff("CC6.2", (e: Evidence) => DriftRaw(ReadDrift(e.metrics)), w, e);
  }

  lemma OpenGroupsOmissionPaysIff(e: Evidence)
    ensures var w, x := Without(e, {"open_security_groups", "open_http_listeners"}), ReadDrift(e.metrics);
      ConfigDriftScore(Some(w)).score > ConfigDriftScore(Some(e)).score <==> x.openGroups > 0 && Counts(e.quality, DriftRaw(x), DriftRaw(x.(openGroups := 0)))
  {
    var w := Without(e, {"open_security_groups", "open_http_listeners"});
    DriftNames();
    assert ReadDrift(w.metrics) == ReadDrift(e.metrics).(openGroups := 0);
    RisesIff("CC6.2", (e: Evidence) => DriftRaw(ReadDrift(e.metrics)), w, e);
  }

  lemma UnapprovedOmissionPaysIff(e: Evidence)
    ensures var w, x := Without(e, {"unapproved_changes_detected", "unapproved_changes"}), ReadDrift(e.metrics);
      ConfigDriftScore(Some(w)).score > ConfigDriftScore(Some(e)).score <==> x.unapproved > 0 && Counts(e.quality, DriftRaw(x), DriftRaw(x.(unapproved := 0)))
  {
    var w := Without(e, {"unapproved_changes_detected", "unapproved_changes"});
    DriftNames();
    assert ReadDrift(w.metrics) == ReadDrift(e.metrics).(unapproved := 0);
    RisesIff("CC6.2", (e: Evidence) => DriftRaw(ReadDrift(e.metrics)), w, e);
  }

  /** With nothing evaluated the penalty for that outweighs whatever drift is no longer counted. */
  lemma EvaluatedOmissionNeverPays(e: Evidence)
    ensures ConfigDriftScore(Some(Without(e, {"resources_evaluated"}))).score <= ConfigDriftScore(Some(e)).score
  {
    var w := Without(e, {"resources_evaluated"});
    DriftNames();
    assert ReadDrift(w.metrics) == ReadDrift(e.metrics).(evaluated := 0);
    RisesIff("CC6.2", (e: Evidence) => DriftRaw(ReadDrift(e.metrics)), w, e);
  }

  // ----- encryption, retention and resilience -----------------------------------------------------

  lemma UnencryptedOmissionPaysIff(e: Evidence)
    ensures var w, x := Without(e, {"unencrypted_data_stores", "unencrypted_cui_count"}), ReadEncryption(e.metrics);
      EncryptionScore(Some(w)).score > EncryptionScore(Some(e)).score <==> x.unencrypted > 0 && Counts(e.quality, EncryptionRaw(x), EncryptionRaw(x.(unencrypted := 0)))
  {
    var w := Without(e, {"unencrypted_data_stores", "unencrypted_cui_count"});
    assert |"unencrypted_data_stores"| == |"tls_enforced_percentage"| == 23 && "tls_enforced_percentage"[0] == 't';
    assert |"unencrypted_cui_count"| == |"weak_cipher_endpoints"| == 21 && "weak_cipher_endpoints"[0] == 'w';
    assert |"total_confidential_resources"| == |"encrypted_at_rest_percentage"| == 28 && |"encrypted_at_rest"| == 17;
    assert |"fips_compliant_algorithms"| == 25 && |"fips_compliant_keys"| == 19;
    assert ReadEncryption(w.metrics) == ReadEncryption(e.metrics).(unencrypted := 0);
    RisesIff("C1.2", (e: Evidence) => EncryptionRaw(ReadEncryption(e.metrics)), w, e);
  }

  /** Without a TLS percentage, no weak endpoint among some resources reads as 100 percent. */
  lemma TlsOmissionPaysIff(e: Evidence)
    ensures var w, x := Without(e, {"tls_enforced_percentage"}), ReadEncryption(e.metrics);
      EncryptionScore(Some(w)).score > EncryptionScore(Some(e)).score <==>
        && (if NoWeakEndpoint(e.metrics) then x.inTransit < 100.0 else x.inTransit < 0.0)
        && Counts(e.quality, EncryptionRaw(x), EncryptionRaw(ReadEncryption(w.metrics)))
  {
    var w := Without(e, {"tls_enforced_percentage"});
    assert |"unencrypted_data_stores"| == |"tls_enforced_percentage"| == 23 && "tls_enforced_percentage"[0] == 't';
    assert "unencrypted_data_stores"[0] == 'u' && |"unencrypted_cui_count"| == |"weak_cipher_endpoints"| == 21;
    assert |"total_confidential_resources"| == |"encrypted_at_rest_percentage"| == 28 && |"encrypted_at_rest"| == 17;
    assert |"fips_compliant_algorithms"| == 25 && |"fips_compliant_keys"| == 19;
    assert ReadEncryption(w.metrics) == ReadEncryption(e.metrics).(inTransit := if NoWeakEndpoint(e.metrics) then 100.0 else 0.0);
    RisesIff("C1.2", (e: Evidence) => EncryptionRaw(ReadEncryption(e.metrics)), w, e);
  }

  predicate NoWeakEndpoint(m: Metrics) {
    SafeInt(Get(m, "weak_cipher_endpoints", ZERO), 0) == 0 && SafeInt(Get(m, "total_confidential_resources", ZERO), 0) > 0
  }

  /** With the deletion certificates reported, objects past retention count for nothing but their penalty. */
  lemma PastRetentionOmissionPaysIff(e: Evidence)
    requires "deletion_certificates_valid" in e.metrics
    ensures var w, x := Without(e, {"objects_past_retention"}), ReadRetention(e.metrics);
      RetentionScore(Some(w)).score > RetentionScore(Some(e)).score <==>
        x.past > 0 && Counts(e.quality, RetentionRaw(x), RetentionRaw(x.(past := 0)))
  {
    var w := Without(e, {"objects_past_retention"});
    assert |"objects_past_retention"| == |"compliant_repositories"| == 22 && "compliant_repositories"[0] == 'c';
    assert "objects_past_retention"[0] == 'o' && |"repositories_checked"| == 20 && |"policies_checked"| == 16;
    assert |"buckets_checked"| == 15 && |"repositories_missing_lifecycle"| == 30 && |"buckets_missing_lifecycle"| == 25;
    assert |"accounts_missing_lifecycle"| == 26 && |"compliant_buckets"| == 17 && |"deletion_certificates_valid"| == 27;
    assert ReadRetention(w.metrics) == ReadRetention(e.metrics).(past := 0);
    RisesIff("C1.4", (e: Evidence) => RetentionRaw(ReadRetention(e.metrics)), w, e);
  }

  lemma ResilienceNames()
    ensures |"successful_backups_24h"| == |"backup_jobs_failed_30d"| == 22
    ensures "successful_backups_24h"[0] != "backup_jobs_failed_30d"[0]
    ensures |"backup_jobs_evaluated"| == |"last_backup_hours_ago"| == 21 && |"last_restore_test_days_ago"| == 26
    ensures |"restore_tested_90d"| == 18 && |"rto_target_met"| == |"rpo_target_met"| == 14
    ensures "rto_target_met"[1] != "rpo_target_met"[1]
  {
  }

  lemma FailedJobsOmissionPaysIff(e: Evidence)
    ensures ResilienceScore(Some(Without(e, {"backup_jobs_failed_30d"}))).score > ResilienceScore(Some(e)).score <==>
      var x := ReadResilience(e.metrics);
      x.failed30d > 0 && Counts(e.quality, ResilienceRaw(x), ResilienceRaw(x.(failed30d := 0)))
  {
    var w := Without(e, {"backup_jobs_failed_30d"});
    ResilienceNames();
    assert ReadResilience(w.metrics) == ReadResilience(e.metrics).(failed30d := 0);
    RisesIff("A1.2", (e: Evidence) => ResilienceRaw(ReadResilience(e.metrics)), w, e);
  }

  /** A recovery objective that was missed costs 15 points, one that is not reported costs nothing. */
  lemma RecoveryTimeOmissionPaysIff(e: Evidence)
    ensures ResilienceScore(Some(Without(e, {"rto_target_met"}))).score > ResilienceScore(Some(e)).score <==>
      var x := ReadResilience(e.metrics);
      x.rtoMissed && Counts(e.quality, ResilienceRaw(x), ResilienceRaw(x.(rtoMissed := false)))
  {
    var w := Without(e, {"rto_target_met"});
    ResilienceNames();
    assert ReadResilience(w.metrics) == ReadResilience(e.metrics).(rtoMissed := false);
    RisesIff("A1.2", (e: Evidence) => ResilienceRaw(ReadResilience(e.metrics)), w, e);
  }

  lemma RecoveryPointOmissionPaysIff(e: Evidence)
    ensures ResilienceScore(Some(Without(e, {"rpo_target_met"}))).score > ResilienceScore(Some(e)).score <==>
      var x := ReadResilience(e.metrics);
      x.rpoMissed && Counts(e.quality, ResilienceRaw(x), ResilienceRaw(x.(rpoMissed := false)))
  {
    var w := Without(e, {"rpo_target_met"});
    ResilienceNames();
    assert ReadResilience(w.metrics) == ReadResilience(e.metrics).(rpoMissed := false);
    RisesIff("A1.2", (e: Evidence) => ResilienceRaw(ReadResilience(e.metrics)), w, e);
  }

  lemma BackupsOmissionNeverPays(e: Evidence)
    ensures ResilienceScore(Some(Without(e, {"successful_backups_24h", "backup_jobs_evaluated", "last_backup_hours_ago"}))).score
         <= ResilienceScore(Some(e)).score
  {
    var w := Without(e, {"successful_backups_24h", "backup_jobs_evaluated", "last_backup_hours_ago"});
    ResilienceNames();
    assert ReadResilience(w.metrics) == ReadResilience(e.metrics).(success := 0, jobs := 0);
    RisesIff("A1.2", (e: Evidence) => ResilienceRaw(ReadResilience(e.metrics)), w, e);
  }

  lemma RestoreOmissionNeverPays(e: Evidence)
    ensures ResilienceScore(Some(Without(e, {"restore_tested_90d", "last_restore_test_days_ago"}))).score
         <= ResilienceScore(Some(e)).score
  {
    var w := Without(e, {"restore_tested_90d", "last_restore_test_days_ago"});
    ResilienceNames();
    assert ReadResilience(w.metrics) == ReadResilience(e.metrics).(restoreTested := false);
    RisesIff("A1.2", (e: Evidence) => ResilienceRaw(ReadResilience(e.metrics)), w, e);
  }
}
