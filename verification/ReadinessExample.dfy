/** Collected evidence whose published framework score says 85.0 while the readiness word does not. */
module ReadinessExample {
  import opened Prelude
  import opened Rounding
  import opened Scoring
  import opened Scorecard
  import opened ScorecardGuarantees
  import opened PostureFormula
  import Omissions

  function Complete(metrics: Metrics): Option<Evidence> {
    Some(Evidence("complete", metrics, map[]))
  }

  /** Nearly everything is in order; MFA covers 74.5 percent, one objective was missed, zero trust was not collected. */
  function NearlyReady(): Collected {
    Collected(
      Complete(map["mfa_enforced_percentage" := Number(74.5)]),
      Complete(map["active_trails" := Number(1.0), "log_coverage_percent" := Number(100.0), "retention_days" := Number(365.0)]),
      Complete(map["resources_evaluated" := Number(1.0)]),
      Complete(map["encrypted_at_rest_percentage" := Number(100.0), "tls_enforced_percentage" := Number(100.0),
                   "fips_compliant_keys" := Number(1.0)]),
      Complete(map["buckets_checked" := Number(1.0)]),
      Complete(map["last_backup_hours_ago" := Number(1.0), "last_restore_test_days_ago" := Number(1.0), "rto_target_met" := Number(0.0)]),
      None)
  }

  lemma IamOfExample()
    ensures IamScore(NearlyReady().iam).score == 79.6
  {
    var m: Metrics := map["mfa_enforced_percentage" := Number(74.5)];
    assert |"mfa_enforced_percentage"| == 23 && |"orphaned_accounts"| == 17 && |"days_since_last_review"| == 22;
    assert ReadIam(m) == Iam(0, 74.5, 0);
  }

  lemma LoggingOfExample()
    ensures LoggingScore(NearlyReady().logging).score == 100.0
  {
    var m: Metrics := map["active_trails" := Number(1.0), "log_coverage_percent" := Number(100.0), "retention_days" := Number(365.0)];
    assert |"log_streams_active"| == 18 && |"critical_events_logged_percentage"| == 33 && |"longest_gap_hours"| == 17;
    assert |"active_trails"| == 13 && |"log_coverage_percent"| == 20 && |"retention_days"| == 14 && |"max_gap_hours"| == 13;
    assert "active_trails"[0] == 'a' && "max_gap_hours"[0] == 'm';
    assert ReadLogging(m) == Logging(1, 100.0, 365, 0.0);
  }

  lemma DriftOfExample()
    ensures ConfigDriftScore(NearlyReady().drift).score == 100.0
  {
    var m: Metrics := map["resources_evaluated" := Number(1.0)];
    assert |"resources_evaluated"| == 19 && |"drifted_resources"| == 17 && |"config_noncompliant_resources"| == 29;
    assert |"open_security_groups"| == 20 && |"open_http_listeners"| == 19 && |"unapproved_changes_detected"| == 27;
    assert |"unapproved_changes"| == 18 && "resources_evaluated"[0] == 'r' && "open_http_listeners"[0] == 'o';
    assert ReadDrift(m) == Drift(1, 0, 0, 0);
  }

  lemma EncryptionOfExample()
    ensures EncryptionScore(NearlyReady().encryption).score == 100.0
  {
    var m: Metrics := map["encrypted_at_rest_percentage" := Number(100.0), "tls_enforced_percentage" := Number(100.0),
                          "fips_compliant_keys" := Number(1.0)];
    assert |"encrypted_at_rest_percentage"| == 28 && |"tls_enforced_percentage"| == 23 && |"fips_compliant_keys"| == 19;
    assert |"unencrypted_data_stores"| == 23 && |"unencrypted_cui_count"| == 21 && |"fips_compliant_algorithms"| == 25;
    assert "tls_enforced_percentage"[0] == 't' && "unencrypted_data_stores"[0] == 'u';
    assert ReadEncryption(m) == Encryption(false, 100.0, 100.0, 0, true);
  }

  lemma RetentionOfExample()
    ensures RetentionScore(NearlyReady().retention).score == 100.0
  {
    var m: Metrics := map["buckets_checked" := Number(1.0)];
    assert |"buckets_checked"| == 15 && |"policies_checked"| == 16 && |"repositories_checked"| == 20;
    assert |"objects_past_retention"| == 22 && |"repositories_missing_lifecycle"| == 30 && |"buckets_missing_lifecycle"| == 25;
    assert |"accounts_missing_lifecycle"| == 26 && |"compliant_repositories"| == 22 && |"compliant_buckets"| == 17;
    assert |"deletion_certificates_valid"| == 27;
    assert ReadRetention(m) == Retention(0, 1, 1, true);
  }

  lemma ResilienceOfExample()
    ensures ResilienceScore(NearlyReady().resilience).score == 85.0
  {
    var m: Metrics :=
      map["last_backup_hours_ago" := Number(1.0), "last_restore_test_days_ago" := Number(1.0), "rto_target_met" := Number(0.0)];
    assert ReadResilience(m) == Resilience(1, 1, 0, true, true, false) by { Omissions.ResilienceNames(); }
    assert ResilienceRaw(Resilience(1, 1, 0, true, true, false)) == 85.0;
  }

  // ----- from the control scores to the frameworks ------------------------------------------------

  /** The scores of the example, in the order of the controls. */
  ghost predicate ExampleScores(s: seq<ControlScore>) {
    && SevenControls(s)
    && s[0].score == 79.6 && s[1].score == 100.0 && s[2].score == 100.0 && s[3].score == 100.0
    && s[4].score == 100.0 && s[5].score == 85.0 && s[6].score == 0.0
  }

  /** A pillar whose mean has one decimal is not changed by rounding. */
  lemma TenthsStay(s: seq<ControlScore>, p: Pillar, tenths: int)
    requires PillarScore(s, p, false) == tenths as real / 10.0
    ensures PillarScore(s, p, true) == tenths as real / 10.0
  {
    NearestTenth(PillarScore(s, p, false), tenths);
  }

  lemma PairTenths(s: seq<ControlScore>, p: Pillar, i: nat, j: nat, tenths: int)
    requires SevenControls(s) && i < j < 7
    requires p.controls == [s[i].controlId, s[j].controlId] || p.controls == [s[j].controlId, s[i].controlId]
    requires (s[i].score + s[j].score) / 2.0 == tenths as real / 10.0
    ensures PillarScore(s, p, true) == tenths as real / 10.0
  {
    PairMean(s, p, i, j);
    TenthsStay(s, p, tenths);
  }

  lemma SingleTenths(s: seq<ControlScore>, p: Pillar, i: nat, tenths: int)
    requires SevenControls(s) && i < 7 && p.controls == [s[i].controlId] && s[i].score == tenths as real / 10.0
    ensures PillarScore(s, p, true) == tenths as real / 10.0
  {
    SingleMean(s, p, i);
    TenthsStay(s, p, tenths);
  }

  lemma Soc2OfExample(s: seq<ControlScore>)
    requires ExampleScores(s)
    ensures Overall(s, SOC2, true) == 254.9 / 3.0 && Round1(Overall(s, SOC2, true)) == 85.0
  {
    SecurityMean(s);
    TenthsStay(s, SOC2[0], 699);
    PairTenths(s, SOC2[1], 3, 4, 1000);
    SingleTenths(s, SOC2[2], 5, 850);
    SumOfThree(PillarScores(s, SOC2, true));
    NearestTenth(Overall(s, SOC2, true), 850);
  }

  lemma NistOfExample(s: seq<ControlScore>)
    requires ExampleScores(s)
    ensures Round1(Overall(s, NIST, true)) == 87.5
  {
    PairTenths(s, NIST[0], 0, 6, 398);
    SingleTenths(s, NIST[1], 1, 1000);
    SingleTenths(s, NIST[2], 2, 1000);
    SingleTenths(s, NIST[3], 3, 1000);
    SingleTenths(s, NIST[4], 4, 1000);
    SingleTenths(s, NIST[5], 5, 850);
    SumOfSix(PillarScores(s, NIST, true));
    NearestTenth(Overall(s, NIST, true), 875);
  }

  lemma CmmcOfExample(s: seq<ControlScore>)
    requires ExampleScores(s)
    ensures Round1(Overall(s, CMMC, true)) == 85.8
  {
    PairTenths(s, CMMC[0], 0, 6, 398);
    PairTenths(s, CMMC[1], 0, 2, 898);
    SingleTenths(s, CMMC[2], 1, 1000);
    PairTenths(s, CMMC[3], 1, 2, 1000);
    PairTenths(s, CMMC[4], 3, 4, 1000);
    SingleTenths(s, CMMC[5], 5, 850);
    SumOfSix(PillarScores(s, CMMC, true));
    NearestTenth(Overall(s, CMMC, true), 858);
  }

  lemma ZeroTrustOfExample(s: seq<ControlScore>)
    requires ExampleScores(s)
    ensures Round1(Overall(s, ZERO_TRUST, true)) == 76.0
  {
    PairTenths(s, ZERO_TRUST[0], 0, 6, 398);
    PairTenths(s, ZERO_TRUST[1], 2, 6, 500);
    PairTenths(s, ZERO_TRUST[2], 2, 3, 1000);
    PairTenths(s, ZERO_TRUST[3], 1, 2, 1000);
    PairTenths(s, ZERO_TRUST[4], 3, 4, 1000);
    SingleTenths(s, ZERO_TRUST[5], 1, 1000);
    PairTenths(s, ZERO_TRUST[6], 5, 6, 425);
    SumOfSeven(PillarScores(s, ZERO_TRUST, true));
    NearestTenth(Overall(s, ZERO_TRUST, true), 760);
  }

  lemma ScoresOfExample(c: Collected)
    requires IamScore(c.iam).score == 79.6 && LoggingScore(c.logging).score == 100.0
    requires ConfigDriftScore(c.drift).score == 100.0 && EncryptionScore(c.encryption).score == 100.0
    requires RetentionScore(c.retention).score == 100.0 && ResilienceScore(c.resilience).score == 85.0
    requires c.zeroTrust == None
    ensures ExampleScores(Controls(c))
  {
  }

  lemma ScoresOfNearlyReady()
    ensures ExampleScores(Controls(NearlyReady()))
  {
    IamOfExample();
    LoggingOfExample();
    DriftOfExample();
    EncryptionOfExample();
    RetentionOfExample();
    ResilienceOfExample();
    ScoresOfExample(NearlyReady());
  }

  /** The published SOC 2 score is 85.0 and the readiness word is not "Audit Ready". */
  lemma EvidenceIsPublishedButNotReady()
    ensures var overall := Overall(Controls(NearlyReady()), SOC2, true);
      Round1(overall) == 85.0 && ReadinessOf(overall) != AuditReady
  {
    ScoresOfNearlyReady();
    Soc2OfExample(Controls(NearlyReady()));
    PublishedButNotReadyIff(Overall(Controls(NearlyReady()), SOC2, true));
  }

  /** The published posture: 0.35 of 85.0, 0.25 of 87.5, 0.25 of 85.8 and 0.15 of 76.0. */
  lemma PostureOfExample()
    ensures Posture(Controls(NearlyReady())) == 84.5
  {
    var s := Controls(NearlyReady());
    ScoresOfNearlyReady();
    Soc2OfExample(s);
    NistOfExample(s);
    CmmcOfExample(s);
    ZeroTrustOfExample(s);
    NearestTenth(Weighted(85.0, 87.5, 85.8, 76.0), 845);
  }
}
