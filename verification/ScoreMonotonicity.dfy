/**
  Worse metrics never raise a control's score, and neither does lower collection quality. Each
  relation below says which metrics may move in which direction; several may move at once.
 */
module ScoreMonotonicity {
  import opened Prelude
  import opened Scoring

  // ----- comparing metrics ------------------------------------------------------------------------

  /** Equal, or numbers in this order. */
  predicate RawLeq(a: Raw, b: Raw) {
    a == b || (a.Number? && b.Number? && a.r <= b.r)
  }

  /** The metric is present in both or in neither, and `w` has at least the value of `m`. */
  predicate Up(w: Metrics, m: Metrics, k: string) {
    (k in w <==> k in m) && (k in m ==> RawLeq(m[k], w[k]))
  }

  predicate Down(w: Metrics, m: Metrics, k: string) {
    Up(m, w, k)
  }

  predicate Fixed(w: Metrics, m: Metrics, k: string) {
    (k in w <==> k in m) && (k in m ==> w[k] == m[k])
  }

  /** A size stays, or grows from a positive one over a count that is not below zero. */
  predicate Larger(w: Metrics, m: Metrics, k: string, count: int) {
    Fixed(w, m, k) || (Up(w, m, k) && SafeInt(Get(m, k, ZERO), 0) > 0 && count >= 0)
  }

  /** A flag may be lost but not gained. */
  predicate FlagDown(w: Metrics, m: Metrics, k: string) {
    (k in w <==> k in m) && (k in m ==> (w[k] == Null <==> m[k] == Null) && (Truthy(w[k]) ==> Truthy(m[k])))
  }

  lemma TruncateMonotone(a: real, b: real)
    requires a <= b
    ensures Truncate(a) <= Truncate(b)
  {
  }

  lemma ReadsMonotone(a: Raw, b: Raw, i: int, x: real)
    requires RawLeq(a, b)
    ensures SafeInt(a, i) <= SafeInt(b, i) && SafeFloat(a, x) <= SafeFloat(b, x)
  {
    if a.Number? && b.Number? {
      TruncateMonotone(a.r, b.r);
    }
  }

  lemma IntUp(w: Metrics, m: Metrics, k: string, k2: string)
    requires Up(w, m, k) && Up(w, m, k2)
    ensures SafeInt(Get2(m, k, k2, ZERO), 0) <= SafeInt(Get2(w, k, k2, ZERO), 0)
    ensures SafeFloat(Get2(m, k, k2, ZERO), 0.0) <= SafeFloat(Get2(w, k, k2, ZERO), 0.0)
    ensures SafeFloat(Get2(m, k, k2, Null), 0.0) <= SafeFloat(Get2(w, k, k2, Null), 0.0)
  {
    ReadsMonotone(Get2(m, k, k2, ZERO), Get2(w, k, k2, ZERO), 0, 0.0);
    ReadsMonotone(Get2(m, k, k2, Null), Get2(w, k, k2, Null), 0, 0.0);
  }

  lemma OneUp(w: Metrics, m: Metrics, k: string, d: Raw, i: int, x: real)
    requires Up(w, m, k)
    ensures SafeInt(Get(m, k, d), i) <= SafeInt(Get(w, k, d), i)
    ensures SafeFloat(Get(m, k, d), x) <= SafeFloat(Get(w, k, d), x)
    ensures Get(m, k, d) == Null <==> Get(w, k, d) == Null
  {
    ReadsMonotone(Get(m, k, d), Get(w, k, d), i, x);
  }

  lemma SameDivisor(a: real, c: real, b: real)
    requires a <= c && b > 0.0
    ensures a / b <= c / b
  {
    assert c / b - a / b == (c - a) / b;
    assert (c - a) / b >= 0.0;
  }

  lemma QuotientUp(a: real, b: real, c: real, d: real)
    requires a <= c && b >= d > 0.0 && a >= 0.0
    ensures a / b <= c / d
  {
    var q := c / d;
    assert q >= 0.0 && q * d == c;
    assert q * (b - d) >= 0.0;
    SameDivisor(a, q * b, b);
    assert q * b / b == q;
  }

  lemma LargerIsUp(w: Metrics, m: Metrics, k: string, count: int)
    requires Larger(w, m, k, count)
    ensures Up(w, m, k)
    ensures SafeInt(Get(m, k, ZERO), 0) <= SafeInt(Get(w, k, ZERO), 0)
    ensures SafeInt(Get(m, k, ZERO), 0) > 0 <==> SafeInt(Get(w, k, ZERO), 0) > 0
    ensures SafeInt(Get(m, k, ZERO), 0) == 0 <==> SafeInt(Get(w, k, ZERO), 0) == 0
  {
    OneUp(w, m, k, ZERO, 0, 0.0);
  }

  /** A smaller count out of a larger size is a smaller share. */
  lemma RatioDown(w: Metrics, m: Metrics, k: string, size: string)
    requires Down(w, m, k) && Larger(w, m, size, SafeInt(Get(w, k, ZERO), 0))
    ensures var c, d, c', d' := SafeInt(Get(m, k, ZERO), 0), SafeInt(Get(m, size, ZERO), 0),
                                SafeInt(Get(w, k, ZERO), 0), SafeInt(Get(w, size, ZERO), 0);
      && (d > 0 <==> d' > 0) && (d == 0 <==> d' == 0)
      && (d > 0 ==> c' as real / d' as real <= c as real / d as real)
  {
    OneUp(m, w, k, ZERO, 0, 0.0);
    LargerIsUp(w, m, size, SafeInt(Get(w, k, ZERO), 0));
    var c, d := SafeInt(Get(m, k, ZERO), 0), SafeInt(Get(m, size, ZERO), 0);
    var c', d' := SafeInt(Get(w, k, ZERO), 0), SafeInt(Get(w, size, ZERO), 0);
    if d > 0 && d == d' {
      SameDivisor(c' as real, c as real, d as real);
    } else if d > 0 {
      QuotientUp(c' as real, d' as real, c as real, d as real);
    }
  }

  // ----- control by control: what was read --------------------------------------------------------

  predicate IamWorse(x: Iam, y: Iam) {
    x.orphaned >= y.orphaned && x.mfa <= y.mfa && x.reviewDays >= y.reviewDays
  }

  lemma IamNeverRises(x: Iam, y: Iam)
    requires IamWorse(x, y)
    ensures IamRaw(x) <= IamRaw(y)
  {
  }

  /** Without streams there is no going lower: a count below zero would escape the penalty for zero. */
  predicate LoggingWorse(x: Logging, y: Logging) {
    && x.streams <= y.streams && (y.streams == 0 ==> x.streams == 0)
    && x.completeness <= y.completeness && x.retention <= y.retention && x.gapHours >= y.gapHours
  }

  lemma LoggingNeverRises(x: Logging, y: Logging)
    requires LoggingWorse(x, y)
    ensures LoggingRaw(x) <= LoggingRaw(y)
  {
  }

  predicate DriftWorse(x: Drift, y: Drift) {
    && (x.evaluated == y.evaluated || 0 <= x.evaluated <= y.evaluated) && x.drifted >= y.drifted
    && x.openGroups >= y.openGroups && x.unapproved >= y.unapproved
  }

  lemma DriftPenaltyUp(e: int, d: int, e': int, d': int)
    requires (e' == e || 0 <= e' <= e) && d <= d'
    ensures When(e == 0, 50.0) + DriftPenalty(e, d) <= When(e' == 0, 50.0) + DriftPenalty(e', d')
  {
    if e' > 0 && d > 0 {
      QuotientUp(d as real, e as real, d' as real, e' as real);
    }
  }

  lemma DriftNeverRises(x: Drift, y: Drift)
    requires DriftWorse(x, y)
    ensures DriftRaw(x) <= DriftRaw(y)
  {
    DriftPenaltyUp(y.evaluated, y.drifted, x.evaluated, x.drifted);
  }

  predicate EncryptionWorse(x: Encryption, y: Encryption) {
    && (y.undiscovered ==> x.undiscovered) && x.atRest <= y.atRest && x.inTransit <= y.inTransit
    && x.unencrypted >= y.unencrypted && (x.fips ==> y.fips)
  }

  lemma EncryptionNeverRises(x: Encryption, y: Encryption)
    requires EncryptionWorse(x, y)
    ensures EncryptionRaw(x) <= EncryptionRaw(y)
  {
  }

  /** A number of repositories stays, or grows from a positive one over a count that is not below zero. */
  predicate RetentionWorse(x: Retention, y: Retention) {
    && x.past >= y.past && x.compliant <= y.compliant && (x.deletionValid ==> y.deletionValid)
    && (x.repos == y.repos || (x.repos >= y.repos > 0 && x.compliant >= 0))
  }

  lemma LifecyclePenaltyUp(repos: int, c: int, repos': int, c': int)
    requires c' <= c && (repos' == repos || (repos' >= repos > 0 && c' >= 0))
    ensures LifecyclePenalty(repos, c) <= LifecyclePenalty(repos', c')
  {
    if repos' > 0 && c' < repos' {
      ShareDown(repos, c, repos', c');
      QuotientBelow(c' as real, repos' as real, 1.0);
    }
  }

  lemma ShareDown(repos: int, c: int, repos': int, c': int)
    requires c' <= c && repos' > 0 && (repos' == repos || (repos' >= repos > 0 && c' >= 0))
    ensures c' as real / repos' as real <= c as real / repos as real
  {
    if repos' == repos {
      SameDivisor(c' as real, c as real, repos as real);
    } else {
      QuotientUp(c' as real, repos' as real, c as real, repos as real);
    }
  }

  lemma RetentionNeverRises(x: Retention, y: Retention)
    requires RetentionWorse(x, y)
    ensures RetentionRaw(x) <= RetentionRaw(y)
  {
    LifecyclePenaltyUp(y.repos, y.compliant, x.repos, x.compliant);
  }

  /** Fewer backups succeeded; no backup stays none, and a shortage stays a shortage. */
  predicate BackupsWorse(x: Resilience, y: Resilience) {
    && x.success <= y.success
    && (y.jobs == 0 || y.success == 0 ==> x.jobs == 0 || x.success == 0)
    && (y.success < y.jobs ==> x.success < x.jobs || x.jobs == 0)
  }

  predicate ResilienceWorse(x: Resilience, y: Resilience) {
    && BackupsWorse(x, y) && x.failed30d >= y.failed30d && (x.restoreTested ==> y.restoreTested)
    && (y.rtoMissed ==> x.rtoMissed) && (y.rpoMissed ==> x.rpoMissed)
  }

  lemma ResilienceNeverRises(x: Resilience, y: Resilience)
    requires ResilienceWorse(x, y)
    ensures ResilienceRaw(x) <= ResilienceRaw(y)
  {
    assert BackupPenalty(y.success, y.jobs) <= BackupPenalty(x.success, x.jobs);
    assert When(y.failed30d > 0, Min(25.0, y.failed30d as real * 5.0)) <= When(x.failed30d > 0, Min(25.0, x.failed30d as real * 5.0));
  }

  /** Fewer checks passed out of as many or more, no flag gained, no higher maturity level. */
  predicate ZeroTrustFewer(x: ZeroTrust, y: ZeroTrust) {
    && x.passed <= y.passed && (x.total == y.total || (x.total >= y.total > 0 && x.passed >= 0))
    && (x.identity ==> y.identity) && (x.device ==> y.device)
    && (x.leastPrivilege ==> y.leastPrivilege) && (x.monitoring ==> y.monitoring)
    && x.maturity <= y.maturity
  }

  /** The maturity level does not step in for more flags than were lost: it steps in only without checks and flags. */
  predicate NoFallbackGain(x: ZeroTrust, y: ZeroTrust) {
    x.total > 0 || FlagCount(x) > 0 || FlagCount(y) == 0 || x.maturity <= FlagCount(y) as real
  }

  lemma ZeroTrustRisesOnlyByFallback(x: ZeroTrust, y: ZeroTrust)
    requires ZeroTrustFewer(x, y)
    ensures ZeroTrustRaw(x) <= ZeroTrustRaw(y) <==> NoFallbackGain(x, y)
  {
    assert FlagCount(x) <= FlagCount(y);
    if x.total > 0 {
      if x.total == y.total {
        SameDivisor(x.passed as real, y.passed as real, x.total as real);
      } else {
        QuotientUp(x.passed as real, x.total as real, y.passed as real, y.total as real);
      }
    }
  }

  /** Or what it gains is cut off: above four flags at 100, and above three at the cap on partial evidence. */
  predicate FallbackHarmless(quality: string, x: ZeroTrust, y: ZeroTrust) {
    NoFallbackGain(x, y) || FlagCount(y) == 4 || (quality == "partial" && FlagCount(y) == 3)
  }

  /**
    The finished zero trust score, exactly: fewer checks, flags and a lower maturity level never raise
    it, at the same or a lower quality, unless the maturity level steps in for lost flags to effect.
   */
  lemma ZeroTrustNeverRisesIff(q: string, x: ZeroTrust, q': string, y: ZeroTrust)
    requires ZeroTrustFewer(x, y) && q != "failed" && Rank(q) <= Rank(q')
    ensures Finish(q, ZeroTrustRaw(x)) <= Finish(q', ZeroTrustRaw(y)) <==> FallbackHarmless(q, x, y)
  {
    ZeroTrustRisesOnlyByFallback(x, y);
    if NoFallbackGain(x, y) {
      FinishMonotone(q, ZeroTrustRaw(x), q', ZeroTrustRaw(y));
    } else {
      assert y.total <= 0 && ZeroTrustRaw(y) == FlagCount(y) as real * 25.0;
      assert ZeroTrustRaw(x) == x.maturity * 25.0 > FlagCount(y) as real * 25.0;
    }
  }

  // ----- control by control: the metrics themselves -----------------------------------------------

  predicate IamMetricsWorse(w: Metrics, m: Metrics) {
    && Up(w, m, "orphaned_accounts") && Up(w, m, "days_since_last_review")
    && Down(w, m, "mfa_enforced_percentage") && Down(w, m, "mfa_enforcement_percent")
  }

  lemma IamReadsWorse(w: Metrics, m: Metrics)
    requires IamMetricsWorse(w, m)
    ensures IamWorse(ReadIam(w), ReadIam(m))
  {
    OneUp(w, m, "orphaned_accounts", ZERO, 0, 0.0);
    OneUp(w, m, "days_since_last_review", Null, 999, 0.0);
    IntUp(m, w, "mfa_enforced_percentage", "mfa_enforcement_percent");
  }

  predicate LoggingMetricsWorse(w: Metrics, m: Metrics) {
    && Down(w, m, "log_streams_active") && Down(w, m, "active_trails")
    && (ReadLogging(m).streams == 0 ==> ReadLogging(w).streams == 0)
    && Down(w, m, "critical_events_logged_percentage") && Down(w, m, "log_coverage_percent")
    && Down(w, m, "retention_days") && Down(w, m, "cui_retention_days")
    && Up(w, m, "longest_gap_hours") && Up(w, m, "max_gap_hours")
  }

  lemma LoggingReadsWorse(w: Metrics, m: Metrics)
    requires LoggingMetricsWorse(w, m)
    ensures LoggingWorse(ReadLogging(w), ReadLogging(m))
  {
    IntUp(m, w, "log_streams_active", "active_trails");
    IntUp(m, w, "critical_events_logged_percentage", "log_coverage_percent");
    IntUp(m, w, "retention_days", "cui_retention_days");
    IntUp(w, m, "longest_gap_hours", "max_gap_hours");
  }

  predicate DriftMetricsWorse(w: Metrics, m: Metrics) {
    && Down(w, m, "resources_evaluated") && (Fixed(w, m, "resources_evaluated") || ReadDrift(w).evaluated >= 0)
    && Up(w, m, "drifted_resources") && Up(w, m, "config_noncompliant_resources")
    && Up(w, m, "open_security_groups") && Up(w, m, "open_http_listeners")
    && Up(w, m, "unapproved_changes_detected") && Up(w, m, "unapproved_changes")
  }

  lemma DriftReadsWorse(w: Metrics, m: Metrics)
    requires DriftMetricsWorse(w, m)
    ensures DriftWorse(ReadDrift(w), ReadDrift(m))
  {
    OneUp(m, w, "resources_evaluated", ZERO, 0, 0.0);
    IntUp(w, m, "drifted_resources", "config_noncompliant_resources");
    IntUp(w, m, "open_security_groups", "open_http_listeners");
    IntUp(w, m, "unapproved_changes_detected", "unapproved_changes");
  }

  predicate EncryptionMetricsWorse(w: Metrics, m: Metrics) {
    && Larger(w, m, "total_confidential_resources", SafeInt(Get(w, "encrypted_at_rest", ZERO), 0))
    && Down(w, m, "encrypted_at_rest")
    && Down(w, m, "encrypted_at_rest_percentage") && Down(w, m, "tls_enforced_percentage")
    && Up(w, m, "weak_cipher_endpoints")
    && (Fixed(w, m, "weak_cipher_endpoints") || SafeInt(Get(m, "weak_cipher_endpoints", ZERO), 0) >= 0)
    && Up(w, m, "unencrypted_data_stores") && Up(w, m, "unencrypted_cui_count")
    && FlagDown(w, m, "fips_compliant_algorithms") && Down(w, m, "fips_compliant_keys")
  }

  lemma EncryptionReadsWorse(w: Metrics, m: Metrics)
    requires EncryptionMetricsWorse(w, m)
    ensures EncryptionWorse(ReadEncryption(w), ReadEncryption(m))
  {
    OneUp(m, w, "encrypted_at_rest", ZERO, 0, 0.0);
    OneUp(m, w, "encrypted_at_rest_percentage", ZERO, 0, 0.0);
    OneUp(m, w, "tls_enforced_percentage", Null, 0, 0.0);
    OneUp(w, m, "weak_cipher_endpoints", ZERO, 0, 0.0);
    OneUp(m, w, "fips_compliant_keys", ZERO, 0, 0.0);
    IntUp(w, m, "unencrypted_data_stores", "unencrypted_cui_count");
    RatioDown(w, m, "encrypted_at_rest", "total_confidential_resources");
  }

  /** The repositories compliant with a lifecycle are given, not derived from the number of repositories. */
  predicate CompliantGiven(m: Metrics) {
    "compliant_repositories" in m || "compliant_buckets" in m
  }

  predicate RepositoriesLarger(w: Metrics, m: Metrics) {
    || (Fixed(w, m, "repositories_checked") && Fixed(w, m, "policies_checked") && Fixed(w, m, "buckets_checked"))
    || (CompliantGiven(m) && Up(w, m, "repositories_checked") && Up(w, m, "policies_checked") && Up(w, m, "buckets_checked")
        && ReadRetention(m).repos > 0 && ReadRetention(w).compliant >= 0)
  }

  predicate RetentionMetricsWorse(w: Metrics, m: Metrics) {
    && Up(w, m, "objects_past_retention") && (Fixed(w, m, "objects_past_retention") || ReadRetention(m).past >= 0)
    && RepositoriesLarger(w, m)
    && Up(w, m, "repositories_missing_lifecycle") && Up(w, m, "buckets_missing_lifecycle") && Up(w, m, "accounts_missing_lifecycle")
    && Down(w, m, "compliant_repositories") && Down(w, m, "compliant_buckets")
    && FlagDown(w, m, "deletion_certificates_valid")
  }

  lemma ThreeUp(w: Metrics, m: Metrics, k: string, k2: string, k3: string)
    requires Up(w, m, k) && Up(w, m, k2) && Up(w, m, k3)
    ensures SafeInt(Get(m, k, Get2(m, k2, k3, ZERO)), 0) <= SafeInt(Get(w, k, Get2(w, k2, k3, ZERO)), 0)
  {
    ReadsMonotone(Get(m, k, Get2(m, k2, k3, ZERO)), Get(w, k, Get2(w, k2, k3, ZERO)), 0, 0.0);
  }

  lemma CompliantDown(w: Metrics, m: Metrics, rest: int, rest': int)
    requires Down(w, m, "compliant_repositories") && Down(w, m, "compliant_buckets")
    requires CompliantGiven(m) || rest' <= rest
    ensures SafeInt(Get2(w, "compliant_repositories", "compliant_buckets", Number(rest' as real)), 0)
         <= SafeInt(Get2(m, "compliant_repositories", "compliant_buckets", Number(rest as real)), 0)
  {
    ReadsMonotone(Get2(w, "compliant_repositories", "compliant_buckets", Number(rest' as real)),
                  Get2(m, "compliant_repositories", "compliant_buckets", Number(rest as real)), 0, 0.0);
  }

  function Rest(m: Metrics): int {
    var missing := SafeInt(Get(m, "repositories_missing_lifecycle",
                               Get2(m, "buckets_missing_lifecycle", "accounts_missing_lifecycle", ZERO)), 0);
    if ReadRetention(m).repos - missing > 0 then ReadRetention(m).repos - missing else 0
  }

  lemma RetentionReadsWorse(w: Metrics, m: Metrics)
    requires RetentionMetricsWorse(w, m)
    ensures RetentionWorse(ReadRetention(w), ReadRetention(m))
  {
    OneUp(w, m, "objects_past_retention", ZERO, 0, 0.0);
    ThreeUp(w, m, "repositories_missing_lifecycle", "buckets_missing_lifecycle", "accounts_missing_lifecycle");
    ThreeUp(w, m, "repositories_checked", "policies_checked", "buckets_checked");
    CompliantDown(w, m, Rest(m), Rest(w));
  }

  predicate ResilienceMetricsWorse(w: Metrics, m: Metrics) {
    && Down(w, m, "successful_backups_24h") && (Fixed(w, m, "successful_backups_24h") || ReadResilience(w).success >= 0)
    && Larger(w, m, "backup_jobs_evaluated", 0)
    && Up(w, m, "last_backup_hours_ago") && Up(w, m, "backup_jobs_failed_30d")
    && FlagDown(w, m, "restore_tested_90d") && Up(w, m, "last_restore_test_days_ago")
    && (Missed(Get(m, "rto_target_met", Null)) ==> Missed(Get(w, "rto_target_met", Null)))
    && (Missed(Get(m, "rpo_target_met", Null)) ==> Missed(Get(w, "rpo_target_met", Null)))
  }

  lemma BackupsReadWorse(w: Metrics, m: Metrics)
    requires ResilienceMetricsWorse(w, m)
    ensures BackupsWorse(ReadResilience(w), ReadResilience(m))
  {
    OneUp(m, w, "successful_backups_24h", Null, 0, 0.0);
    LargerIsUp(w, m, "backup_jobs_evaluated", 0);
    if "backup_jobs_evaluated" in m {
      var a, b := m["backup_jobs_evaluated"], w["backup_jobs_evaluated"];
      ReadsMonotone(a, b, 0, 0.0);
      assert a.Number? ==> Get(m, "backup_jobs_evaluated", Null) == Get(m, "backup_jobs_evaluated", ZERO);
    }
    OneUp(w, m, "last_backup_hours_ago", Null, 0, 999.0);
  }

  lemma ResilienceReadsWorse(w: Metrics, m: Metrics)
    requires ResilienceMetricsWorse(w, m)
    ensures ResilienceWorse(ReadResilience(w), ReadResilience(m))
  {
    BackupsReadWorse(w, m);
    OneUp(w, m, "backup_jobs_failed_30d", Null, 0, 0.0);
    OneUp(w, m, "last_restore_test_days_ago", Null, 999, 0.0);
  }

  predicate ZeroTrustMetricsWorse(w: Evidence, m: Evidence) {
    && Down(w.metrics, m.metrics, "checks_passed") && Larger(w.metrics, m.metrics, "checks_total", ReadZeroTrust(w).passed)
    && Down(w.metrics, m.metrics, "zt_maturity_score")
    && FlagDown(w.metrics, m.metrics, "identity_verified") && FlagDown(w.composite, m.composite, "iam_review_current")
    && FlagDown(w.metrics, m.metrics, "device_health_checked") && FlagDown(w.composite, m.composite, "session_timeout_compliant")
    && FlagDown(w.metrics, m.metrics, "least_privilege_enforced") && FlagDown(w.composite, m.composite, "mfa_enforced")
    && FlagDown(w.metrics, m.metrics, "continuous_monitoring_active") && FlagDown(w.composite, m.composite, "encryption_green")
  }

  lemma ZeroTrustReadsWorse(w: Evidence, m: Evidence)
    requires ZeroTrustMetricsWorse(w, m)
    ensures ZeroTrustFewer(ReadZeroTrust(w), ReadZeroTrust(m))
  {
    OneUp(m.metrics, w.metrics, "checks_passed", ZERO, 0, 0.0);
    OneUp(m.metrics, w.metrics, "zt_maturity_score", ZERO, 0, 0.0);
    LargerIsUp(w.metrics, m.metrics, "checks_total", ReadZeroTrust(w).passed);
  }

  // ----- where worse can score higher -------------------------------------------------------------

  /**
    The maturity fallback is not monotone. Losing flags, from `b` to `a` of them, never raises the
    finished score exactly when a flag is left, there was none, the maturity level does not exceed the
    flags there were, or all it adds is cut off.
   */
  lemma LosingFlagsIsSafeIff(quality: string, maturity: real, a: nat, b: nat)
    requires a <= b <= 4
    ensures Finish(quality, FlagRaw(a, maturity)) <= Finish(quality, FlagRaw(b, maturity)) <==>
      a > 0 || b == 0 || maturity <= b as real || b == 4 || (quality == "partial" && b == 3)
  {
  }

  /** So losing flags is safe from any number to any number exactly at a maturity level of at most 1. */
  lemma LosingAnyFlagsIsSafeIff(quality: string, maturity: real)
    ensures (forall a: nat, b: nat :: a <= b <= 4 ==>
              Finish(quality, FlagRaw(a, maturity)) <= Finish(quality, FlagRaw(b, maturity)))
       <==> maturity <= 1.0
  {
    LosingFlagsIsSafeIff(quality, maturity, 0, 1);
    forall a: nat, b: nat | a <= b <= 4 && maturity <= 1.0
      ensures Finish(quality, FlagRaw(a, maturity)) <= Finish(quality, FlagRaw(b, maturity))
    {
      LosingFlagsIsSafeIff(quality, maturity, a, b);
    }
  }

  /**
    A stream count below zero escapes the penalty for zero: losing streams never raises the logging
    score exactly when the collection failed anyway or it does not lead from none to less than none.
   */
  lemma LosingStreamsIsSafeIff(w: Evidence, m: Evidence)
    requires w.quality == m.quality && ReadLogging(w.metrics).streams <= ReadLogging(m.metrics).streams
    requires ReadLogging(w.metrics) == ReadLogging(m.metrics).(streams := ReadLogging(w.metrics).streams)
    ensures LoggingScore(Some(w)).score <= LoggingScore(Some(m)).score <==>
      m.quality == "failed" || (ReadLogging(m.metrics).streams == 0 ==> ReadLogging(w.metrics).streams == 0)
  {
  }

  lemma WithoutReview(m: Metrics)
    requires "days_since_last_review" in m && m["days_since_last_review"] != Null
    ensures ReadIam(m - {"days_since_last_review"}) == ReadIam(m).(reviewDays := 0)
    ensures ReadIam(m).reviewDays == SafeInt(m["days_since_last_review"], 999)
  {
    var k, less := "days_since_last_review", m - {"days_since_last_review"};
    assert |k| == 22 && |"orphaned_accounts"| == 17 && |"mfa_enforced_percentage"| == 23 && |"mfa_enforcement_percent"| == 23;
    assert Get(less, k, Null) == Null;
    assert Get(less, "orphaned_accounts", ZERO) == Get(m, "orphaned_accounts", ZERO);
  }

  /**
    Withholding the date of the last review raises the control score exactly when the review is overdue
    and the score counts: the collection has not failed, and no cap on partial evidence hides the gain.
   */
  lemma WithholdingReviewPaysIff(e: Evidence)
    requires "days_since_last_review" in e.metrics && e.metrics["days_since_last_review"] != Null
    ensures IamScore(Some(e.(metrics := e.metrics - {"days_since_last_review"}))).score > IamScore(Some(e)).score <==>
      && SafeInt(e.metrics["days_since_last_review"], 999) > 90
      && e.quality != "failed" && (e.quality != "partial" || IamRaw(ReadIam(e.metrics)) < 70.0)
  {
    WithoutReview(e.metrics);
  }

  /**
    Reporting no repositories at all instead of some raises the retention score exactly when fewer than
    three in seven were compliant and the score counts.
   */
  lemma LosingRepositoriesPaysIff(w: Evidence, m: Evidence)
    requires w.quality == m.quality && ReadRetention(m.metrics).repos > 0 && ReadRetention(m.metrics).compliant >= 0
    requires ReadRetention(w.metrics) == ReadRetention(m.metrics).(repos := 0)
    ensures RetentionScore(Some(w)).score > RetentionScore(Some(m)).score <==>
      && 7 * ReadRetention(m.metrics).compliant < 3 * ReadRetention(m.metrics).repos
      && m.quality != "failed" && RetentionRaw(ReadRetention(w.metrics)) > 0.0
  {
    LifecyclePenaltyAboveFortyIff(ReadRetention(m.metrics).repos, ReadRetention(m.metrics).compliant);
  }

  lemma LifecyclePenaltyAboveFortyIff(repos: int, c: int)
    requires repos > 0 && c >= 0
    ensures LifecyclePenalty(repos, c) > 40.0 <==> 7 * c < 3 * repos
    ensures LifecyclePenalty(repos, c) <= 70.0
  {
    var q := c as real / repos as real;
    QuotientBelow(c as real, repos as real, 1.0);
    QuotientBelow(c as real, repos as real, 3.0 / 7.0);
    QuotientBelow(c as real, repos as real, 0.0);
    assert LifecyclePenalty(repos, c) == if q < 1.0 then (100.0 - q * 100.0) * 0.7 else 0.0;
  }

  lemma QuotientBelow(a: real, b: real, c: real)
    requires b > 0.0
    ensures a / b < c <==> a < c * b
  {
    var q := a / b;
    assert q * b == a;
    if q < c {
      assert (c - q) * b > 0.0;
    } else {
      assert (q - c) * b >= 0.0;
    }
  }

  // ----- finishing --------------------------------------------------------------------------------

  /** complete (and any other word) above partial above failed. */
  function Rank(quality: string): nat {
    if quality == "failed" then 0 else if quality == "partial" then 1 else 2
  }

  lemma FinishMonotone(q: string, x: real, q': string, y: real)
    requires x <= y && Rank(q) <= Rank(q') && (q == q' || q != "failed")
    ensures Finish(q, x) <= Finish(q', y)
  {
  }

  /** Every score is a percentage, failed and missing evidence scores nothing, and partial evidence never passes. */
  lemma GradedRange(id: string, data: Option<Evidence>, raw: Evidence -> real)
    ensures var c := Graded(id, data, raw);
      && c.controlId == id && 0.0 <= c.score <= 100.0
      && (data == None || data.value.quality == "failed" ==> c.score == 0.0 && c.status != PASS)
      && (data.Some? && data.value.quality == "partial" ==> c.score <= 70.0 && c.status != PASS)
  {
  }

  lemma GradedMonotone(id: string, w: Option<Evidence>, m: Option<Evidence>, raw: Evidence -> real)
    requires w.Some? ==> m.Some? && Rank(w.value.quality) <= Rank(m.value.quality)
    requires w.Some? && w.value.quality != "failed" ==> raw(w.value) <= raw(m.value)
    ensures Graded(id, w, raw).score <= Graded(id, m, raw).score
  {
    GradedRange(id, m, raw);
    if w.Some? && w.value.quality != "failed" {
      FinishMonotone(w.value.quality, raw(w.value), m.value.quality, raw(m.value));
    }
  }
}
