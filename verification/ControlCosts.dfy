/** What each finding costs a control, where its cost stops growing, and what score still passes. */
module ControlCosts {
  import opened Prelude
  import opened Scoring
  import opened Scorecard

  /** 5 points for each of the first six orphaned accounts, 0.8 for each of the first fifty points of missing MFA, 20 for an overdue review. */
  lemma IamCosts(x: Iam)
    ensures IamRaw(x) == 100.0 <==> x.orphaned <= 0 && x.mfa >= 100.0 && x.reviewDays <= 90
    ensures 0 <= x.orphaned <= 6 ==> IamRaw(x.(orphaned := 0)) - IamRaw(x) == 5.0 * x.orphaned as real
    ensures x.orphaned > 6 ==> IamRaw(x.(orphaned := 0)) - IamRaw(x) == 30.0
    ensures 50.0 <= x.mfa <= 100.0 ==> IamRaw(x.(mfa := 100.0)) - IamRaw(x) == 0.8 * (100.0 - x.mfa)
    ensures x.mfa < 50.0 ==> IamRaw(x.(mfa := 100.0)) - IamRaw(x) == 40.0
    ensures x.reviewDays > 90 ==> IamRaw(x.(reviewDays := 0)) - IamRaw(x) == 20.0
  {
  }

  /** 50 points for having no stream, 1.5 for each point of completeness below 95 up to 40, 20 for under a year, 20 for over a day without logs. */
  lemma LoggingCosts(x: Logging)
    ensures LoggingRaw(x) == 100.0 <==> x.streams != 0 && x.completeness >= 95.0 && x.retention >= 365 && x.gapHours <= 24.0
    ensures x.streams == 0 ==> LoggingRaw(x.(streams := 1)) - LoggingRaw(x) == 50.0
    ensures 70.0 <= x.completeness <= 95.0 ==> LoggingRaw(x.(completeness := 95.0)) - LoggingRaw(x) == 1.5 * (95.0 - x.completeness)
    ensures x.completeness < 68.0 ==> LoggingRaw(x.(completeness := 95.0)) - LoggingRaw(x) == 40.0
    ensures x.retention < 365 ==> LoggingRaw(x.(retention := 365)) - LoggingRaw(x) == 20.0
    ensures x.gapHours > 24.0 ==> LoggingRaw(x.(gapHours := 24.0)) - LoggingRaw(x) == 20.0
  {
  }

  /** 50 points for having nothing evaluated, 20 for each of two open groups, 15 for each of two unapproved changes, half the drift rate up to 30. */
  lemma DriftCosts(x: Drift)
    ensures x.evaluated == 0 ==> DriftRaw(x.(evaluated := 1, drifted := 0)) - DriftRaw(x.(drifted := 0)) == 50.0
    ensures 0 <= x.openGroups <= 2 ==> DriftRaw(x.(openGroups := 0)) - DriftRaw(x) == 20.0 * x.openGroups as real
    ensures x.openGroups > 2 ==> DriftRaw(x.(openGroups := 0)) - DriftRaw(x) == 40.0
    ensures 0 <= x.unapproved <= 2 ==> DriftRaw(x.(unapproved := 0)) - DriftRaw(x) == 15.0 * x.unapproved as real
    ensures x.unapproved > 2 ==> DriftRaw(x.(unapproved := 0)) - DriftRaw(x) == 30.0
    ensures x.evaluated > 0 && x.drifted == 0 && x.openGroups <= 0 && x.unapproved <= 0 ==> DriftRaw(x) == 100.0
  {
  }

  lemma DriftRateCosts(x: Drift)
    requires x.evaluated > 0 && x.drifted > 0
    ensures var rate := 100.0 * (x.drifted as real / x.evaluated as real);
      DriftRaw(x.(drifted := 0)) - DriftRaw(x) == if rate <= 60.0 then rate / 2.0 else 30.0
  {
  }

  /** 40 points for finding nothing, 25 for each of two unencrypted stores, 0.4 for each missing percent at rest and in transit, 10 without FIPS. */
  lemma EncryptionCosts(x: Encryption)
    ensures x.undiscovered ==> EncryptionRaw(x.(undiscovered := false)) - EncryptionRaw(x) == 40.0
    ensures 0 <= x.unencrypted <= 2 ==> EncryptionRaw(x.(unencrypted := 0)) - EncryptionRaw(x) == 25.0 * x.unencrypted as real
    ensures x.unencrypted > 2 ==> EncryptionRaw(x.(unencrypted := 0)) - EncryptionRaw(x) == 50.0
    ensures x.atRest <= 100.0 ==> EncryptionRaw(x.(atRest := 100.0)) - EncryptionRaw(x) == 0.4 * (100.0 - x.atRest)
    ensures x.inTransit <= 100.0 ==> EncryptionRaw(x.(inTransit := 100.0)) - EncryptionRaw(x) == 0.4 * (100.0 - x.inTransit)
    ensures !x.fips ==> EncryptionRaw(x.(fips := true)) - EncryptionRaw(x) == 10.0
    ensures EncryptionRaw(Encryption(false, 100.0, 100.0, 0, true)) == 100.0
  {
  }

  /** 40 points for checking nothing, 10 for each of four objects past retention, 0.7 for each percent of repositories without a lifecycle, 20 without certificates. */
  lemma RetentionCosts(x: Retention)
    ensures x.repos == 0 ==> RetentionRaw(x.(repos := 1, compliant := 1)) - RetentionRaw(x) == 40.0
    ensures 0 <= x.past <= 4 ==> RetentionRaw(x.(past := 0)) - RetentionRaw(x) == 10.0 * x.past as real
    ensures x.past > 4 ==> RetentionRaw(x.(past := 0)) - RetentionRaw(x) == 40.0
    ensures !x.deletionValid ==> RetentionRaw(x.(deletionValid := true)) - RetentionRaw(x) == 20.0
    ensures x.repos > 0 && x.compliant == 0 ==> RetentionRaw(x.(compliant := x.repos)) - RetentionRaw(x) == 70.0
    ensures RetentionRaw(Retention(0, 1, 1, true)) == 100.0
  {
  }

  lemma LifecycleCosts(x: Retention)
    requires x.repos > 0 && 0 <= x.compliant <= x.repos
    ensures var missing := 100.0 - 100.0 * (x.compliant as real / x.repos as real);
      RetentionRaw(x.(compliant := x.repos)) - RetentionRaw(x) == if x.compliant < x.repos then 0.7 * missing else 0.0
  {
  }

  /** 40 points without a backup, 20 for a shortage, 5 for each of five failed jobs, 30 without a restore test, 15 for each missed objective. */
  lemma ResilienceCosts(x: Resilience)
    ensures x.jobs == 0 || x.success == 0 ==> ResilienceRaw(x.(jobs := 1, success := 1)) - ResilienceRaw(x) == 40.0
    ensures 0 < x.success < x.jobs ==> ResilienceRaw(x.(success := x.jobs)) - ResilienceRaw(x) == 20.0
    ensures 0 <= x.failed30d <= 5 ==> ResilienceRaw(x.(failed30d := 0)) - ResilienceRaw(x) == 5.0 * x.failed30d as real
    ensures x.failed30d > 5 ==> ResilienceRaw(x.(failed30d := 0)) - ResilienceRaw(x) == 25.0
    ensures !x.restoreTested ==> ResilienceRaw(x.(restoreTested := true)) - ResilienceRaw(x) == 30.0
    ensures x.rtoMissed ==> ResilienceRaw(x.(rtoMissed := false)) - ResilienceRaw(x) == 15.0
    ensures x.rpoMissed ==> ResilienceRaw(x.(rpoMissed := false)) - ResilienceRaw(x) == 15.0
    ensures ResilienceRaw(Resilience(1, 1, 0, true, false, false)) == 100.0
  {
  }

  /** With checks the share that passed, without them 25 points a flag, and the maturity level times 25 with neither. */
  lemma ZeroTrustShares(z: ZeroTrust)
    ensures z.total > 0 ==> ZeroTrustRaw(z) * z.total as real == 100.0 * z.passed as real
    ensures z.total <= 0 && z.identity && z.device && z.leastPrivilege && z.monitoring ==> ZeroTrustRaw(z) == 100.0
    ensures z.total <= 0 && (z.identity || z.device || z.leastPrivilege || z.monitoring) ==> ZeroTrustRaw(z) == 25.0 * FlagCount(z) as real
    ensures z.total <= 0 && FlagCount(z) == 0 && z.maturity > 0.0 ==> ZeroTrustRaw(z) == 25.0 * z.maturity
    ensures FlagCount(z.(identity := true)) == FlagCount(z.(identity := false)) + 1
    ensures FlagCount(z.(device := true)) == FlagCount(z.(device := false)) + 1
    ensures FlagCount(z.(leastPrivilege := true)) == FlagCount(z.(leastPrivilege := false)) + 1
    ensures FlagCount(z.(monitoring := true)) == FlagCount(z.(monitoring := false)) + 1
  {
    if z.total > 0 {
      assert z.passed as real / z.total as real * z.total as real == z.passed as real;
    }
  }

  // ----- finished scores --------------------------------------------------------------------------

  /** A finished score is the raw one where that lies within bounds: 0 and 100, or 70 for partial evidence. */
  lemma FinishedWithinBounds(quality: string, raw: real)
    ensures 0.0 <= raw <= 70.0 ==> Finish(quality, raw) == raw
    ensures raw < 0.0 ==> Finish(quality, raw) == 0.0
    ensures raw > 70.0 && quality == "partial" ==> Finish(quality, raw) == 70.0
    ensures 70.0 < raw <= 100.0 && quality != "partial" ==> Finish(quality, raw) == raw
    ensures raw > 100.0 && quality != "partial" ==> Finish(quality, raw) == 100.0
  {
  }

  /** A control that was collected passes from 85 points and is partial from 50. */
  lemma StatusIff(id: string, e: Evidence, raw: Evidence -> real)
    ensures var c := Graded(id, Some(e), raw);
      && (c.status == PASS <==> e.quality != "failed" && e.quality != "partial" && raw(e) >= 85.0)
      && (c.status == PARTIAL <==> e.quality != "failed" && raw(e) >= 50.0 && c.status != PASS)
      && c.status != NOT_ASSESSED && Graded(id, None, raw).status == NOT_ASSESSED
  {
  }

  /** "Audit Ready" from 85, substantial from 70, remediation from 50. */
  lemma ReadinessIff(overall: real)
    ensures ReadinessOf(overall) == AuditReady <==> overall >= 85.0
    ensures ReadinessOf(overall) in {AuditReady, Substantial} <==> overall >= 70.0
    ensures ReadinessOf(overall) == CriticalGaps <==> overall < 50.0
  {
  }

  /** A count of controls by status is full exactly when all of them have it. */
  lemma {:induction false} CountIsFullIff(scores: seq<ControlScore>, which: set<Status>)
    ensures CountStatus(scores, which) <= |scores|
    ensures CountStatus(scores, which) == |scores| <==> forall i :: 0 <= i < |scores| ==> scores[i].status in which
  {
    if scores != [] {
      CountIsFullIff(scores[..|scores| - 1], which);
    }
  }

  /** `int()` cuts off toward zero; texts are read as numbers where they are numbers, everything else takes the default. */
  lemma ReadingNumbers(r: real, d: int, x: real, i: int, f: Option<real>, empty: bool)
    ensures r >= 0.0 ==> SafeInt(Number(r), d) as real <= r < (SafeInt(Number(r), d) + 1) as real
    ensures r <= 0.0 ==> (SafeInt(Number(r), d) - 1) as real < r <= SafeInt(Number(r), d) as real
    ensures SafeInt(Null, d) == d && SafeFloat(Null, x) == x && SafeFloat(Number(r), x) == r
    ensures SafeInt(Text(Some(i), f, empty), d) == i && SafeInt(Text(None, f, empty), d) == d
    ensures SafeFloat(Text(Some(i), f, empty), x) == if f.Some? then f.value else x
    ensures SafeInt(Container(empty), d) == d && SafeFloat(Container(empty), x) == x
  {
  }
}
