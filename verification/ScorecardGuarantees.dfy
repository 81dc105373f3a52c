/** What the published posture score guarantees through all its averages and roundings. */
module ScorecardGuarantees {
  import opened Prelude
  import opened Rounding
  import opened Scoring
  import opened ScoreMonotonicity
  import opened Scorecard

  // ----- means ------------------------------------------------------------------------------------

  /** Entry by entry, `b` is above `a` minus `e`. */
  ghost predicate NotBelow(a: seq<real>, b: seq<real>, e: real) {
    |a| == |b| && forall i :: 0 <= i < |a| ==> a[i] - e <= b[i]
  }

  lemma {:induction false} SumNotBelow(a: seq<real>, b: seq<real>, e: real)
    requires NotBelow(a, b, e)
    ensures Sum(a) - e * |a| as real <= Sum(b)
  {
    if a != [] {
      var n := |a| - 1;
      SumNotBelow(a[..n], b[..n], e);
      assert e * |a| as real == e * n as real + e;
    }
  }

  /** Means keep an entrywise order, and an entrywise error. */
  lemma MeanNotBelow(a: seq<real>, b: seq<real>, e: real)
    requires NotBelow(a, b, e) && e >= 0.0
    ensures Mean(a) - e <= Mean(b)
  {
    if a != [] {
      SumNotBelow(a, b, e);
      var n := |a| as real;
      SameDivisor(Sum(a) - e * n, Sum(b), n);
      assert (Sum(a) - e * n) / n == Sum(a) / n - e;
    }
  }

  ghost predicate Percentages(xs: seq<real>) {
    forall i :: 0 <= i < |xs| ==> 0.0 <= xs[i] <= 100.0
  }

  lemma {:induction false} SumOfPercentages(xs: seq<real>)
    requires Percentages(xs)
    ensures 0.0 <= Sum(xs) <= 100.0 * |xs| as real
  {
    if xs != [] {
      SumOfPercentages(xs[..|xs| - 1]);
    }
  }

  lemma MeanOfPercentages(xs: seq<real>)
    requires Percentages(xs)
    ensures 0.0 <= Mean(xs) <= 100.0
  {
    if xs != [] {
      SumOfPercentages(xs);
      var n := |xs| as real;
      SameDivisor(0.0, Sum(xs), n);
      SameDivisor(Sum(xs), 100.0 * n, n);
      assert 100.0 * n / n == 100.0;
    }
  }

  // ----- monotonicity -----------------------------------------------------------------------------

  /** The same controls, none scored higher in `w` than in `m`. */
  ghost predicate ScoredLower(w: seq<ControlScore>, m: seq<ControlScore>) {
    |w| == |m| && forall i :: 0 <= i < |w| ==> w[i].controlId == m[i].controlId && w[i].score <= m[i].score
  }

  lemma {:induction false} MatchedLower(w: seq<ControlScore>, m: seq<ControlScore>, ids: seq<string>)
    requires ScoredLower(w, m)
    ensures NotBelow(Matched(w, ids), Matched(m, ids), 0.0)
  {
    if w != [] {
      MatchedLower(w[..|w| - 1], m[..|m| - 1], ids);
    }
  }

  lemma PillarLower(w: seq<ControlScore>, m: seq<ControlScore>, p: Pillar, rounded: bool)
    requires ScoredLower(w, m)
    ensures PillarScore(w, p, rounded) <= PillarScore(m, p, rounded)
  {
    MatchedLower(w, m, p.controls);
    MeanNotBelow(Matched(w, p.controls), Matched(m, p.controls), 0.0);
    Round1Monotone(Mean(Matched(w, p.controls)), Mean(Matched(m, p.controls)));
  }

  lemma OverallLower(w: seq<ControlScore>, m: seq<ControlScore>, pillars: seq<Pillar>, rounded: bool)
    requires ScoredLower(w, m)
    ensures Overall(w, pillars, rounded) <= Overall(m, pillars, rounded)
  {
    if pillars == [] {
      MeanNotBelow(AllScores(w), AllScores(m), 0.0);
    } else {
      var a, b := PillarScores(w, pillars, rounded), PillarScores(m, pillars, rounded);
      forall i | 0 <= i < |pillars| ensures a[i] <= b[i] {
        PillarLower(w, m, pillars[i], rounded);
      }
      MeanNotBelow(a, b, 0.0);
    }
  }

  lemma FrameworkLower(w: seq<ControlScore>, m: seq<ControlScore>, pillars: seq<Pillar>)
    requires ScoredLower(w, m)
    ensures Round1(Overall(w, pillars, true)) <= Round1(Overall(m, pillars, true))
  {
    OverallLower(w, m, pillars, true);
    Round1Monotone(Overall(w, pillars, true), Overall(m, pillars, true));
  }

  lemma PostureLower(w: seq<ControlScore>, m: seq<ControlScore>)
    requires ScoredLower(w, m)
    ensures Posture(w) <= Posture(m)
  {
    FrameworkLower(w, m, SOC2);
    FrameworkLower(w, m, NIST);
    FrameworkLower(w, m, CMMC);
    FrameworkLower(w, m, ZERO_TRUST);
    Round1Monotone(
      Weighted(Round1(Overall(w, SOC2, true)), Round1(Overall(w, NIST, true)), Round1(Overall(w, CMMC, true)), Round1(Overall(w, ZERO_TRUST, true))),
      Weighted(Round1(Overall(m, SOC2, true)), Round1(Overall(m, NIST, true)), Round1(Overall(m, CMMC, true)), Round1(Overall(m, ZERO_TRUST, true))));
  }

  /** Evidence that is gone or of lower quality; the metrics are compared only while they count. */
  predicate Lowered(w: Option<Evidence>, m: Option<Evidence>) {
    w.Some? ==> m.Some? && Rank(w.value.quality) <= Rank(m.value.quality)
  }

  predicate MetricsCount(w: Option<Evidence>) {
    w.Some? && w.value.quality != "failed"
  }

  predicate IamEvidenceWorse(w: Option<Evidence>, m: Option<Evidence>) {
    Lowered(w, m) && (MetricsCount(w) ==> IamWorse(ReadIam(w.value.metrics), ReadIam(m.value.metrics)))
  }

  lemma IamLower(w: Option<Evidence>, m: Option<Evidence>)
    requires IamEvidenceWorse(w, m)
    ensures IamScore(w).score <= IamScore(m).score
  {
    if MetricsCount(w) {
      IamNeverRises(ReadIam(w.value.metrics), ReadIam(m.value.metrics));
    }
    GradedMonotone("CC6.1", w, m, (e: Evidence) => IamRaw(ReadIam(e.metrics)));
  }

  predicate LoggingEvidenceWorse(w: Option<Evidence>, m: Option<Evidence>) {
    Lowered(w, m) && (MetricsCount(w) ==> LoggingWorse(ReadLogging(w.value.metrics), ReadLogging(m.value.metrics)))
  }

  lemma LoggingLower(w: Option<Evidence>, m: Option<Evidence>)
    requires LoggingEvidenceWorse(w, m)
    ensures LoggingScore(w).score <= LoggingScore(m).score
  {
    if MetricsCount(w) {
      LoggingNeverRises(ReadLogging(w.value.metrics), ReadLogging(m.value.metrics));
    }
    GradedMonotone("CC7.1", w, m, (e: Evidence) => LoggingRaw(ReadLogging(e.metrics)));
  }

  predicate DriftEvidenceWorse(w: Option<Evidence>, m: Option<Evidence>) {
    Lowered(w, m) && (MetricsCount(w) ==> DriftWorse(ReadDrift(w.value.metrics), ReadDrift(m.value.metrics)))
  }

  lemma DriftLower(w: Option<Evidence>, m: Option<Evidence>)
    requires DriftEvidenceWorse(w, m)
    ensures ConfigDriftScore(w).score <= ConfigDriftScore(m).score
  {
    if MetricsCount(w) {
      DriftNeverRises(ReadDrift(w.value.metrics), ReadDrift(m.value.metrics));
    }
    GradedMonotone("CC6.2", w, m, (e: Evidence) => DriftRaw(ReadDrift(e.metrics)));
  }

  predicate EncryptionEvidenceWorse(w: Option<Evidence>, m: Option<Evidence>) {
    Lowered(w, m) && (MetricsCount(w) ==> EncryptionWorse(ReadEncryption(w.value.metrics), ReadEncryption(m.value.metrics)))
  }

  lemma EncryptionLower(w: Option<Evidence>, m: Option<Evidence>)
    requires EncryptionEvidenceWorse(w, m)
    ensures EncryptionScore(w).score <= EncryptionScore(m).score
  {
    if MetricsCount(w) {
      EncryptionNeverRises(ReadEncryption(w.value.metrics), ReadEncryption(m.value.metrics));
    }
    GradedMonotone("C1.2", w, m, (e: Evidence) => EncryptionRaw(ReadEncryption(e.metrics)));
  }

  predicate RetentionEvidenceWorse(w: Option<Evidence>, m: Option<Evidence>) {
    Lowered(w, m) && (MetricsCount(w) ==> RetentionWorse(ReadRetention(w.value.metrics), ReadRetention(m.value.metrics)))
  }

  lemma RetentionLower(w: Option<Evidence>, m: Option<Evidence>)
    requires RetentionEvidenceWorse(w, m)
    ensures RetentionScore(w).score <= RetentionScore(m).score
  {
    if MetricsCount(w) {
      RetentionNeverRises(ReadRetention(w.value.metrics), ReadRetention(m.value.metrics));
    }
    GradedMonotone("C1.4", w, m, (e: Evidence) => RetentionRaw(ReadRetention(e.metrics)));
  }

  predicate ResilienceEvidenceWorse(w: Option<Evidence>, m: Option<Evidence>) {
    Lowered(w, m) && (MetricsCount(w) ==> ResilienceWorse(ReadResilience(w.value.metrics), ReadResilience(m.value.metrics)))
  }

  lemma ResilienceLower(w: Option<Evidence>, m: Option<Evidence>)
    requires ResilienceEvidenceWorse(w, m)
    ensures ResilienceScore(w).score <= ResilienceScore(m).score
  {
    if MetricsCount(w) {
      ResilienceNeverRises(ReadResilience(w.value.metrics), ReadResilience(m.value.metrics));
    }
    GradedMonotone("A1.2", w, m, (e: Evidence) => ResilienceRaw(ReadResilience(e.metrics)));
  }

  predicate ZeroTrustEvidenceWorse(w: Option<Evidence>, m: Option<Evidence>) {
    Lowered(w, m) && (MetricsCount(w) ==> ZeroTrustWorse(w.value, m.value))
  }

  predicate ZeroTrustWorse(w: Evidence, m: Evidence) {
    && ZeroTrustFewer(ReadZeroTrust(w), ReadZeroTrust(m))
    && FallbackHarmless(w.quality, ReadZeroTrust(w), ReadZeroTrust(m))
  }

  lemma ZeroTrustLower(w: Option<Evidence>, m: Option<Evidence>)
    requires ZeroTrustEvidenceWorse(w, m)
    ensures ZeroTrustScore(w).score <= ZeroTrustScore(m).score
  {
    if MetricsCount(w) {
      ZeroTrustNeverRisesIff(w.value.quality, ReadZeroTrust(w.value), m.value.quality, ReadZeroTrust(m.value));
    }
  }

  predicate CollectedWorse(w: Collected, m: Collected) {
    && IamEvidenceWorse(w.iam, m.iam)
    && LoggingEvidenceWorse(w.logging, m.logging)
    && DriftEvidenceWorse(w.drift, m.drift)
    && EncryptionEvidenceWorse(w.encryption, m.encryption)
    && RetentionEvidenceWorse(w.retention, m.retention)
    && ResilienceEvidenceWorse(w.resilience, m.resilience)
    && ZeroTrustEvidenceWorse(w.zeroTrust, m.zeroTrust)
  }

  predicate EachLower(w: Collected, m: Collected) {
    && IamScore(w.iam).score <= IamScore(m.iam).score
    && LoggingScore(w.logging).score <= LoggingScore(m.logging).score
    && ConfigDriftScore(w.drift).score <= ConfigDriftScore(m.drift).score
    && EncryptionScore(w.encryption).score <= EncryptionScore(m.encryption).score
    && RetentionScore(w.retention).score <= RetentionScore(m.retention).score
    && ResilienceScore(w.resilience).score <= ResilienceScore(m.resilience).score
    && ZeroTrustScore(w.zeroTrust).score <= ZeroTrustScore(m.zeroTrust).score
  }

  lemma WorseIsEachLower(w: Collected, m: Collected)
    requires CollectedWorse(w, m)
    ensures EachLower(w, m)
  {
    IamLower(w.iam, m.iam);
    LoggingLower(w.logging, m.logging);
    DriftLower(w.drift, m.drift);
    EncryptionLower(w.encryption, m.encryption);
    RetentionLower(w.retention, m.retention);
    ResilienceLower(w.resilience, m.resilience);
    ZeroTrustLower(w.zeroTrust, m.zeroTrust);
  }

  lemma EachLowerIsScoredLower(w: Collected, m: Collected)
    requires EachLower(w, m)
    ensures ScoredLower(Controls(w), Controls(m))
  {
  }

  /**
    End to end: worse values read, lower quality or missing evidence, for any number of controls at
    once, never raise the published posture score, whichever metrics were present to read them from.
   */
  lemma WorseEvidenceNeverRaisesPosture(w: Collected, m: Collected)
    requires CollectedWorse(w, m)
    ensures Posture(Controls(w)) <= Posture(Controls(m))
  {
    WorseIsEachLower(w, m);
    EachLowerIsScoredLower(w, m);
    PostureLower(Controls(w), Controls(m));
  }

  // ----- the same in terms of the metrics themselves ----------------------------------------------

  predicate IamDataWorse(w: Option<Evidence>, m: Option<Evidence>) {
    Lowered(w, m) && (MetricsCount(w) ==> IamMetricsWorse(w.value.metrics, m.value.metrics))
  }

  lemma IamDataReadsWorse(w: Option<Evidence>, m: Option<Evidence>)
    requires IamDataWorse(w, m)
    ensures IamEvidenceWorse(w, m)
  {
    if MetricsCount(w) {
      IamReadsWorse(w.value.metrics, m.value.metrics);
    }
  }

  predicate LoggingDataWorse(w: Option<Evidence>, m: Option<Evidence>) {
    Lowered(w, m) && (MetricsCount(w) ==> LoggingMetricsWorse(w.value.metrics, m.value.metrics))
  }

  lemma LoggingDataReadsWorse(w: Option<Evidence>, m: Option<Evidence>)
    requires LoggingDataWorse(w, m)
    ensures LoggingEvidenceWorse(w, m)
  {
    if MetricsCount(w) {
      LoggingReadsWorse(w.value.metrics, m.value.metrics);
    }
  }

  predicate DriftDataWorse(w: Option<Evidence>, m: Option<Evidence>) {
    Lowered(w, m) && (MetricsCount(w) ==> DriftMetricsWorse(w.value.metrics, m.value.metrics))
  }

  lemma DriftDataReadsWorse(w: Option<Evidence>, m: Option<Evidence>)
    requires DriftDataWorse(w, m)
    ensures DriftEvidenceWorse(w, m)
  {
    if MetricsCount(w) {
      DriftReadsWorse(w.value.metrics, m.value.metrics);
    }
  }

  predicate EncryptionDataWorse(w: Option<Evidence>, m: Option<Evidence>) {
    Lowered(w, m) && (MetricsCount(w) ==> EncryptionMetricsWorse(w.value.metrics, m.value.metrics))
  }

  lemma EncryptionDataReadsWorse(w: Option<Evidence>, m: Option<Evidence>)
    requires EncryptionDataWorse(w, m)
    ensures EncryptionEvidenceWorse(w, m)
  {
    if MetricsCount(w) {
      EncryptionReadsWorse(w.value.metrics, m.value.metrics);
    }
  }

  predicate RetentionDataWorse(w: Option<Evidence>, m: Option<Evidence>) {
    Lowered(w, m) && (MetricsCount(w) ==> RetentionMetricsWorse(w.value.metrics, m.value.metrics))
  }

  lemma RetentionDataReadsWorse(w: Option<Evidence>, m: Option<Evidence>)
    requires RetentionDataWorse(w, m)
    ensures RetentionEvidenceWorse(w, m)
  {
    if MetricsCount(w) {
      RetentionReadsWorse(w.value.metrics, m.value.metrics);
    }
  }

  predicate ResilienceDataWorse(w: Option<Evidence>, m: Option<Evidence>) {
    Lowered(w, m) && (MetricsCount(w) ==> ResilienceMetricsWorse(w.value.metrics, m.value.metrics))
  }

  lemma ResilienceDataReadsWorse(w: Option<Evidence>, m: Option<Evidence>)
    requires ResilienceDataWorse(w, m)
    ensures ResilienceEvidenceWorse(w, m)
  {
    if MetricsCount(w) {
      ResilienceReadsWorse(w.value.metrics, m.value.metrics);
    }
  }

  predicate ZeroTrustDataWorse(w: Option<Evidence>, m: Option<Evidence>) {
    && Lowered(w, m)
    && (MetricsCount(w) ==> ZeroTrustMetricsWorse(w.value, m.value))
    && (MetricsCount(w) ==> FallbackHarmless(w.value.quality, ReadZeroTrust(w.value), ReadZeroTrust(m.value)))
  }

  lemma ZeroTrustDataReadsWorse(w: Option<Evidence>, m: Option<Evidence>)
    requires ZeroTrustDataWorse(w, m)
    ensures ZeroTrustEvidenceWorse(w, m)
  {
    if MetricsCount(w) {
      ZeroTrustReadsWorse(w.value, m.value);
    }
  }

  predicate CollectedDataWorse(w: Collected, m: Collected) {
    && IamDataWorse(w.iam, m.iam)
    && LoggingDataWorse(w.logging, m.logging)
    && DriftDataWorse(w.drift, m.drift)
    && EncryptionDataWorse(w.encryption, m.encryption)
    && RetentionDataWorse(w.retention, m.retention)
    && ResilienceDataWorse(w.resilience, m.resilience)
    && ZeroTrustDataWorse(w.zeroTrust, m.zeroTrust)
  }

  lemma DataReadsWorse(w: Collected, m: Collected)
    requires CollectedDataWorse(w, m)
    ensures CollectedWorse(w, m)
  {
    IamDataReadsWorse(w.iam, m.iam);
    LoggingDataReadsWorse(w.logging, m.logging);
    DriftDataReadsWorse(w.drift, m.drift);
    EncryptionDataReadsWorse(w.encryption, m.encryption);
    RetentionDataReadsWorse(w.retention, m.retention);
    ResilienceDataReadsWorse(w.resilience, m.resilience);
    ZeroTrustDataReadsWorse(w.zeroTrust, m.zeroTrust);
  }

  /** Moving any raw metrics in the bad direction never raises the published posture score. */
  lemma WorseMetricsNeverRaisePosture(w: Collected, m: Collected)
    requires CollectedDataWorse(w, m)
    ensures Posture(Controls(w)) <= Posture(Controls(m))
  {
    DataReadsWorse(w, m);
    WorseEvidenceNeverRaisesPosture(w, m);
  }

  lemma UnchangedCounts(e: Option<Evidence>)
    ensures IamDataWorse(e, e) && LoggingDataWorse(e, e) && DriftDataWorse(e, e)
  {
  }

  lemma UnchangedStores(e: Option<Evidence>)
    ensures EncryptionDataWorse(e, e) && RetentionDataWorse(e, e)
  {
  }

  lemma UnchangedChecks(e: Option<Evidence>)
    ensures ResilienceDataWorse(e, e) && ZeroTrustDataWorse(e, e)
  {
  }

  /**
    The relations leave no collection out: each one, however malformed, is related to itself. So the
    theorems hold for a single metric that gets worse beside any others that stay what they are.
   */
  lemma EveryCollectionIsRelated(c: Collected)
    ensures CollectedDataWorse(c, c) && CollectedWorse(c, c)
  {
    UnchangedCounts(c.iam);
    UnchangedCounts(c.logging);
    UnchangedCounts(c.drift);
    UnchangedStores(c.encryption);
    UnchangedStores(c.retention);
    UnchangedChecks(c.resilience);
    UnchangedChecks(c.zeroTrust);
    DataReadsWorse(c, c);
  }

  // ----- range and rounding error -----------------------------------------------------------------

  ghost predicate ScoresArePercentages(scores: seq<ControlScore>) {
    forall i :: 0 <= i < |scores| ==> 0.0 <= scores[i].score <= 100.0
  }

  lemma {:induction false} MatchedPercentages(scores: seq<ControlScore>, ids: seq<string>)
    requires ScoresArePercentages(scores)
    ensures Percentages(Matched(scores, ids))
  {
    if scores != [] {
      MatchedPercentages(scores[..|scores| - 1], ids);
    }
  }

  lemma FrameworkRange(scores: seq<ControlScore>, pillars: seq<Pillar>)
    requires ScoresArePercentages(scores) && pillars != []
    ensures 0.0 <= Overall(scores, pillars, true) <= 100.0
    ensures 0.0 <= Round1(Overall(scores, pillars, true)) <= 100.0
  {
    forall i | 0 <= i < |pillars| ensures 0.0 <= PillarScores(scores, pillars, true)[i] <= 100.0 {
      MatchedPercentages(scores, pillars[i].controls);
      MeanOfPercentages(Matched(scores, pillars[i].controls));
      Round1Range(Mean(Matched(scores, pillars[i].controls)));
    }
    MeanOfPercentages(PillarScores(scores, pillars, true));
    Round1Range(Overall(scores, pillars, true));
  }

  /** One framework: the rounded pillars and the final rounding together move it by at most a tenth. */
  lemma FrameworkError(scores: seq<ControlScore>, pillars: seq<Pillar>)
    requires pillars != []
    ensures -0.1 <= Round1(Overall(scores, pillars, true)) - Overall(scores, pillars, false) <= 0.1
  {
    var a, b := PillarScores(scores, pillars, true), PillarScores(scores, pillars, false);
    forall i | 0 <= i < |pillars| ensures -0.05 <= a[i] - b[i] <= 0.05 {
      Round1Error(Mean(Matched(scores, pillars[i].controls)));
    }
    MeanNotBelow(a, b, 0.05);
    MeanNotBelow(b, a, 0.05);
    Round1Error(Overall(scores, pillars, true));
  }

  /** The posture score is within 0.15 of the exact weighted mean of pillar means, for any scores. */
  lemma PostureError(scores: seq<ControlScore>)
    ensures -0.15 <= Posture(scores) - ExactPosture(scores) <= 0.15
  {
    FrameworkError(scores, SOC2);
    FrameworkError(scores, NIST);
    FrameworkError(scores, CMMC);
    FrameworkError(scores, ZERO_TRUST);
    Round1Error(Weighted(Round1(Overall(scores, SOC2, true)), Round1(Overall(scores, NIST, true)),
                         Round1(Overall(scores, CMMC, true)), Round1(Overall(scores, ZERO_TRUST, true))));
  }

  lemma ControlsArePercentages(c: Collected)
    ensures ScoresArePercentages(Controls(c))
  {
  }

  /** For every evidence, however malformed its metrics, the posture score is a percentage. */
  lemma PostureRange(c: Collected)
    ensures 0.0 <= Posture(Controls(c)) <= 100.0
  {
    var scores := Controls(c);
    ControlsArePercentages(c);
    FrameworkRange(scores, SOC2);
    FrameworkRange(scores, NIST);
    FrameworkRange(scores, CMMC);
    FrameworkRange(scores, ZERO_TRUST);
    Round1Range(Weighted(Round1(Overall(scores, SOC2, true)), Round1(Overall(scores, NIST, true)),
                         Round1(Overall(scores, CMMC, true)), Round1(Overall(scores, ZERO_TRUST, true))));
  }

  /** The readiness word looks at the unrounded mean, so a published 85.0 may still be short of it. */
  lemma PublishedButNotReadyIff(overall: real)
    ensures Round1(overall) >= 85.0 && ReadinessOf(overall) != AuditReady <==> 84.95 <= overall < 85.0
  {
    var y := 10.0 * overall;
    if overall < 85.0 {
      NearEightHundredFifty(y);
    }
  }

  lemma NearEightHundredFifty(y: real)
    ensures HalfEven(y) >= 850 <==> y >= 849.5
  {
  }

  // ----- the premise on the maturity level is needed ----------------------------------------------

  /** Two score lists that differ in the last control, zero trust, only. */
  ghost predicate OnlyZeroTrustDiffers(a: seq<ControlScore>, b: seq<ControlScore>) {
    && |a| == |b| == 7 && a[..6] == b[..6] && a[6].controlId == b[6].controlId == "ZT-1"
  }

  lemma PillarGap(a: seq<ControlScore>, b: seq<ControlScore>, p: Pillar)
    requires OnlyZeroTrustDiffers(a, b) && a[6].score + 75.0 <= b[6].score && "ZT-1" in p.controls
    ensures PillarScore(a, p, false) + 10.0 <= PillarScore(b, p, false)
  {
    var x, y := Matched(a, p.controls), Matched(b, p.controls);
    var rest := Matched(a[..6], p.controls);
    assert x == rest + [a[6].score] && y == rest + [b[6].score];
    assert x[..|rest|] == rest && y[..|rest|] == rest;
    MatchedIsShort(a, p.controls);
    var n := |x| as real;
    SameDivisor(75.0, Sum(y) - Sum(x), n);
    assert (Sum(y) - Sum(x)) / n == Mean(y) - Mean(x);
    QuotientUp(75.0, 7.0, 75.0, n);
  }

  lemma {:induction false} MatchedIsShort(scores: seq<ControlScore>, ids: seq<string>)
    ensures |Matched(scores, ids)| <= |scores|
  {
    if scores != [] {
      MatchedIsShort(scores[..|scores| - 1], ids);
    }
  }

  lemma FrameworkGap(a: seq<ControlScore>, b: seq<ControlScore>, pillars: seq<Pillar>)
    requires OnlyZeroTrustDiffers(a, b) && a[6].score + 75.0 <= b[6].score && ScoredLower(a, b)
    requires |pillars| == 3 && "ZT-1" in pillars[0].controls
    ensures Overall(a, pillars, false) + 3.0 <= Overall(b, pillars, false)
  {
    PillarGap(a, b, pillars[0]);
    PillarLower(a, b, pillars[1], false);
    PillarLower(a, b, pillars[2], false);
    OverallOfThree(a, pillars);
    OverallOfThree(b, pillars);
  }

  lemma OverallOfThree(scores: seq<ControlScore>, pillars: seq<Pillar>)
    requires |pillars| == 3
    ensures Overall(scores, pillars, false) ==
      (PillarScore(scores, pillars[0], false) + PillarScore(scores, pillars[1], false) + PillarScore(scores, pillars[2], false)) / 3.0
  {
    SumOfThree(PillarScores(scores, pillars, false));
  }

  lemma Soc2Gap(a: seq<ControlScore>, b: seq<ControlScore>)
    requires OnlyZeroTrustDiffers(a, b) && a[6].score + 75.0 <= b[6].score && ScoredLower(a, b)
    ensures Overall(a, SOC2, false) + 3.0 <= Overall(b, SOC2, false)
  {
    assert SOC2[0].controls[3] == "ZT-1";
    FrameworkGap(a, b, SOC2);
  }

  lemma SumOfThree(x: seq<real>)
    requires |x| == 3
    ensures Sum(x) == x[0] + x[1] + x[2]
  {
    assert x[..2][..1] == x[..1] && x[..1][..0] == [];
    assert Sum(x[..1]) == x[0];
    assert Sum(x[..2]) == x[0] + x[1];
  }

  /**
    With a maturity level of 4 and no checks, losing the only flag lifts the zero trust score from 25
    to 100 and with it the published posture score, whatever the other six controls are.
   */
  lemma LosingLastFlagRaisesPosture(c: Collected, w: Evidence, m: Evidence)
    requires ReadZeroTrust(m) == ZeroTrust(0, 0, true, false, false, false, 4.0) && m.quality == "complete"
    requires ReadZeroTrust(w) == ZeroTrust(0, 0, false, false, false, false, 4.0) && w.quality == "complete"
    ensures Posture(Controls(c.(zeroTrust := Some(m)))) < Posture(Controls(c.(zeroTrust := Some(w))))
  {
    var a, b := Controls(c.(zeroTrust := Some(m))), Controls(c.(zeroTrust := Some(w)));
    assert a[6].score == 25.0 && b[6].score == 100.0;
    assert a[..6] == b[..6];
    forall i | 0 <= i < 7 ensures a[i].controlId == b[i].controlId && a[i].score <= b[i].score {
      assert i < 6 ==> a[i] == a[..6][i] && b[i] == b[..6][i];
    }
    Soc2Gap(a, b);
    OverallLower(a, b, NIST, false);
    OverallLower(a, b, CMMC, false);
    OverallLower(a, b, ZERO_TRUST, false);
    PostureError(a);
    PostureError(b);
  }
}
