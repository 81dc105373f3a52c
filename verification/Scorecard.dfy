/**
  The compliance scorecard of `sentinel/scoring.py`: control scores averaged into pillars, pillars
  into frameworks, frameworks into one posture score, with a rounding to one decimal at each level.
 */
module Scorecard {
  import opened Prelude
  import opened Rounding
  import opened Scoring

  datatype Pillar = Pillar(name: string, controls: seq<string>)

  /** The published numbers of one framework, and the readiness word chosen from the unrounded mean. */
  datatype Summary = Summary(
    score: real, evaluated: nat, passed: nat, partially: nat, failed: nat, readiness: Readiness, pillars: seq<real>)

  datatype Readiness = AuditReady | Substantial | Remediation | CriticalGaps | NoEvidence

  // ----- means ------------------------------------------------------------------------------------

  function Sum(xs: seq<real>): real {
    if xs == [] then 0.0 else Sum(xs[..|xs| - 1]) + xs[|xs| - 1]
  }

  function Mean(xs: seq<real>): real {
    if xs == [] then 0.0 else Sum(xs) / |xs| as real
  }

  /** The scores of the controls a pillar lists, in the order of the controls. */
  function Matched(scores: seq<ControlScore>, ids: seq<string>): seq<real> {
    if scores == [] then []
    else Matched(scores[..|scores| - 1], ids) +
         (if scores[|scores| - 1].controlId in ids then [scores[|scores| - 1].score] else [])
  }

  /** The pillar means, exact or rounded. */
  function PillarScores(scores: seq<ControlScore>, pillars: seq<Pillar>, rounded: bool): (r: seq<real>)
    ensures |r| == |pillars|
    ensures forall i :: 0 <= i < |r| ==> r[i] == PillarScore(scores, pillars[i], rounded)
  {
    seq(|pillars|, i requires 0 <= i < |pillars| => PillarScore(scores, pillars[i], rounded))
  }

  function PillarScore(scores: seq<ControlScore>, p: Pillar, rounded: bool): real {
    var mean := Mean(Matched(scores, p.controls));
    if rounded then Round1(mean) else mean
  }

  function AllScores(scores: seq<ControlScore>): (r: seq<real>)
    ensures |r| == |scores| && forall i :: 0 <= i < |r| ==> r[i] == scores[i].score
  {
    seq(|scores|, i requires 0 <= i < |scores| => scores[i].score)
  }

  /** The framework mean before its own rounding. */
  function Overall(scores: seq<ControlScore>, pillars: seq<Pillar>, rounded: bool): real {
    if pillars == [] then Mean(AllScores(scores)) else Mean(PillarScores(scores, pillars, rounded))
  }

  function ReadinessOf(overall: real): Readiness {
    if overall >= 85.0 then AuditReady
    else if overall >= 70.0 then Substantial
    else if overall >= 50.0 then Remediation
    else CriticalGaps
  }

  function CountStatus(scores: seq<ControlScore>, which: set<Status>): nat {
    if scores == [] then 0
    else CountStatus(scores[..|scores| - 1], which) + (if scores[|scores| - 1].status in which then 1 else 0)
  }

  // ----- summaries --------------------------------------------------------------------------------

  method MeanOf(xs: seq<real>) returns (mean: real)
    ensures mean == Mean(xs)
  {
    var total := 0.0;
    for i := 0 to |xs|
      invariant total == Sum(xs[..i])
    {
      assert xs[..i + 1][..i] == xs[..i];
      total := total + xs[i];
    }
    assert xs[..|xs|] == xs;
    mean := if |xs| > 0 then total / |xs| as real else 0.0;
  }

  method MatchedScores(scores: seq<ControlScore>, ids: seq<string>) returns (matched: seq<real>)
    ensures matched == Matched(scores, ids)
  {
    matched := [];
    for i := 0 to |scores|
      invariant matched == Matched(scores[..i], ids)
    {
      assert scores[..i + 1][..i] == scores[..i];
      if scores[i].controlId in ids {
        matched := matched + [scores[i].score];
      }
    }
    assert scores[..|scores|] == scores;
  }

  method CountWith(scores: seq<ControlScore>, which: set<Status>) returns (n: nat)
    ensures n == CountStatus(scores, which)
  {
    n := 0;
    for i := 0 to |scores|
      invariant n == CountStatus(scores[..i], which)
    {
      assert scores[..i + 1][..i] == scores[..i];
      if scores[i].status in which {
        n := n + 1;
      }
    }
    assert scores[..|scores|] == scores;
  }

  method ComputeFrameworkSummary(scores: seq<ControlScore>, mapping: seq<Pillar>) returns (s: Summary)
    ensures scores == [] ==> s == Summary(0.0, 0, 0, 0, 0, NoEvidence, [])
    ensures scores != [] ==>
      && s.score == Round1(Overall(scores, mapping, true))
      && s.readiness == ReadinessOf(Overall(scores, mapping, true))
      && s.pillars == PillarScores(scores, mapping, true)
      && s.evaluated == |scores| == s.passed + s.partially + s.failed
      && s.passed == CountStatus(scores, {PASS}) && s.partially == CountStatus(scores, {PARTIAL})
  {
    if scores == [] {
      return Summary(0.0, 0, 0, 0, 0, NoEvidence, []);
    }
    var passed := CountWith(scores, {PASS});
    var partially := CountWith(scores, {PARTIAL});
    var failed := CountWith(scores, {FAIL, NOT_ASSESSED});
    EveryStatusCounted(scores);
    var pillars: seq<real> := [];
    for i := 0 to |mapping|
      invariant |pillars| == i
      invariant forall k :: 0 <= k < i ==> pillars[k] == PillarScore(scores, mapping[k], true)
    {
      var matched := MatchedScores(scores, mapping[i].controls);
      var mean := MeanOf(matched);
      RoundOfZero();
      pillars := pillars + [if matched == [] then 0.0 else Round1(mean)];
    }
    assert pillars == PillarScores(scores, mapping, true);
    var overall: real;
    if pillars != [] {
      overall := MeanOf(pillars);
    } else {
      overall := MeanOf(AllScores(scores));
    }
    s := Summary(Round1(overall), |scores|, passed, partially, failed, ReadinessOf(overall), pillars);
  }

  lemma RoundOfZero()
    ensures Round1(0.0) == 0.0
  {
  }

  lemma {:induction false} EveryStatusCounted(scores: seq<ControlScore>)
    ensures CountStatus(scores, {PASS}) + CountStatus(scores, {PARTIAL}) + CountStatus(scores, {FAIL, NOT_ASSESSED}) == |scores|
  {
    if scores != [] {
      EveryStatusCounted(scores[..|scores| - 1]);
      var last := scores[|scores| - 1].status;
      assert last == PASS || last == PARTIAL || last in {FAIL, NOT_ASSESSED};
    }
  }

  // ----- the scorecard ----------------------------------------------------------------------------

  /** What was collected for each of the seven controls. */
  datatype Collected = Collected(
    iam: Option<Evidence>, logging: Option<Evidence>, drift: Option<Evidence>, encryption: Option<Evidence>,
    retention: Option<Evidence>, resilience: Option<Evidence>, zeroTrust: Option<Evidence>)

  function Controls(c: Collected): seq<ControlScore> {
    [IamScore(c.iam), LoggingScore(c.logging), ConfigDriftScore(c.drift), EncryptionScore(c.encryption),
     RetentionScore(c.retention), ResilienceScore(c.resilience), ZeroTrustScore(c.zeroTrust)]
  }

  const SOC2: seq<Pillar> := [
    Pillar("Security", ["CC6.1", "CC6.2", "CC7.1", "ZT-1"]),
    Pillar("Confidentiality", ["C1.2", "C1.4"]),
    Pillar("Availability", ["A1.2"])]

  const NIST: seq<Pillar> := [
    Pillar("Access Control (AC)", ["CC6.1", "ZT-1"]),
    Pillar("Audit & Accountability (AU)", ["CC7.1"]),
    Pillar("Configuration Management (CM)", ["CC6.2"]),
    Pillar("System & Comm Protection (SC)", ["C1.2"]),
    Pillar("Media Protection (MP)", ["C1.4"]),
    Pillar("Contingency Planning (CP)", ["A1.2"])]

  const CMMC: seq<Pillar> := [
    Pillar("Access Control", ["CC6.1", "ZT-1"]),
    Pillar("Identification & Auth", ["CC6.1", "CC6.2"]),
    Pillar("Audit & Accountability", ["CC7.1"]),
    Pillar("System Integrity", ["CC6.2", "CC7.1"]),
    Pillar("Data Protection", ["C1.2", "C1.4"]),
    Pillar("Recovery & Resilience", ["A1.2"])]

  const ZERO_TRUST: seq<Pillar> := [
    Pillar("Identity Pillar", ["CC6.1", "ZT-1"]),
    Pillar("Device Pillar", ["CC6.2", "ZT-1"]),
    Pillar("Network / Environment", ["CC6.2", "C1.2"]),
    Pillar("Application & Workload", ["CC6.2", "CC7.1"]),
    Pillar("Data Pillar", ["C1.2", "C1.4"]),
    Pillar("Visibility & Analytics", ["CC7.1"]),
    Pillar("Automation & Orchestration", ["A1.2", "ZT-1"])]

  function Weighted(soc2: real, nist: real, cmmc: real, zt: real): real {
    soc2 * 0.35 + nist * 0.25 + cmmc * 0.25 + zt * 0.15
  }

  /** The published posture score, with all three layers of rounding. */
  function Posture(scores: seq<ControlScore>): real {
    Round1(Weighted(Round1(Overall(scores, SOC2, true)), Round1(Overall(scores, NIST, true)),
                    Round1(Overall(scores, CMMC, true)), Round1(Overall(scores, ZERO_TRUST, true))))
  }

  /** The composite without any rounding. */
  function ExactPosture(scores: seq<ControlScore>): real {
    Weighted(Overall(scores, SOC2, false), Overall(scores, NIST, false),
             Overall(scores, CMMC, false), Overall(scores, ZERO_TRUST, false))
  }

  method EvaluateControls(c: Collected) returns (controls: seq<ControlScore>)
    ensures controls == Controls(c)
  {
    var iam := EvalIam(c.iam);
    var logging := EvalLogging(c.logging);
    var drift := EvalConfigDrift(c.drift);
    var encryption := EvalEncryption(c.encryption);
    var retention := EvalRetention(c.retention);
    var resilience := EvalResilience(c.resilience);
    var zeroTrust := EvalZeroTrust(c.zeroTrust);
    controls := [iam, logging, drift, encryption, retention, resilience, zeroTrust];
  }

  method ComputePosture(controls: seq<ControlScore>) returns (posture: real)
    requires controls != []
    ensures posture == Posture(controls)
  {
    var soc2 := ComputeFrameworkSummary(controls, SOC2);
    var nist := ComputeFrameworkSummary(controls, NIST);
    var cmmc := ComputeFrameworkSummary(controls, CMMC);
    var zt := ComputeFrameworkSummary(controls, ZERO_TRUST);
    posture := Round1(soc2.score * 0.35 + nist.score * 0.25 + cmmc.score * 0.25 + zt.score * 0.15);
  }

  method ComputeComplianceScorecard(c: Collected) returns (posture: real, controls: seq<ControlScore>)
    ensures controls == Controls(c) && posture == Posture(Controls(c))
  {
    controls := EvaluateControls(c);
    posture := ComputePosture(controls);
  }
}
