/** The composite posture as one linear form in the seven control scores. */
module PostureFormula {
  import opened Prelude
  import opened Rounding
  import opened Scoring
  import opened Scorecard
  import opened ScorecardGuarantees

  /** The seven controls in the order in which they are evaluated. */
  ghost predicate SevenControls(s: seq<ControlScore>) {
    && |s| == 7
    && s[0].controlId == "CC6.1" && s[1].controlId == "CC7.1" && s[2].controlId == "CC6.2" && s[3].controlId == "C1.2"
    && s[4].controlId == "C1.4" && s[5].controlId == "A1.2" && s[6].controlId == "ZT-1"
  }

  lemma ControlsAreSeven(c: Collected)
    ensures SevenControls(Controls(c))
  {
  }

  // ----- means of one, two and four controls ------------------------------------------------------

  /** Exactly these controls are listed. */
  ghost predicate ListsOnly(s: seq<ControlScore>, ids: seq<string>, which: set<int>) {
    forall k :: 0 <= k < |s| ==> (s[k].controlId in ids <==> k in which)
  }

  lemma {:induction false} NoneListed(s: seq<ControlScore>, ids: seq<string>)
    requires forall k :: 0 <= k < |s| ==> s[k].controlId !in ids
    ensures Matched(s, ids) == []
  {
    if s != [] {
      NoneListed(s[..|s| - 1], ids);
    }
  }

  /** A pillar none of whose controls is there scores nothing. */
  lemma UnmatchedPillar(s: seq<ControlScore>, p: Pillar, rounded: bool)
    requires forall k :: 0 <= k < |s| ==> s[k].controlId !in p.controls
    ensures PillarScore(s, p, rounded) == 0.0
  {
    NoneListed(s, p.controls);
    NearestTenth(0.0, 0);
  }

  lemma {:induction false} OneListed(s: seq<ControlScore>, ids: seq<string>, i: nat)
    requires i < |s| && forall k :: 0 <= k < |s| ==> (s[k].controlId in ids <==> k == i)
    ensures Matched(s, ids) == [s[i].score]
    decreases |s|
  {
    if i < |s| - 1 {
      OneListed(s[..|s| - 1], ids, i);
    } else {
      NoneListed(s[..|s| - 1], ids);
    }
  }

  lemma {:induction false} TwoListed(s: seq<ControlScore>, ids: seq<string>, i: nat, j: nat)
    requires i < j < |s| && forall k :: 0 <= k < |s| ==> (s[k].controlId in ids <==> k == i || k == j)
    ensures Matched(s, ids) == [s[i].score, s[j].score]
    decreases |s|
  {
    if j < |s| - 1 {
      TwoListed(s[..|s| - 1], ids, i, j);
    } else {
      OneListed(s[..|s| - 1], ids, i);
    }
  }

  lemma MeanOfOne(x: real)
    ensures Mean([x]) == x
  {
    assert [x][..0] == [];
    assert Sum([x]) == x;
  }

  lemma MeanOfTwo(x: real, y: real)
    ensures Mean([x, y]) == (x + y) / 2.0
  {
    MeanOfOne(x);
    assert [x, y][..1] == [x] && [x][..0] == [];
    assert Sum([x]) == x && Sum([x, y]) == x + y;
  }

  lemma SingleMean(s: seq<ControlScore>, p: Pillar, i: nat)
    requires SevenControls(s) && i < 7 && p.controls == [s[i].controlId]
    ensures PillarScore(s, p, false) == s[i].score
  {
    forall k | 0 <= k < 7 ensures s[k].controlId in p.controls <==> k == i {
      IdsDiffer(s, k, i);
    }
    OneListed(s, p.controls, i);
    MeanOfOne(s[i].score);
  }

  lemma PairMean(s: seq<ControlScore>, p: Pillar, i: nat, j: nat)
    requires SevenControls(s) && i < j < 7
    requires p.controls == [s[i].controlId, s[j].controlId] || p.controls == [s[j].controlId, s[i].controlId]
    ensures PillarScore(s, p, false) == (s[i].score + s[j].score) / 2.0
  {
    forall k | 0 <= k < 7 ensures s[k].controlId in p.controls <==> k == i || k == j {
      IdsDiffer(s, k, i);
      IdsDiffer(s, k, j);
    }
    TwoListed(s, p.controls, i, j);
    MeanOfTwo(s[i].score, s[j].score);
  }

  lemma IdsDiffer(s: seq<ControlScore>, i: nat, j: nat)
    requires SevenControls(s) && i < 7 && j < 7
    ensures s[i].controlId == s[j].controlId <==> i == j
  {
    assert |"CC6.1"| == |"CC7.1"| == |"CC6.2"| == 5 && |"C1.2"| == |"C1.4"| == |"A1.2"| == |"ZT-1"| == 4;
    assert "CC6.1"[2] == '6' && "CC7.1"[2] == '7' && "CC6.2"[4] == '2' && "CC6.1"[4] == '1';
    assert "C1.2"[3] == '2' && "C1.4"[3] == '4' && "C1.2"[0] == "C1.4"[0] == 'C' && "A1.2"[0] == 'A' && "ZT-1"[0] == 'Z';
  }

  /** The one pillar of four: identity, drift, logging and zero trust. */
  lemma SecurityMean(s: seq<ControlScore>)
    requires SevenControls(s)
    ensures PillarScore(s, SOC2[0], false) == (s[0].score + s[1].score + s[2].score + s[6].score) / 4.0
  {
    var ids := SOC2[0].controls;
    forall k | 0 <= k < 7 ensures s[k].controlId in ids <==> k in {0, 1, 2, 6} {
      IdsDiffer(s, k, 0);
      IdsDiffer(s, k, 1);
      IdsDiffer(s, k, 2);
      IdsDiffer(s, k, 6);
      assert ids == [s[0].controlId, s[2].controlId, s[1].controlId, s[6].controlId];
    }
    FirstThreeListed(s[..3], ids);
    NoMoreListed(s, ids);
    var x := [s[0].score, s[1].score, s[2].score];
    SumOfThree(x);
    assert (x + [s[6].score])[..3] == x;
  }

  lemma FirstThreeListed(s: seq<ControlScore>, ids: seq<string>)
    requires |s| == 3 && forall k :: 0 <= k < 3 ==> s[k].controlId in ids
    ensures Matched(s, ids) == [s[0].score, s[1].score, s[2].score]
  {
    assert s[..2][..1] == s[..1] && s[..1][..0] == [];
    assert Matched(s[..1], ids) == [s[0].score];
    assert Matched(s[..2], ids) == [s[0].score, s[1].score];
  }

  lemma NoMoreListed(s: seq<ControlScore>, ids: seq<string>)
    requires |s| == 7 && s[3].controlId !in ids && s[4].controlId !in ids && s[5].controlId !in ids && s[6].controlId in ids
    ensures Matched(s, ids) == Matched(s[..3], ids) + [s[6].score]
  {
    assert s[..6][..5] == s[..5] && s[..5][..4] == s[..4] && s[..4][..3] == s[..3];
    assert Matched(s[..4], ids) == Matched(s[..3], ids);
    assert Matched(s[..5], ids) == Matched(s[..4], ids);
    assert Matched(s[..6], ids) == Matched(s[..5], ids);
  }

  // ----- the four frameworks ----------------------------------------------------------------------

  lemma SumOfSix(x: seq<real>)
    requires |x| == 6
    ensures Sum(x) == x[0] + x[1] + x[2] + x[3] + x[4] + x[5]
  {
    SumOfThree(x[..3]);
    assert x[..5][..4] == x[..4] && x[..4][..3] == x[..3];
    assert Sum(x[..4]) == Sum(x[..3]) + x[3];
    assert Sum(x[..5]) == Sum(x[..4]) + x[4];
  }

  lemma SumOfSeven(x: seq<real>)
    requires |x| == 7
    ensures Sum(x) == x[0] + x[1] + x[2] + x[3] + x[4] + x[5] + x[6]
  {
    var front := x[..6];
    SumOfSix(front);
    assert Sum(x) == Sum(front) + x[6];
  }

  lemma Soc2Form(s: seq<ControlScore>)
    requires SevenControls(s)
    ensures Overall(s, SOC2, false) ==
      ((s[0].score + s[1].score + s[2].score + s[6].score) / 4.0 + (s[3].score + s[4].score) / 2.0 + s[5].score) / 3.0
  {
    SecurityMean(s);
    PairMean(s, SOC2[1], 3, 4);
    SingleMean(s, SOC2[2], 5);
    SumOfThree(PillarScores(s, SOC2, false));
  }

  lemma NistForm(s: seq<ControlScore>)
    requires SevenControls(s)
    ensures Overall(s, NIST, false) ==
      ((s[0].score + s[6].score) / 2.0 + s[1].score + s[2].score + s[3].score + s[4].score + s[5].score) / 6.0
  {
    PairMean(s, NIST[0], 0, 6);
    SingleMean(s, NIST[1], 1);
    SingleMean(s, NIST[2], 2);
    SingleMean(s, NIST[3], 3);
    SingleMean(s, NIST[4], 4);
    SingleMean(s, NIST[5], 5);
    SumOfSix(PillarScores(s, NIST, false));
  }

  lemma CmmcForm(s: seq<ControlScore>)
    requires SevenControls(s)
    ensures Overall(s, CMMC, false) ==
      ((s[0].score + s[6].score) / 2.0 + (s[0].score + s[2].score) / 2.0 + s[1].score
       + (s[1].score + s[2].score) / 2.0 + (s[3].score + s[4].score) / 2.0 + s[5].score) / 6.0
  {
    PairMean(s, CMMC[0], 0, 6);
    PairMean(s, CMMC[1], 0, 2);
    SingleMean(s, CMMC[2], 1);
    PairMean(s, CMMC[3], 1, 2);
    PairMean(s, CMMC[4], 3, 4);
    SingleMean(s, CMMC[5], 5);
    SumOfSix(PillarScores(s, CMMC, false));
  }

  lemma ZeroTrustForm(s: seq<ControlScore>)
    requires SevenControls(s)
    ensures Overall(s, ZERO_TRUST, false) ==
      ((s[0].score + s[6].score) / 2.0 + (s[2].score + s[6].score) / 2.0 + (s[2].score + s[3].score) / 2.0
       + (s[1].score + s[2].score) / 2.0 + (s[3].score + s[4].score) / 2.0 + s[1].score + (s[5].score + s[6].score) / 2.0) / 7.0
  {
    PairMean(s, ZERO_TRUST[0], 0, 6);
    PairMean(s, ZERO_TRUST[1], 2, 6);
    PairMean(s, ZERO_TRUST[2], 2, 3);
    PairMean(s, ZERO_TRUST[3], 1, 2);
    PairMean(s, ZERO_TRUST[4], 3, 4);
    SingleMean(s, ZERO_TRUST[5], 1);
    PairMean(s, ZERO_TRUST[6], 5, 6);
    SumOfSeven(PillarScores(s, ZERO_TRUST, false));
  }

  /** Pillars, means and weights together: what a point in each control is worth in the composite. */
  lemma ExactPostureIsLinear(c: Collected)
    ensures ExactPosture(Controls(c)) ==
        43.0 / 420.0 * IamScore(c.iam).score + 139.0 / 840.0 * LoggingScore(c.logging).score
      + 81.0 / 560.0 * ConfigDriftScore(c.drift).score + 239.0 / 1680.0 * EncryptionScore(c.encryption).score
      + 221.0 / 1680.0 * RetentionScore(c.retention).score + 59.0 / 280.0 * ResilienceScore(c.resilience).score
      + 173.0 / 1680.0 * ZeroTrustScore(c.zeroTrust).score
  {
    var s := Controls(c);
    ControlsAreSeven(c);
    Soc2Form(s);
    NistForm(s);
    CmmcForm(s);
    ZeroTrustForm(s);
  }
}
