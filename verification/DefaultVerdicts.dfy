/** When exactly each built-in rule passes, raises or is skipped, thresholds included. */
module DefaultVerdicts {
  import opened Prelude
  import opened PolicyValues
  import opened PolicyExpressions
  import opened FailClosed
  import opened OperatorLaws
  import opened PolicyEngine
  import opened PolicyDefaults

  predicate AtLeast(m: Context, x: string, t: real) {
    x in m && IsNumber(m[x]) && AsReal(m[x]) >= t
  }

  predicate AtMost(m: Context, x: string, t: real) {
    x in m && IsNumber(m[x]) && AsReal(m[x]) <= t
  }

  predicate Equals(m: Context, x: string, t: real) {
    x in m && IsNumber(m[x]) && AsReal(m[x]) == t
  }

  /** The metric is there and neither null nor a number. */
  predicate IsOdd(m: Context, x: string) {
    x in m && m[x] != Null && !IsNumber(m[x])
  }

  lemma LongNamesAreNoKeywords(x: string)
    requires |x| > 5
    ensures !IsKeyword(x)
  {
  }

  /** A rule whose condition is admitted passes and raises as its condition does. */
  lemma VerdictOfCondition(h: Host, rule: Rule, e: Expr, m: Context)
    requires rule.condition == Some(e) && Allowed(e)
    ensures StatusOf(h, rule, Some(m)) == PASS <==> Passes(Eval(h, e, m))
    ensures StatusOf(h, rule, Some(m)) == ERROR <==> Eval(h, e, m).Err?
  {
  }

  /** A rule without metrics is skipped, and only such a rule is. */
  lemma SkippedIff(h: Host, rule: Rule, metrics: Option<Context>)
    ensures StatusOf(h, rule, metrics) == SKIPPED <==> metrics == None
  {
  }

  lemma MetricAllowed(x: string, op: CompareOp, c: Value)
    ensures Allowed(Metric(x, op, c))
  {
    assert [Constant(c)][1..] == [];
  }

  lemma OrderedVerdict(h: Host, rule: Rule, m: Context, x: string, op: OrderOp, c: Value)
    requires |x| > 5 && IsNumber(c) && rule.condition == Some(Metric(x, Ordered(op), c))
    ensures StatusOf(h, rule, Some(m)) == PASS <==> x in m && IsNumber(m[x]) && OrderReal(op, AsReal(m[x]), AsReal(c))
    ensures StatusOf(h, rule, Some(m)) == ERROR <==> IsOdd(m, x)
  {
    LongNamesAreNoKeywords(x);
    MetricAgainstNumber(h, x, op, c, m);
    MetricAllowed(x, Ordered(op), c);
    VerdictOfCondition(h, rule, Metric(x, Ordered(op), c), m);
  }

  lemma EqualVerdict(h: Host, rule: Rule, m: Context, x: string, c: Value)
    requires |x| > 5 && IsNumber(c) && rule.condition == Some(Metric(x, Eq, c))
    ensures StatusOf(h, rule, Some(m)) == PASS <==> Equals(m, x, AsReal(c))
    ensures StatusOf(h, rule, Some(m)) != ERROR
  {
    LongNamesAreNoKeywords(x);
    MetricAgainstNumber(h, x, Lt, c, m);
    MetricAllowed(x, Eq, c);
    VerdictOfCondition(h, rule, Metric(x, Eq, c), m);
  }

  /** A conjunction raises when its first part does, or its second one after the first has passed. */
  lemma BothMeaning(h: Host, a: Expr, b: Expr, m: Context)
    ensures Passes(Eval(h, Both(a, b), m)) <==> Passes(Eval(h, a, m)) && Passes(Eval(h, b, m))
    ensures Eval(h, Both(a, b), m).Err? <==> Eval(h, a, m).Err? || (Passes(Eval(h, a, m)) && Eval(h, b, m).Err?)
  {
    assert [a, b][1..] == [b] && [b][1..] == [];
    assert EvalUntil(h, false, [b], m) == match Eval(h, b, m)
      case Err(x) => Err(x)
      case Ok(v) => Ok(Bool(Truthy(v)));
  }

  lemma BothVerdict(h: Host, rule: Rule, m: Context, a: Expr, b: Expr)
    requires rule.condition == Some(Both(a, b)) && Allowed(a) && Allowed(b)
    ensures StatusOf(h, rule, Some(m)) == PASS <==> Passes(Eval(h, a, m)) && Passes(Eval(h, b, m))
    ensures StatusOf(h, rule, Some(m)) == ERROR <==> Eval(h, a, m).Err? || (Passes(Eval(h, a, m)) && Eval(h, b, m).Err?)
  {
    assert [a, b][1..] == [b] && [b][1..] == [];
    assert AllAllowed([b]);
    VerdictOfCondition(h, rule, Both(a, b), m);
    BothMeaning(h, a, b, m);
  }

  // ----- identity and access, logging, network ----------------------------------------------------

  lemma MfaVerdict(h: Host, m: Context)
    ensures StatusOf(h, MfaRule(), Some(m)) == PASS <==> AtLeast(m, "mfa_enforced_percentage", 100.0)
    ensures StatusOf(h, MfaRule(), Some(m)) == ERROR <==> IsOdd(m, "mfa_enforced_percentage")
  {
    OrderedVerdict(h, MfaRule(), m, "mfa_enforced_percentage", GtE, Float(100.0));
  }

  lemma OrphansVerdict(h: Host, m: Context)
    ensures StatusOf(h, OrphansRule(), Some(m)) == PASS <==> Equals(m, "orphaned_accounts", 0.0)
    ensures StatusOf(h, OrphansRule(), Some(m)) != ERROR
  {
    EqualVerdict(h, OrphansRule(), m, "orphaned_accounts", Int(0));
  }

  lemma ReviewCadenceVerdict(h: Host, m: Context)
    ensures StatusOf(h, ReviewCadenceRule(), Some(m)) == PASS <==> AtMost(m, "review_days", 90.0)
    ensures StatusOf(h, ReviewCadenceRule(), Some(m)) == ERROR <==> IsOdd(m, "review_days")
  {
    OrderedVerdict(h, ReviewCadenceRule(), m, "review_days", LtE, Int(90));
  }

  lemma AuditLoggingVerdict(h: Host, m: Context)
    ensures StatusOf(h, AuditLoggingRule(), Some(m)) == PASS <==> AtLeast(m, "log_streams", 1.0) && AtLeast(m, "completeness", 95.0)
    ensures StatusOf(h, AuditLoggingRule(), Some(m)) == ERROR <==>
      IsOdd(m, "log_streams") || (AtLeast(m, "log_streams", 1.0) && IsOdd(m, "completeness"))
  {
    LongNamesAreNoKeywords("log_streams");
    LongNamesAreNoKeywords("completeness");
    MetricAgainstNumber(h, "log_streams", GtE, Int(1), m);
    MetricAgainstNumber(h, "completeness", GtE, Float(95.0), m);
    MetricAllowed("log_streams", Ordered(GtE), Int(1));
    MetricAllowed("completeness", Ordered(GtE), Float(95.0));
    BothVerdict(h, AuditLoggingRule(), m, Metric("log_streams", Ordered(GtE), Int(1)), Metric("completeness", Ordered(GtE), Float(95.0)));
  }

  lemma LogRetentionVerdict(h: Host, m: Context)
    ensures StatusOf(h, LogRetentionRule(), Some(m)) == PASS <==> AtLeast(m, "retention_days", 365.0)
    ensures StatusOf(h, LogRetentionRule(), Some(m)) == ERROR <==> IsOdd(m, "retention_days")
  {
    OrderedVerdict(h, LogRetentionRule(), m, "retention_days", GtE, Int(365));
  }

  lemma IngressVerdict(h: Host, m: Context)
    ensures StatusOf(h, IngressRule(), Some(m)) == PASS <==> Equals(m, "open_sgs", 0.0)
    ensures StatusOf(h, IngressRule(), Some(m)) != ERROR
  {
    EqualVerdict(h, IngressRule(), m, "open_sgs", Int(0));
  }

  // ----- encryption, version control, resilience --------------------------------------------------

  lemma EncryptionAtRestVerdict(h: Host, m: Context)
    ensures StatusOf(h, EncryptionAtRestRule(), Some(m)) == PASS <==>
      Equals(m, "unencrypted_stores", 0.0) && AtLeast(m, "at_rest_pct", 100.0)
    ensures StatusOf(h, EncryptionAtRestRule(), Some(m)) == ERROR <==>
      Equals(m, "unencrypted_stores", 0.0) && IsOdd(m, "at_rest_pct")
  {
    LongNamesAreNoKeywords("unencrypted_stores");
    LongNamesAreNoKeywords("at_rest_pct");
    MetricAgainstNumber(h, "unencrypted_stores", Lt, Int(0), m);
    MetricAgainstNumber(h, "at_rest_pct", GtE, Float(100.0), m);
    MetricAllowed("unencrypted_stores", Eq, Int(0));
    MetricAllowed("at_rest_pct", Ordered(GtE), Float(100.0));
    BothVerdict(h, EncryptionAtRestRule(), m, Metric("unencrypted_stores", Eq, Int(0)), Metric("at_rest_pct", Ordered(GtE), Float(100.0)));
  }

  lemma EncryptionInTransitVerdict(h: Host, m: Context)
    ensures StatusOf(h, EncryptionInTransitRule(), Some(m)) == PASS <==> AtLeast(m, "transit_pct", 100.0)
    ensures StatusOf(h, EncryptionInTransitRule(), Some(m)) == ERROR <==> IsOdd(m, "transit_pct")
  {
    OrderedVerdict(h, EncryptionInTransitRule(), m, "transit_pct", GtE, Float(100.0));
  }

  lemma BranchProtectionVerdict(h: Host, m: Context)
    ensures StatusOf(h, BranchProtectionRule(), Some(m)) == PASS <==>
      Equals(m, "branch_protection_enforced", 1.0) && AtLeast(m, "required_approvals", 1.0)
    ensures StatusOf(h, BranchProtectionRule(), Some(m)) == ERROR <==>
      Equals(m, "branch_protection_enforced", 1.0) && IsOdd(m, "required_approvals")
  {
    LongNamesAreNoKeywords("branch_protection_enforced");
    LongNamesAreNoKeywords("required_approvals");
    MetricAgainstNumber(h, "branch_protection_enforced", Lt, Bool(true), m);
    MetricAgainstNumber(h, "required_approvals", GtE, Int(1), m);
    MetricAllowed("branch_protection_enforced", Eq, Bool(true));
    MetricAllowed("required_approvals", Ordered(GtE), Int(1));
    BothVerdict(h, BranchProtectionRule(), m,
                Metric("branch_protection_enforced", Eq, Bool(true)), Metric("required_approvals", Ordered(GtE), Int(1)));
  }

  lemma VulnerabilitiesVerdict(h: Host, m: Context)
    ensures StatusOf(h, VulnerabilitiesRule(), Some(m)) == PASS <==> Equals(m, "critical_vulnerabilities", 0.0)
    ensures StatusOf(h, VulnerabilitiesRule(), Some(m)) != ERROR
  {
    EqualVerdict(h, VulnerabilitiesRule(), m, "critical_vulnerabilities", Int(0));
  }

  lemma DailyBackupVerdict(h: Host, m: Context)
    ensures StatusOf(h, DailyBackupRule(), Some(m)) == PASS <==> AtLeast(m, "success_24h", 1.0)
    ensures StatusOf(h, DailyBackupRule(), Some(m)) == ERROR <==> IsOdd(m, "success_24h")
  {
    OrderedVerdict(h, DailyBackupRule(), m, "success_24h", GtE, Int(1));
  }

  lemma RestoreTestVerdict(h: Host, m: Context)
    ensures StatusOf(h, RestoreTestRule(), Some(m)) == PASS <==> Equals(m, "restore_tested_90d", 1.0)
    ensures StatusOf(h, RestoreTestRule(), Some(m)) != ERROR
  {
    EqualVerdict(h, RestoreTestRule(), m, "restore_tested_90d", Bool(true));
  }

  // ----- all twelve -------------------------------------------------------------------------------

  /** Twelve rules are in force, five of them critical, three or two to a collector. */
  lemma RulesInForce(i: nat)
    requires i < |DefaultRules()|
    ensures |DefaultRules()| == 12 && DefaultRules()[i].enabled
    ensures DefaultRules()[i].severity == if i in {0, 3, 5, 6, 8} then "CRITICAL" else if i == 2 then "MEDIUM" else "HIGH"
    ensures DefaultRules()[i].target ==
      if i < 3 then "iam_access_review" else if i < 5 then "log_aggregator" else if i == 5 then "config_drift"
      else if i < 8 then "encryption_status" else if i < 10 then "github_vcs" else "resilience_testing"
  {
  }
}
