/** The built-in rules of `sentinel/policy/engine.py`, all of which fail closed. */
module PolicyDefaults {
  import opened Prelude
  import opened PolicyValues
  import opened PolicyExpressions
  import opened FailClosed
  import opened PolicyEngine

  function Metric(metric: string, op: CompareOp, c: Value): Expr {
    Atom(metric, op, c)
  }

  function Both(a: Expr, b: Expr): Expr {
    Boolean(And, [a, b])
  }

  function BuiltIn(id: string, name: string, severity: string, target: string, condition: Expr): Rule {
    Rule(id, name, severity, target, Some(condition), true)
  }

  function MfaRule(): Rule {
    BuiltIn("SEC-IAM-001", "MFA Enforcement Across All Console Identities", "CRITICAL", "iam_access_review",
            Metric("mfa_enforced_percentage", Ordered(GtE), Float(100.0)))
  }

  function OrphansRule(): Rule {
    BuiltIn("SEC-IAM-002", "Zero Orphaned Identity Accounts", "HIGH", "iam_access_review",
            Metric("orphaned_accounts", Eq, Int(0)))
  }

  function ReviewCadenceRule(): Rule {
    BuiltIn("SEC-IAM-003", "Timely Access Review Cadence", "MEDIUM", "iam_access_review",
            Metric("review_days", Ordered(LtE), Int(90)))
  }

  function AuditLoggingRule(): Rule {
    BuiltIn("SEC-LOG-001", "Continuous Immutable Audit Logging Active", "CRITICAL", "log_aggregator",
            Both(Metric("log_streams", Ordered(GtE), Int(1)), Metric("completeness", Ordered(GtE), Float(95.0))))
  }

  function LogRetentionRule(): Rule {
    BuiltIn("SEC-LOG-002", "Audit Log Retention Minimum 365 Days", "HIGH", "log_aggregator",
            Metric("retention_days", Ordered(GtE), Int(365)))
  }

  function IngressRule(): Rule {
    BuiltIn("SEC-NET-001", "Zero Unrestricted Ingress Security Groups", "CRITICAL", "config_drift",
            Metric("open_sgs", Eq, Int(0)))
  }

  function EncryptionAtRestRule(): Rule {
    BuiltIn("SEC-CRY-001", "Universal Encryption at Rest Enforced", "CRITICAL", "encryption_status",
            Both(Metric("unencrypted_stores", Eq, Int(0)), Metric("at_rest_pct", Ordered(GtE), Float(100.0))))
  }

  function EncryptionInTransitRule(): Rule {
    BuiltIn("SEC-CRY-002", "TLS 1.2+ Transit Encryption Enforced", "HIGH", "encryption_status",
            Metric("transit_pct", Ordered(GtE), Float(100.0)))
  }

  function BranchProtectionRule(): Rule {
    BuiltIn("SEC-VCS-001", "Branch Protection & Mandatory PR Approvals", "CRITICAL", "github_vcs",
            Both(Metric("branch_protection_enforced", Eq, Bool(true)), Metric("required_approvals", Ordered(GtE), Int(1))))
  }

  function VulnerabilitiesRule(): Rule {
    BuiltIn("SEC-VCS-002", "Zero Critical Unresolved Vulnerabilities (SCA)", "HIGH", "github_vcs",
            Metric("critical_vulnerabilities", Eq, Int(0)))
  }

  function DailyBackupRule(): Rule {
    BuiltIn("SEC-RES-001", "Verified 24-Hour Backup Execution", "HIGH", "resilience_testing",
            Metric("success_24h", Ordered(GtE), Int(1)))
  }

  function RestoreTestRule(): Rule {
    BuiltIn("SEC-RES-002", "Periodic Disaster Recovery Restore Testing (90-Day SLA)", "HIGH", "resilience_testing",
            Metric("restore_tested_90d", Eq, Bool(true)))
  }

  function DefaultRules(): seq<Rule> {
    [MfaRule(), OrphansRule(), ReviewCadenceRule(), AuditLoggingRule(),
     LogRetentionRule(), IngressRule(), EncryptionAtRestRule(), EncryptionInTransitRule(),
     BranchProtectionRule(), VulnerabilitiesRule(), DailyBackupRule(), RestoreTestRule()]
  }

  /** One metric compared, by order or equality, with a constant other than None. */
  predicate Single(e: Expr) {
    && e.Compare? && e.first.Name? && |e.ops| == |e.comparators| == 1 && e.comparators[0].Constant?
    && e.comparators[0].value != Null && (e.ops[0].Ordered? || e.ops[0] == Eq)
  }

  predicate Shaped(e: Expr) {
    Single(e) || (e.Boolean? && e.lop == And && |e.values| == 2 && Single(e.values[0]) && Single(e.values[1]))
  }

  lemma ShapedFailsClosed(e: Expr)
    requires Shaped(e)
    ensures FailsClosed(e)
  {
    if e.Boolean? {
      assert e == Both(e.values[0], e.values[1]);
      BothFailClosed(e.values[0], e.values[1]);
    }
  }

  lemma BothFailClosed(a: Expr, b: Expr)
    requires FailsClosed(a) && FailsClosed(b)
    ensures FailsClosed(Both(a, b))
  {
    assert AllFailClosed([b][1..]);
    assert AllFailClosed([b]);
    assert [a, b][1..] == [b];
  }

  /** No default rule can be passed by withholding metrics. */
  lemma DefaultsFailClosed(i: nat)
    requires i < |DefaultRules()|
    ensures DefaultRules()[i].condition.Some? && FailsClosed(DefaultRules()[i].condition.value)
  {
    ShapedFailsClosed(DefaultRules()[i].condition.value);
  }
}
