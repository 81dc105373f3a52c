/**
  The policy engine of `sentinel/policy/engine.py`: an insertion-ordered registry of rules, and one
  evaluation pass that judges every enabled rule and accounts for the outcomes.
 */
module PolicyEngine {
  import opened Prelude
  import opened PolicyValues
  import opened PolicyExpressions
  import opened FailClosed
  import Rounding

  /** A rule; its condition is None when the text does not parse. */
  datatype Rule = Rule(id: string, name: string, severity: string, target: string, condition: Option<Expr>, enabled: bool)

  datatype Metrics = Absent | NullMetrics | Present(values: Context)

  /** What one collector delivered. */
  datatype Payload = Payload(collector: string, metrics: Metrics, controlId: string)

  datatype Status = PASS | FAIL | SKIPPED | ERROR

  datatype RuleResult = RuleResult(ruleId: string, status: Status)

  datatype Report = Report(
    passed: nat, failed: nat, skipped: nat, score: real, criticalFailures: seq<string>, results: seq<RuleResult>)

  type Index = map<string, Option<Context>>

  // ----- looking up a rule's metrics --------------------------------------------------------------

  /** A missing `metrics` entry counts as an empty one, a null one as none at all. */
  function MetricsOf(p: Payload): Option<Context> {
    match p.metrics
    case Absent => Some(map[])
    case NullMetrics => None
    case Present(m) => Some(m)
  }

  predicate Named(p: Payload, target: string) {
    p.collector == target || (p.controlId != "" && p.controlId == target)
  }

  /** The last payload that names the target, by collector or by control id, provides its metrics. */
  function TargetMetrics(data: seq<Payload>, target: string): Option<Context> {
    if data == [] then None
    else if Named(data[|data| - 1], target) then MetricsOf(data[|data| - 1])
    else TargetMetrics(data[..|data| - 1], target)
  }

  function Find(index: Index, target: string): Option<Context> {
    if target in index then index[target] else None
  }

  method BuildIndex(data: seq<Payload>) returns (index: Index)
    ensures forall t :: Find(index, t) == TargetMetrics(data, t)
  {
    index := map[];
    for i := 0 to |data|
      invariant forall t :: Find(index, t) == TargetMetrics(data[..i], t)
    {
      var p := data[i];
      ghost var before := index;
      index := index[p.collector := MetricsOf(p)];
      if p.controlId != "" {
        index := index[p.controlId := MetricsOf(p)];
      }
      forall t ensures Find(index, t) == TargetMetrics(data[..i + 1], t) {
        assert data[..i + 1][..i] == data[..i];
        assert Find(before, t) == TargetMetrics(data[..i], t);
      }
    }
    assert data[..|data|] == data;
  }

  // ----- judging ----------------------------------------------------------------------------------

  function StatusOf(h: Host, r: Rule, metrics: Option<Context>): Status {
    if metrics == None then SKIPPED
    else if r.condition == None then ERROR
    else match Evaluate(h, r.condition.value, metrics.value)
      case Err(_) => ERROR
      case Ok(v) => if Truthy(v) then PASS else FAIL
  }

  function Enabled(rules: seq<Rule>): seq<Rule> {
    if rules == [] then []
    else Enabled(rules[..|rules| - 1]) + (if rules[|rules| - 1].enabled then [rules[|rules| - 1]] else [])
  }

  lemma EnabledGrows(rules: seq<Rule>, i: nat)
    requires i < |rules|
    ensures Enabled(rules[..i + 1]) == if rules[i].enabled then Enabled(rules[..i]) + [rules[i]] else Enabled(rules[..i])
  {
    assert rules[..i + 1][..i] == rules[..i];
  }

  /** One result per enabled rule, in registry order. */
  function Judged(h: Host, rules: seq<Rule>, data: seq<Payload>): (r: seq<RuleResult>)
    ensures |r| == |rules|
    ensures forall i :: 0 <= i < |r| ==>
      r[i] == RuleResult(rules[i].id, StatusOf(h, rules[i], TargetMetrics(data, rules[i].target)))
  {
    seq(|rules|, i requires 0 <= i < |rules| =>
      RuleResult(rules[i].id, StatusOf(h, rules[i], TargetMetrics(data, rules[i].target))))
  }

  function Count(results: seq<RuleResult>, s: Status): nat {
    if results == [] then 0
    else Count(results[..|results| - 1], s) + (if results[|results| - 1].status == s then 1 else 0)
  }

  /** The critical rules that failed outright; rules that raised are not listed. */
  function Critical(rules: seq<Rule>, results: seq<RuleResult>): seq<string>
    requires |rules| == |results|
  {
    if rules == [] then []
    else
      var n := |rules| - 1;
      Critical(rules[..n], results[..n]) +
      (if results[n].status == FAIL && rules[n].severity == "CRITICAL" then [rules[n].id + ": " + rules[n].name] else [])
  }

  function Score(passed: nat, evaluated: nat): real {
    if evaluated > 0 then Rounding.Round1(passed as real / evaluated as real * 100.0) else 0.0
  }

  // ----- the registry -----------------------------------------------------------------------------

  function Ids(rules: seq<Rule>): seq<string> {
    if rules == [] then [] else [rules[0].id] + Ids(rules[1..])
  }

  /** `rules.get(id)`. */
  function RuleFor(rules: seq<Rule>, id: string): Option<Rule> {
    if rules == [] then None else if rules[0].id == id then Some(rules[0]) else RuleFor(rules[1..], id)
  }

  /** A known id keeps its place and takes the new rule; a new one goes to the end. */
  function Put(rules: seq<Rule>, r: Rule): seq<Rule> {
    if rules == [] then [r]
    else if rules[0].id == r.id then [r] + rules[1..]
    else [rules[0]] + Put(rules[1..], r)
  }

  function PutAll(rules: seq<Rule>, more: seq<Rule>): seq<Rule> {
    if more == [] then rules else Put(PutAll(rules, more[..|more| - 1]), more[|more| - 1])
  }

  lemma {:induction false} PutIds(rules: seq<Rule>, r: Rule)
    ensures Ids(Put(rules, r)) == if r.id in Ids(rules) then Ids(rules) else Ids(rules) + [r.id]
  {
    if rules == [] {
      assert Ids([r][1..]) == [];
    } else if rules[0].id != r.id {
      PutIds(rules[1..], r);
      assert Put(rules, r)[1..] == Put(rules[1..], r);
    } else {
      assert Put(rules, r)[1..] == rules[1..];
    }
  }

  lemma {:induction false} PutLookup(rules: seq<Rule>, r: Rule, id: string)
    ensures RuleFor(Put(rules, r), id) == if id == r.id then Some(r) else RuleFor(rules, id)
  {
    if rules != [] && rules[0].id != r.id {
      PutLookup(rules[1..], r, id);
      assert Put(rules, r)[1..] == Put(rules[1..], r);
    }
  }

  function LastWith(more: seq<Rule>, id: string): Option<Rule> {
    if more == [] then None
    else if more[|more| - 1].id == id then Some(more[|more| - 1])
    else LastWith(more[..|more| - 1], id)
  }

  /** The last registration for an id wins; an id never registered anew keeps its old rule. */
  lemma {:induction false} LastRegistrationWins(rules: seq<Rule>, more: seq<Rule>, id: string)
    ensures RuleFor(PutAll(rules, more), id) ==
      if LastWith(more, id).Some? then LastWith(more, id) else RuleFor(rules, id)
  {
    if more != [] {
      LastRegistrationWins(rules, more[..|more| - 1], id);
      PutLookup(PutAll(rules, more[..|more| - 1]), more[|more| - 1], id);
    }
  }

  /** The ids in order of first appearance. */
  function FirstSeen(more: seq<Rule>): seq<string> {
    if more == [] then []
    else
      var before := FirstSeen(more[..|more| - 1]);
      if more[|more| - 1].id in before then before else before + [more[|more| - 1].id]
  }

  lemma {:induction false} PutAllConcat(rules: seq<Rule>, a: seq<Rule>, b: seq<Rule>)
    ensures PutAll(rules, a + b) == PutAll(PutAll(rules, a), b)
    decreases |b|
  {
    if b == [] {
      assert a + b == a;
    } else {
      assert (a + b)[..|a + b| - 1] == a + b[..|b| - 1];
      PutAllConcat(rules, a, b[..|b| - 1]);
    }
  }

  /** The registry lists each id once, in the order of its first registration. */
  lemma {:induction false} FirstRegistrationOrders(more: seq<Rule>)
    ensures Ids(PutAll([], more)) == FirstSeen(more)
    ensures forall i, j :: 0 <= i < j < |FirstSeen(more)| ==> FirstSeen(more)[i] != FirstSeen(more)[j]
  {
    if more != [] {
      FirstRegistrationOrders(more[..|more| - 1]);
      PutIds(PutAll([], more[..|more| - 1]), more[|more| - 1]);
    }
  }

  /**
    The registry of an engine, whatever was registered later: every id once, at its first place among
    defaults, custom and later rules, with the last rule given for it.
   */
  lemma RegistryOfEngine(defaults: seq<Rule>, custom: seq<Rule>, later: seq<Rule>, id: string)
    ensures var rules := PutAll(PutAll(PutAll([], defaults), custom), later);
      && Ids(rules) == FirstSeen(defaults + custom + later)
      && RuleFor(rules, id) == LastWith(defaults + custom + later, id)
  {
    var all := defaults + custom + later;
    PutAllConcat([], defaults, custom);
    PutAllConcat([], defaults + custom, later);
    FirstRegistrationOrders(all);
    LastRegistrationWins([], all, id);
  }

  class Engine {
    var rules: seq<Rule>

    constructor (defaults: seq<Rule>, custom: seq<Rule>)
      ensures rules == PutAll(PutAll([], defaults), custom)
    {
      rules := PutAll([], defaults);
      new;
      ghost var start := rules;
      for i := 0 to |custom|
        invariant rules == PutAll(start, custom[..i])
      {
        assert custom[..i + 1][..i] == custom[..i];
        Register(custom[i]);
      }
      assert custom[..|custom|] == custom;
    }

    method Register(r: Rule)
      modifies this
      ensures rules == Put(old(rules), r)
    {
      rules := Put(rules, r);
    }

    method Evaluate(h: Host, data: seq<Payload>) returns (report: Report)
      ensures report.results == Judged(h, Enabled(rules), data)
      ensures report.passed == Count(report.results, PASS)
      ensures report.failed == Count(report.results, FAIL) + Count(report.results, ERROR)
      ensures report.skipped == Count(report.results, SKIPPED)
      ensures report.criticalFailures == Critical(Enabled(rules), report.results)
      ensures report.score == Score(report.passed, report.passed + report.failed)
    {
      var index := BuildIndex(data);
      report := Report(0, 0, 0, 0.0, [], []);
      for i := 0 to |rules|
        invariant Accounted(h, Enabled(rules[..i]), data, report)
      {
        EnabledGrows(rules, i);
        if rules[i].enabled {
          AccountedGrows(h, Enabled(rules[..i]), rules[i], data, report);
          var status := Judge(h, rules[i], Find(index, rules[i].target));
          report := Record(report, rules[i], status);
        }
      }
      assert rules[..|rules|] == rules;
      report := report.(score := Score(report.passed, report.passed + report.failed));
    }
  }

  /** The report with one more result; a rule that raised counts as failed but is never critical. */
  function Recorded(t: Report, r: Rule, s: Status): Report {
    Report(
      t.passed + (if s == PASS then 1 else 0),
      t.failed + (if s == FAIL || s == ERROR then 1 else 0),
      t.skipped + (if s == SKIPPED then 1 else 0),
      t.score,
      t.criticalFailures + (if s == FAIL && r.severity == "CRITICAL" then [r.id + ": " + r.name] else []),
      t.results + [RuleResult(r.id, s)])
  }

  method Record(t: Report, r: Rule, s: Status) returns (t': Report)
    ensures t' == Recorded(t, r, s)
  {
    t' := t.(results := t.results + [RuleResult(r.id, s)]);
    match s
    case PASS => t' := t'.(passed := t.passed + 1);
    case FAIL =>
      t' := t'.(failed := t.failed + 1);
      if r.severity == "CRITICAL" {
        t' := t'.(criticalFailures := t.criticalFailures + [r.id + ": " + r.name]);
      }
    case SKIPPED => t' := t'.(skipped := t.skipped + 1);
    case ERROR => t' := t'.(failed := t.failed + 1);
  }

  /** One rule's turn of the evaluation loop. */
  method Judge(h: Host, rule: Rule, metrics: Option<Context>) returns (s: Status)
    ensures s == StatusOf(h, rule, metrics)
  {
    if metrics == None {
      return SKIPPED;
    }
    if rule.condition == None {
      return ERROR;
    }
    if !Allowed(rule.condition.value) {
      return ERROR;
    }
    var v := EvalNode(h, rule.condition.value, metrics.value);
    if v.Err? {
      return ERROR;
    }
    return if Truthy(v.value) then PASS else FAIL;
  }

  /** The running totals are those of the rules judged so far. */
  ghost predicate Accounted(h: Host, rules: seq<Rule>, data: seq<Payload>, t: Report) {
    && t.results == Judged(h, rules, data)
    && t.passed == Count(t.results, PASS) && t.skipped == Count(t.results, SKIPPED)
    && t.failed == Count(t.results, FAIL) + Count(t.results, ERROR)
    && t.criticalFailures == Critical(rules, t.results)
  }

  lemma AccountedGrows(h: Host, rules: seq<Rule>, r: Rule, data: seq<Payload>, t: Report)
    requires Accounted(h, rules, data, t)
    ensures Accounted(h, rules + [r], data, Recorded(t, r, StatusOf(h, r, TargetMetrics(data, r.target))))
  {
    AppendResult(h, rules, r, data);
  }

  lemma AppendResult(h: Host, rules: seq<Rule>, r: Rule, data: seq<Payload>)
    ensures var res, x := Judged(h, rules, data), RuleResult(r.id, StatusOf(h, r, TargetMetrics(data, r.target)));
      && Judged(h, rules + [r], data) == res + [x]
      && (forall s :: Count(res + [x], s) == Count(res, s) + (if x.status == s then 1 else 0))
      && Critical(rules + [r], res + [x]) ==
           Critical(rules, res) + (if x.status == FAIL && r.severity == "CRITICAL" then [r.id + ": " + r.name] else [])
  {
    var res, x := Judged(h, rules, data), RuleResult(r.id, StatusOf(h, r, TargetMetrics(data, r.target)));
    assert (res + [x])[..|res|] == res && (rules + [r])[..|rules|] == rules;
  }

  // ----- accounting -------------------------------------------------------------------------------

  /** Every result is counted once. */
  lemma {:induction false} CountsCoverResults(results: seq<RuleResult>)
    ensures Count(results, PASS) + Count(results, FAIL) + Count(results, ERROR) + Count(results, SKIPPED) == |results|
  {
    if results != [] {
      CountsCoverResults(results[..|results| - 1]);
    }
  }

  lemma PassRateRange(passed: nat, evaluated: nat)
    requires passed <= evaluated && evaluated > 0
    ensures 0.0 <= passed as real / evaluated as real <= 1.0
  {
  }

  lemma ScoreIsPercentage(passed: nat, evaluated: nat)
    requires passed <= evaluated
    ensures 0.0 <= Score(passed, evaluated) <= 100.0
  {
    if evaluated > 0 {
      PassRateRange(passed, evaluated);
      Rounding.Round1Range(passed as real / evaluated as real * 100.0);
    }
  }

  /** A published score of 100 does not mean that nothing failed: up to one rule in 2000 rounds away. */
  lemma PerfectScoreIff(passed: nat, failed: nat)
    ensures Score(passed, passed + failed) == 100.0 <==> passed + failed > 0 && 2000 * failed <= passed + failed
  {
    var n := passed + failed;
    if n > 0 {
      var q := passed as real / n as real;
      PassRateRange(passed, n);
      PerfectRounding(10.0 * (q * 100.0));
      QuotientAtLeast(passed as real, n as real, 0.9995);
    }
  }

  lemma QuotientAtLeast(a: real, b: real, c: real)
    requires b > 0.0
    ensures a / b >= c <==> a >= c * b
  {
    assert a == (a / b) * b;
    if a / b >= c {
      assert (a / b - c) * b >= 0.0;
    } else {
      assert (c - a / b) * b > 0.0;
    }
  }

  lemma PerfectRounding(y: real)
    requires y <= 1000.0
    ensures Rounding.HalfEven(y) == 1000 <==> y >= 999.5
  {
  }

  // ----- fewer metrics, fewer passes --------------------------------------------------------------

  /** Every enabled rule fails closed and raises nothing on the full data. */
  ghost predicate Settled(h: Host, rules: seq<Rule>, data: seq<Payload>) {
    forall i :: 0 <= i < |rules| ==>
      && rules[i].condition.Some? && FailsClosed(rules[i].condition.value)
      && StatusOf(h, rules[i], TargetMetrics(data, rules[i].target)) != ERROR
  }

  /** For every target `less` has a part of the metrics in `full`, or no metrics at all. */
  ghost predicate Fewer(full: seq<Payload>, less: seq<Payload>) {
    forall t :: TargetMetrics(less, t).Some? ==>
      TargetMetrics(full, t).Some? && Removes(TargetMetrics(full, t).value, TargetMetrics(less, t).value)
  }

  lemma PassNeedsFullPass(h: Host, r: Rule, full: seq<Payload>, less: seq<Payload>)
    requires r.condition.Some? && FailsClosed(r.condition.value) && Fewer(full, less)
    requires StatusOf(h, r, TargetMetrics(full, r.target)) != ERROR
    ensures StatusOf(h, r, TargetMetrics(less, r.target)) == PASS ==> StatusOf(h, r, TargetMetrics(full, r.target)) == PASS
  {
    var f, l := TargetMetrics(full, r.target), TargetMetrics(less, r.target);
    if l.Some? && Allowed(r.condition.value) {
      FewerMetricsNeverHelp(h, r.condition.value, f.value, l.value);
    }
  }

  /** Withholding metrics or whole collectors never raises the number of passed rules. */
  lemma {:induction false} FewerMetricsFewerPasses(h: Host, rules: seq<Rule>, full: seq<Payload>, less: seq<Payload>)
    requires Settled(h, rules, full) && Fewer(full, less)
    ensures Count(Judged(h, rules, less), PASS) <= Count(Judged(h, rules, full), PASS)
  {
    if rules != [] {
      var n := |rules| - 1;
      FewerMetricsFewerPasses(h, rules[..n], full, less);
      PassNeedsFullPass(h, rules[n], full, less);
      assert Judged(h, rules, less)[..n] == Judged(h, rules[..n], less);
      assert Judged(h, rules, full)[..n] == Judged(h, rules[..n], full);
    }
  }

  // ----- what a report says -----------------------------------------------------------------------

  /** The metrics come from the last collector that names the target; an absent entry is an empty one, a null one is none. */
  lemma {:induction false} MetricsComeFromLast(data: seq<Payload>, target: string, i: nat)
    requires i < |data| && Named(data[i], target) && forall j :: i < j < |data| ==> !Named(data[j], target)
    ensures data[i].metrics.Absent? ==> TargetMetrics(data, target) == Some(map[])
    ensures data[i].metrics.NullMetrics? ==> TargetMetrics(data, target) == None
    ensures data[i].metrics.Present? ==> TargetMetrics(data, target) == Some(data[i].metrics.values)
    decreases |data|
  {
    if i < |data| - 1 {
      MetricsComeFromLast(data[..|data| - 1], target, i);
    }
  }

  lemma {:induction false} UnnamedHasNoMetrics(data: seq<Payload>, target: string)
    requires forall j :: 0 <= j < |data| ==> data[j].collector != target && (data[j].controlId == "" || data[j].controlId != target)
    ensures TargetMetrics(data, target) == None
  {
    if data != [] {
      UnnamedHasNoMetrics(data[..|data| - 1], target);
    }
  }

  /** A payload decides for its collector and, where it names one, for its control; others keep the metrics they had. */
  lemma LaterPayloadDecides(data: seq<Payload>, p: Payload, target: string)
    ensures var before, after := TargetMetrics(data, target), TargetMetrics(data + [p], target);
      && (p.collector == target || (p.controlId != "" && p.controlId == target) ==> after == MetricsOf(p))
      && (p.collector != target && (p.controlId == "" || p.controlId != target) ==> after == before)
  {
    assert (data + [p])[..|data|] == data;
  }

  predicate Raises(h: Host, condition: Option<Expr>, metrics: Context) {
    condition == None || !Allowed(condition.value) || Eval(h, condition.value, metrics).Err?
  }

  /** A rule raises on a condition that does not parse, that the walk rejects or that raises; it is skipped for want of metrics alone. */
  lemma StatusIff(h: Host, r: Rule, metrics: Option<Context>)
    ensures var s := StatusOf(h, r, metrics);
      && (s == SKIPPED <==> metrics == None)
      && (s == ERROR <==> metrics.Some? && Raises(h, r.condition, metrics.value))
      && (s == PASS ==> Truthy(Eval(h, r.condition.value, metrics.value).value))
      && (s == FAIL ==> !Truthy(Eval(h, r.condition.value, metrics.value).value))
  {
  }

  /** Listed as critical are exactly the critical rules that failed, as id and name. */
  lemma {:induction false} CriticalIff(rules: seq<Rule>, results: seq<RuleResult>, line: string)
    requires |rules| == |results|
    ensures line in Critical(rules, results) <==>
      exists i :: 0 <= i < |rules| && results[i].status == FAIL && rules[i].severity == "CRITICAL" && line == rules[i].id + ": " + rules[i].name
  {
    if rules != [] {
      var n := |rules| - 1;
      CriticalIff(rules[..n], results[..n], line);
    }
  }

  /** Judged are exactly the enabled rules. */
  lemma {:induction false} EnabledIff(rules: seq<Rule>, r: Rule)
    ensures r in Enabled(rules) <==> r in rules && r.enabled
  {
    if rules != [] {
      EnabledIff(rules[..|rules| - 1], r);
      assert rules == rules[..|rules| - 1] + [rules[|rules| - 1]];
    }
  }

  /** The published score is the pass rate in percent to within 0.05. */
  lemma ScoreIsPassRate(passed: nat, evaluated: nat)
    requires evaluated > 0
    ensures -0.05 <= Score(passed, evaluated) - passed as real / evaluated as real * 100.0 <= 0.05
    ensures Score(0, 0) == 0.0
  {
    Rounding.Round1Error(passed as real / evaluated as real * 100.0);
  }
}
