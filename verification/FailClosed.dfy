/**
  Which conditions fail closed: taking metrics away can never turn a rule that did not pass into one
  that does. The shape covers every default rule of `sentinel/policy/engine.py`.
 */
module FailClosed {
  import opened Prelude
  import opened PolicyValues
  import opened PolicyExpressions
  import opened PolicyMeaning

  /** `less` is `full` with some metrics removed. */
  ghost predicate Removes(full: Context, less: Context) {
    forall n :: n in less ==> n in full && less[n] == full[n]
  }

  // ----- operands ---------------------------------------------------------------------------------

  /** An operand that a missing metric turns into None or an error, and into nothing else. */
  predicate Strict(e: Expr) {
    || Names(e) == {}
    || (match e
        case Name(_) => true
        case SubscriptOf(t, i) => Strict(t) && Names(i) == {}
        case Unary(op, x) => (op.USub? || op.UAdd?) && Strict(x)
        case Binary(op, l, r) => (op.Math? || op.Div?) && Strict(l) && Strict(r)
        case _ => false)
  }

  lemma ClosedIsUnchanged(h: Host, e: Expr, full: Context, less: Context)
    requires Names(e) == {}
    ensures Eval(h, e, less) == Eval(h, e, full)
  {
    OnlyNamesMatter(h, e, less, full);
  }

  lemma {:induction false} StrictOperand(h: Host, e: Expr, full: Context, less: Context)
    requires Strict(e) && Removes(full, less) && Eval(h, e, full).Ok?
    ensures Eval(h, e, less) in {Eval(h, e, full), Ok(Null)} || Eval(h, e, less).Err?
  {
    if Names(e) == {} {
      ClosedIsUnchanged(h, e, full, less);
    } else {
      match e
      case Name(_) =>
      case SubscriptOf(t, i) =>
        StrictOperand(h, t, full, less);
        ClosedIsUnchanged(h, i, full, less);
      case Unary(_, x) => StrictOperand(h, x, full, less);
      case Binary(op, l, r) =>
        StrictOperand(h, l, full, less);
        StrictOperand(h, r, full, less);
    }
  }

  // ----- conditions -------------------------------------------------------------------------------

  predicate NonNullConstants(es: seq<Expr>) {
    forall i :: 0 <= i < |es| ==> es[i].Constant? && es[i].value != Null
  }

  predicate IsConstant(e: Expr) {
    e.Constant? && e.value != Null
  }

  /** Links that None can never satisfy; for equality it is enough that one side is a constant. */
  predicate StrictLink(left: Expr, op: CompareOp, right: Expr) {
    match op
    case Ordered(_) => Strict(right)
    case Eq => IsConstant(right) || (IsConstant(left) && Strict(right))
    case Is => IsConstant(right) || (IsConstant(left) && Strict(right))
    case In => right.ListDisplay? && NonNullConstants(right.elts)
    case _ => false
  }

  predicate StrictLinks(first: Expr, ops: seq<CompareOp>, cs: seq<Expr>)
    decreases |ops|
  {
    && |ops| == |cs|
    && (ops == [] || (StrictLink(first, ops[0], cs[0]) && StrictLinks(cs[0], ops[1..], cs[1..])))
  }

  predicate FailsClosed(e: Expr)
    decreases e, 1
  {
    match e
    case Boolean(_, vs) => AllFailClosed(vs)
    case Compare(first, ops, cs) => Strict(first) && StrictLinks(first, ops, cs)
    case _ => false
  }

  predicate AllFailClosed(vs: seq<Expr>)
    decreases vs, 0
  {
    vs == [] || (FailsClosed(vs[0]) && AllFailClosed(vs[1..]))
  }

  predicate Passes(r: Outcome) {
    r.Ok? && Truthy(r.value)
  }

  lemma {:induction false} ConstantsHaveNoNames(es: seq<Expr>)
    requires NonNullConstants(es)
    ensures AllNames(es) == {}
  {
    if es != [] {
      ConstantsHaveNoNames(es[1..]);
    }
  }

  lemma {:induction false} ConstantsEvaluate(h: Host, es: seq<Expr>, vs: seq<Value>, ctx: Context)
    requires NonNullConstants(es) && forall i :: 0 <= i < |vs| ==> vs[i] != Null
    ensures var r := EvalList(h, es, vs, ctx);
      r.Success? && forall i :: 0 <= i < |r.value| ==> r.value[i] != Null
  {
    if es != [] {
      ConstantsEvaluate(h, es[1..], vs + [es[0].value], ctx);
    }
  }

  /** The right operand of a strict link, and what it can become. */
  lemma StrictRight(h: Host, left: Expr, op: CompareOp, right: Expr, full: Context, less: Context)
    requires StrictLink(left, op, right) && Removes(full, less) && Eval(h, right, full).Ok?
    ensures Eval(h, right, less) in {Eval(h, right, full), Ok(Null)} || Eval(h, right, less).Err?
    ensures !op.Ordered? && !IsConstant(left) ==>
      Eval(h, right, less) == Eval(h, right, full) && Test(h, op, Null, Eval(h, right, full).value) != Yes
  {
    if op.In? {
      ConstantsHaveNoNames(right.elts);
      ConstantsEvaluate(h, right.elts, [], full);
      ClosedIsUnchanged(h, right, full, less);
    } else if IsConstant(right) {
      ClosedIsUnchanged(h, right, full, less);
    } else {
      StrictOperand(h, right, full, less);
    }
  }

  /** A strict link that holds with fewer metrics has lost none of its operands. */
  lemma StrictTest(h: Host, left: Expr, op: CompareOp, right: Expr, full: Context, less: Context)
    requires StrictLink(left, op, right) && Removes(full, less)
    requires Eval(h, left, full).Ok? && Eval(h, left, less) in {Eval(h, left, full), Ok(Null)}
    requires Eval(h, right, full).Ok? && Eval(h, right, less).Ok?
    requires Test(h, op, Eval(h, left, less).value, Eval(h, right, less).value) == Yes
    ensures Eval(h, left, less) == Eval(h, left, full) && Eval(h, right, less) == Eval(h, right, full)
  {
    StrictRight(h, left, op, right, full, less);
    if IsConstant(left) {
      ClosedIsUnchanged(h, left, full, less);
    }
  }

  lemma {:induction false} StrictChain(h: Host, first: Expr, ops: seq<CompareOp>, cs: seq<Expr>, full: Context, less: Context)
    requires StrictLinks(first, ops, cs) && Removes(full, less)
    requires Eval(h, first, full).Ok? && Eval(h, first, less) in {Eval(h, first, full), Ok(Null)}
    requires EvalChain(h, Eval(h, first, full).value, ops, cs, full).Ok?
    requires Passes(EvalChain(h, Eval(h, first, less).value, ops, cs, less))
    ensures Passes(EvalChain(h, Eval(h, first, full).value, ops, cs, full))
    decreases |cs|
  {
    if cs != [] {
      StrictTest(h, first, ops[0], cs[0], full, less);
      StrictChain(h, cs[0], ops[1..], cs[1..], full, less);
    }
  }

  /** Fail closed: when the full evaluation raises nothing, a pass on fewer metrics was a pass on all of them. */
  lemma {:induction false} FewerMetricsNeverHelp(h: Host, e: Expr, full: Context, less: Context)
    requires FailsClosed(e) && Removes(full, less) && Eval(h, e, full).Ok?
    ensures Passes(Eval(h, e, less)) ==> Passes(Eval(h, e, full))
    decreases e, 1
  {
    if Passes(Eval(h, e, less)) {
      match e
      case Boolean(op, vs) => FewerMetricsUntil(h, op.Or?, vs, full, less);
      case Compare(first, ops, cs) =>
        StrictOperand(h, first, full, less);
        StrictChain(h, first, ops, cs, full, less);
    }
  }

  lemma {:induction false} FewerMetricsUntil(h: Host, stop: bool, vs: seq<Expr>, full: Context, less: Context)
    requires AllFailClosed(vs) && Removes(full, less) && EvalUntil(h, stop, vs, full).Ok?
    ensures Passes(EvalUntil(h, stop, vs, less)) ==> Passes(EvalUntil(h, stop, vs, full))
    decreases vs, 0
  {
    if vs != [] {
      FewerMetricsNeverHelp(h, vs[0], full, less);
      if Eval(h, vs[0], full).Ok? && Truthy(Eval(h, vs[0], full).value) != stop {
        FewerMetricsUntil(h, stop, vs[1..], full, less);
      }
    }
  }

  // ----- why the shape and the premise matter -----------------------------------------------------

  predicate IsKeyword(id: string) {
    id == "True" || id == "False" || id == "None"
  }

  function Atom(x: string, op: CompareOp, c: Value): Expr {
    Compare(Name(x), [op], [Constant(c)])
  }

  /** Both ways round: `x < 5`, `x == 0` and `0 == x` fail closed. */
  lemma AtomsFailClosed(x: string, op: CompareOp, c: Value)
    requires c != Null && (op.Ordered? || op == Eq)
    ensures FailsClosed(Atom(x, op, c)) && FailsClosed(Compare(Constant(c), [op], [Name(x)]))
  {
    assert StrictLinks(Constant(c), [op][1..], [Constant(c)][1..]);
    assert StrictLinks(Name(x), [op][1..], [Name(x)][1..]);
  }

  /** A comparison of a missing metric with a plain constant passes exactly for `!=` and `is not`. */
  lemma MissingMetricPassesIff(h: Host, x: string, op: CompareOp, c: Value)
    requires !IsKeyword(x) && (IsNumber(c) || c.Str?)
    ensures Passes(Eval(h, Atom(x, op, c), map[])) <==> op == NotEq || op == IsNot
  {
    LinkMeaning(h, Name(x), op, Constant(c), map[]);
  }

  /** So `x != c` is not fail-closed: it fails while x is c and passes once x is gone. */
  lemma NotEqualFailsOpen(h: Host, x: string, i: int)
    requires !IsKeyword(x)
    ensures var full: Context := map[x := Int(i)];
      Eval(h, Atom(x, NotEq, Int(i)), full) == Ok(Bool(false)) && Passes(Eval(h, Atom(x, NotEq, Int(i)), map[]))
  {
    LinkMeaning(h, Name(x), NotEq, Constant(Int(i)), map[x := Int(i)]);
    LinkMeaning(h, Name(x), NotEq, Constant(Int(i)), map[]);
  }

  /** The premise is needed too: removing a metric that makes the rule raise can make it pass. */
  lemma RemovingAnErrorCanPass(h: Host, x: string, y: string)
    requires !IsKeyword(x) && !IsKeyword(y) && x != y
    ensures var e := Boolean(Or, [Atom(x, Ordered(Lt), Int(5)), Atom(y, Eq, Int(1))]);
      var full: Context := map[x := Str("high"), y := Int(1)];
      FailsClosed(e) && Eval(h, e, full).Err? && Passes(Eval(h, e, map[y := Int(1)]))
  {
    var a, b := Atom(x, Ordered(Lt), Int(5)), Atom(y, Eq, Int(1));
    var full: Context, less: Context := map[x := Str("high"), y := Int(1)], map[y := Int(1)];
    LinkMeaning(h, Name(x), Ordered(Lt), Constant(Int(5)), full);
    LinkMeaning(h, Name(x), Ordered(Lt), Constant(Int(5)), less);
    LinkMeaning(h, Name(y), Eq, Constant(Int(1)), less);
    assert [a, b][1..] == [b];
    AtomsFailClosed(x, Ordered(Lt), Int(5));
    AtomsFailClosed(y, Eq, Int(1));
    assert AllFailClosed([b]) by { assert [b][1..] == []; }
    assert EvalUntil(h, true, [b], less) == Ok(Bool(true));
  }
}
