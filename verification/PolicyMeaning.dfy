/** What every condition means, whatever the context: progress, coincidence and rewriting. */
module PolicyMeaning {
  import opened Prelude
  import opened PolicyValues
  import opened PolicyExpressions

  // ----- progress ---------------------------------------------------------------------------------

  /** The runtime reports a format error as such, not as a fault of the evaluator. */
  ghost predicate HonestFormat(h: Host) {
    forall s, v :: h.format(s, v) != Err(UnsupportedNode)
  }

  /** An admitted expression is handled completely: the evaluator's last `raise` is never reached. */
  lemma {:induction false} AdmittedIsSupported(h: Host, e: Expr, ctx: Context)
    requires Allowed(e) && HonestFormat(h)
    ensures Eval(h, e, ctx) != Err(UnsupportedNode)
    decreases e, 1
  {
    match e
    case AttributeOf(t, _) => AdmittedIsSupported(h, t, ctx);
    case SubscriptOf(t, i) =>
      AdmittedIsSupported(h, t, ctx);
      AdmittedIsSupported(h, i, ctx);
    case Unary(_, x) => AdmittedIsSupported(h, x, ctx);
    case Binary(_, l, r) =>
      AdmittedIsSupported(h, l, ctx);
      AdmittedIsSupported(h, r, ctx);
    case Boolean(op, vs) => AdmittedUntil(h, op.Or?, vs, ctx);
    case Compare(x, ops, cs) =>
      AdmittedIsSupported(h, x, ctx);
      if Eval(h, x, ctx).Ok? {
        AdmittedChain(h, Eval(h, x, ctx).value, ops, cs, ctx);
      }
    case ListDisplay(es) => AdmittedList(h, es, [], ctx);
    case DictDisplay(items) => AdmittedItems(h, items, [], ctx);
    case _ =>
  }

  lemma {:induction false} AdmittedUntil(h: Host, stop: bool, vs: seq<Expr>, ctx: Context)
    requires AllAllowed(vs) && HonestFormat(h)
    ensures EvalUntil(h, stop, vs, ctx) != Err(UnsupportedNode)
    decreases vs, 0
  {
    if vs != [] {
      AdmittedIsSupported(h, vs[0], ctx);
      AdmittedUntil(h, stop, vs[1..], ctx);
    }
  }

  lemma {:induction false} AdmittedChain(h: Host, left: Value, ops: seq<CompareOp>, cs: seq<Expr>, ctx: Context)
    requires AllAllowed(cs) && HonestFormat(h)
    ensures EvalChain(h, left, ops, cs, ctx) != Err(UnsupportedNode)
    decreases cs, 0
  {
    if ops != [] && cs != [] {
      AdmittedIsSupported(h, cs[0], ctx);
      if Eval(h, cs[0], ctx).Ok? {
        AdmittedChain(h, Eval(h, cs[0], ctx).value, ops[1..], cs[1..], ctx);
      }
    }
  }

  lemma {:induction false} AdmittedList(h: Host, es: seq<Expr>, vs: seq<Value>, ctx: Context)
    requires AllAllowed(es) && HonestFormat(h)
    ensures EvalList(h, es, vs, ctx) != Failure(UnsupportedNode)
    decreases es, 0
  {
    if es != [] {
      AdmittedIsSupported(h, es[0], ctx);
      if Eval(h, es[0], ctx).Ok? {
        AdmittedList(h, es[1..], vs + [Eval(h, es[0], ctx).value], ctx);
      }
    }
  }

  lemma {:induction false} AdmittedItems(h: Host, items: seq<DictItem>, d: seq<Entry>, ctx: Context)
    requires ItemsAllowed(items) && HonestFormat(h)
    ensures EvalItems(h, items, d, ctx) != Failure(UnsupportedNode)
    decreases items, 0
  {
    if items != [] {
      AdmittedItem(h, items[0], d, ctx);
      var r := EvalItem(h, items[0], d, ctx);
      if r.Success? {
        AdmittedItems(h, items[1..], r.value, ctx);
      }
    }
  }

  lemma {:induction false} AdmittedItem(h: Host, x: DictItem, d: seq<Entry>, ctx: Context)
    requires ItemAllowed(x) && HonestFormat(h)
    ensures EvalItem(h, x, d, ctx) != Failure(UnsupportedNode)
    decreases x, 0
  {
    match x
    case Spread(_) =>
    case KeyValue(k, v) =>
      AdmittedIsSupported(h, k, ctx);
      AdmittedIsSupported(h, v, ctx);
  }

  /** So for every expression and context: rejected by the walk, or evaluated without that error. */
  lemma EvaluateNeverUnsupported(h: Host, e: Expr, ctx: Context)
    requires HonestFormat(h)
    ensures Evaluate(h, e, ctx) != Err(UnsupportedNode)
    ensures Evaluate(h, e, ctx).Ok? ==> Evaluate(h, e, ctx).value.Bool?
  {
    if Allowed(e) {
      AdmittedIsSupported(h, e, ctx);
    }
  }

  // ----- coincidence ------------------------------------------------------------------------------

  /** The metric names a condition mentions. */
  function Names(e: Expr): set<string>
    decreases e, 1
  {
    match e
    case Constant(_) => {}
    case Name(id) => {id}
    case AttributeOf(t, _) => Names(t)
    case SubscriptOf(t, i) => Names(t) + Names(i)
    case Unary(_, x) => Names(x)
    case Binary(_, l, r) => Names(l) + Names(r)
    case Boolean(_, vs) => AllNames(vs)
    case Compare(x, _, cs) => Names(x) + AllNames(cs)
    case ListDisplay(es) => AllNames(es)
    case DictDisplay(items) => ItemsNames(items)
    case OtherNode(_, cs) => AllNames(cs)
  }

  function AllNames(es: seq<Expr>): set<string>
    decreases es, 0
  {
    if es == [] then {} else Names(es[0]) + AllNames(es[1..])
  }

  function ItemsNames(items: seq<DictItem>): set<string>
    decreases items, 0
  {
    if items == [] then {} else ItemNames(items[0]) + ItemsNames(items[1..])
  }

  function ItemNames(x: DictItem): set<string>
    decreases x, 0
  {
    match x
    case KeyValue(k, v) => Names(k) + Names(v)
    case Spread(v) => Names(v)
  }

  /** The contexts give each of these names the same value, a missing metric counting as None. */
  ghost predicate AgreeOn(a: Context, b: Context, names: set<string>) {
    forall n :: n in names ==> Get(a, n) == Get(b, n)
  }

  /** Evaluation depends on nothing but the metrics the condition mentions. */
  lemma {:induction false} OnlyNamesMatter(h: Host, e: Expr, a: Context, b: Context)
    requires AgreeOn(a, b, Names(e))
    ensures Eval(h, e, a) == Eval(h, e, b)
    decreases e, 1
  {
    match e
    case AttributeOf(t, _) => OnlyNamesMatter(h, t, a, b);
    case SubscriptOf(t, i) =>
      OnlyNamesMatter(h, t, a, b);
      OnlyNamesMatter(h, i, a, b);
    case Unary(_, x) => OnlyNamesMatter(h, x, a, b);
    case Binary(_, l, r) =>
      OnlyNamesMatter(h, l, a, b);
      OnlyNamesMatter(h, r, a, b);
    case Boolean(op, vs) => NamesMatterUntil(h, op.Or?, vs, a, b);
    case Compare(x, ops, cs) =>
      OnlyNamesMatter(h, x, a, b);
      if Eval(h, x, a).Ok? {
        NamesMatterChain(h, Eval(h, x, a).value, ops, cs, a, b);
      }
    case ListDisplay(es) => NamesMatterList(h, es, [], a, b);
    case DictDisplay(items) => NamesMatterItems(h, items, [], a, b);
    case _ =>
  }

  lemma {:induction false} NamesMatterUntil(h: Host, stop: bool, vs: seq<Expr>, a: Context, b: Context)
    requires AgreeOn(a, b, AllNames(vs))
    ensures EvalUntil(h, stop, vs, a) == EvalUntil(h, stop, vs, b)
    decreases vs, 0
  {
    if vs != [] {
      OnlyNamesMatter(h, vs[0], a, b);
      NamesMatterUntil(h, stop, vs[1..], a, b);
    }
  }

  lemma {:induction false} NamesMatterChain(h: Host, left: Value, ops: seq<CompareOp>, cs: seq<Expr>, a: Context, b: Context)
    requires AgreeOn(a, b, AllNames(cs))
    ensures EvalChain(h, left, ops, cs, a) == EvalChain(h, left, ops, cs, b)
    decreases cs, 0
  {
    if ops != [] && cs != [] {
      OnlyNamesMatter(h, cs[0], a, b);
      if Eval(h, cs[0], a).Ok? {
        NamesMatterChain(h, Eval(h, cs[0], a).value, ops[1..], cs[1..], a, b);
      }
    }
  }

  lemma {:induction false} NamesMatterList(h: Host, es: seq<Expr>, vs: seq<Value>, a: Context, b: Context)
    requires AgreeOn(a, b, AllNames(es))
    ensures EvalList(h, es, vs, a) == EvalList(h, es, vs, b)
    decreases es, 0
  {
    if es != [] {
      OnlyNamesMatter(h, es[0], a, b);
      if Eval(h, es[0], a).Ok? {
        NamesMatterList(h, es[1..], vs + [Eval(h, es[0], a).value], a, b);
      }
    }
  }

  lemma {:induction false} NamesMatterItems(h: Host, items: seq<DictItem>, d: seq<Entry>, a: Context, b: Context)
    requires AgreeOn(a, b, ItemsNames(items))
    ensures EvalItems(h, items, d, a) == EvalItems(h, items, d, b)
    decreases items, 0
  {
    if items != [] {
      NamesMatterItem(h, items[0], d, a, b);
      var r := EvalItem(h, items[0], d, a);
      if r.Success? {
        NamesMatterItems(h, items[1..], r.value, a, b);
      }
    }
  }

  lemma {:induction false} NamesMatterItem(h: Host, x: DictItem, d: seq<Entry>, a: Context, b: Context)
    requires AgreeOn(a, b, ItemNames(x))
    ensures EvalItem(h, x, d, a) == EvalItem(h, x, d, b)
    decreases x, 0
  {
    match x
    case Spread(_) =>
    case KeyValue(k, v) =>
      OnlyNamesMatter(h, k, a, b);
      OnlyNamesMatter(h, v, a, b);
  }

  // ----- rewriting --------------------------------------------------------------------------------

  /** A chain taken apart: one two-operand comparison per operator, inner operands written twice. */
  function Links(first: Expr, ops: seq<CompareOp>, cs: seq<Expr>): seq<Expr>
    decreases |cs|
  {
    if ops == [] || cs == [] then []
    else [Compare(first, [ops[0]], [cs[0]])] + Links(cs[0], ops[1..], cs[1..])
  }

  lemma LinkMeaning(h: Host, first: Expr, op: CompareOp, c: Expr, ctx: Context)
    requires Eval(h, first, ctx).Ok?
    ensures Eval(h, Compare(first, [op], [c]), ctx) ==
      match Eval(h, c, ctx)
      case Err(x) => Err(x)
      case Ok(right) =>
        match Test(h, op, Eval(h, first, ctx).value, right)
        case Fails => Err(TypeError)
        case No => Ok(Bool(false))
        case Yes => Ok(Bool(true))
  {
    var left := Eval(h, first, ctx).value;
    assert Eval(h, Compare(first, [op], [c]), ctx) == EvalChain(h, left, [op], [c], ctx);
    if Eval(h, c, ctx).Ok? {
      assert EvalChain(h, Eval(h, c, ctx).value, [op][1..], [c][1..], ctx) == Ok(Bool(true));
    }
  }

  lemma {:induction false} ChainIsConjunction(h: Host, first: Expr, ops: seq<CompareOp>, cs: seq<Expr>, ctx: Context)
    requires Eval(h, first, ctx).Ok?
    ensures EvalChain(h, Eval(h, first, ctx).value, ops, cs, ctx) == EvalUntil(h, false, Links(first, ops, cs), ctx)
    decreases |cs|
  {
    if ops != [] && cs != [] {
      LinkMeaning(h, first, ops[0], cs[0], ctx);
      assert Links(first, ops, cs)[1..] == Links(cs[0], ops[1..], cs[1..]);
      if Eval(h, cs[0], ctx).Ok? {
        ChainIsConjunction(h, cs[0], ops[1..], cs[1..], ctx);
      }
    }
  }

  /** A chained comparison has the outcome of the conjunction of its links, errors included. */
  lemma ChainedComparison(h: Host, first: Expr, ops: seq<CompareOp>, cs: seq<Expr>, ctx: Context)
    requires |ops| == |cs| > 0
    ensures Eval(h, Compare(first, ops, cs), ctx) == Eval(h, Boolean(And, Links(first, ops, cs)), ctx)
  {
    assert Eval(h, Boolean(And, Links(first, ops, cs)), ctx) == EvalUntil(h, false, Links(first, ops, cs), ctx);
    if Eval(h, first, ctx).Ok? {
      ChainIsConjunction(h, first, ops, cs, ctx);
    } else {
      assert Eval(h, Compare(first, [ops[0]], [cs[0]]), ctx) == Eval(h, first, ctx);
    }
  }

  function Negated(vs: seq<Expr>): seq<Expr> {
    if vs == [] then [] else [Unary(Not, vs[0])] + Negated(vs[1..])
  }

  lemma {:induction false} DeMorganUntil(h: Host, vs: seq<Expr>, ctx: Context)
    ensures EvalUntil(h, true, Negated(vs), ctx) ==
      match EvalUntil(h, false, vs, ctx) case Err(x) => Err(x) case Ok(v) => Ok(Bool(!Truthy(v)))
  {
    if vs != [] {
      DeMorganUntil(h, vs[1..], ctx);
      assert Negated(vs)[0] == Unary(Not, vs[0]) && Negated(vs)[1..] == Negated(vs[1..]);
    }
  }

  /** De Morgan, short-circuiting and errors included: `not (a and b)` is `(not a) or (not b)`. */
  lemma DeMorgan(h: Host, vs: seq<Expr>, ctx: Context)
    ensures Eval(h, Unary(Not, Boolean(And, vs)), ctx) == Eval(h, Boolean(Or, Negated(vs)), ctx)
  {
    DeMorganUntil(h, vs, ctx);
    assert Eval(h, Boolean(And, vs), ctx) == EvalUntil(h, false, vs, ctx);
    assert Eval(h, Boolean(Or, Negated(vs)), ctx) == EvalUntil(h, true, Negated(vs), ctx);
  }
}
