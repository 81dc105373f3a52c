/** The walk over all nodes of a condition, and what displays and errors mean. */
module ConditionWalk {
  import opened Prelude
  import opened PolicyValues
  import opened PolicyExpressions

  // ----- the whitelist ----------------------------------------------------------------------------

  function ItemNodes(x: DictItem): seq<Expr> {
    match x
    case KeyValue(k, v) => [k, v]
    case Spread(v) => [v]
  }

  function ItemsNodes(items: seq<DictItem>): seq<Expr> {
    if items == [] then [] else ItemNodes(items[0]) + ItemsNodes(items[1..])
  }

  /** The nodes directly below a node. */
  function Children(e: Expr): seq<Expr> {
    match e
    case Constant(_) => []
    case Name(_) => []
    case AttributeOf(t, _) => [t]
    case SubscriptOf(t, i) => [t, i]
    case Unary(_, x) => [x]
    case Binary(_, l, r) => [l, r]
    case Boolean(_, vs) => vs
    case Compare(x, _, cs) => [x] + cs
    case ListDisplay(es) => es
    case DictDisplay(items) => ItemsNodes(items)
    case OtherNode(_, cs) => cs
  }

  /** The node at a path of child numbers. */
  function NodeAt(e: Expr, path: seq<nat>): Option<Expr>
    decreases |path|
  {
    if path == [] then Some(e)
    else if path[0] < |Children(e)| then NodeAt(Children(e)[path[0]], path[1..])
    else None
  }

  /** A listed node type with, where it has an operator, a listed operator. */
  predicate Listed(e: Expr) {
    && !e.OtherNode?
    && (e.Unary? ==> e.uop in {Not, USub, UAdd})
    && (e.Binary? ==> e.bop.Math? || e.bop in {Div, Mod})
  }

  predicate EachAllowed(es: seq<Expr>) {
    forall i :: 0 <= i < |es| ==> Allowed(es[i])
  }

  lemma {:induction false} AllAllowedIff(es: seq<Expr>)
    ensures AllAllowed(es) <==> EachAllowed(es)
  {
    if es != [] {
      AllAllowedIff(es[1..]);
      EachOfBoth([es[0]], es[1..]);
      assert [es[0]] + es[1..] == es;
    }
  }

  lemma EachOfBoth(a: seq<Expr>, b: seq<Expr>)
    ensures EachAllowed(a + b) <==> EachAllowed(a) && EachAllowed(b)
    ensures |a| == 1 ==> (EachAllowed(a) <==> Allowed(a[0]))
  {
    assert forall i :: |a| <= i < |a + b| ==> (a + b)[i] == b[i - |a|];
    assert forall i :: 0 <= i < |b| ==> b[i] == (a + b)[i + |a|];
    assert forall i :: 0 <= i < |a| ==> a[i] == (a + b)[i];
  }

  lemma EachOfTwo(a: Expr, b: Expr)
    ensures EachAllowed([a, b]) <==> Allowed(a) && Allowed(b)
  {
    assert [a, b][0] == a && [a, b][1] == b;
  }

  lemma {:induction false} ItemsAllowedIff(items: seq<DictItem>)
    ensures ItemsAllowed(items) <==> EachAllowed(ItemsNodes(items))
  {
    if items != [] {
      ItemsAllowedIff(items[1..]);
      EachOfBoth(ItemNodes(items[0]), ItemsNodes(items[1..]));
      match items[0]
      case KeyValue(k, v) => EachOfTwo(k, v);
      case Spread(v) => EachOfBoth([v], []);
    }
  }

  lemma AllowedStep(e: Expr)
    ensures Allowed(e) <==> Listed(e) && EachAllowed(Children(e))
  {
    match e
    case Boolean(_, vs) => AllAllowedIff(vs);
    case Compare(x, _, cs) =>
      AllAllowedIff(cs);
      EachOfBoth([x], cs);
    case ListDisplay(es) => AllAllowedIff(es);
    case DictDisplay(items) => ItemsAllowedIff(items);
    case Binary(_, l, r) => EachOfTwo(l, r);
    case SubscriptOf(t, i) => EachOfTwo(t, i);
    case AttributeOf(t, _) => EachOfBoth([t], []);
    case Unary(_, x) => EachOfBoth([x], []);
    case _ =>
  }

  lemma {:induction false} AllowedNode(e: Expr, path: seq<nat>)
    requires Allowed(e) && NodeAt(e, path).Some?
    ensures Listed(NodeAt(e, path).value)
    decreases |path|
  {
    AllowedStep(e);
    if path != [] {
      AllowedNode(Children(e)[path[0]], path[1..]);
    }
  }

  ghost predicate AllListed(e: Expr) {
    forall path :: NodeAt(e, path).Some? ==> Listed(NodeAt(e, path).value)
  }

  lemma {:induction false} ItemNodeIsSmaller(items: seq<DictItem>, whole: Expr, i: nat)
    requires i < |ItemsNodes(items)| && forall j :: 0 <= j < |items| ==> items[j] < whole
    ensures ItemsNodes(items)[i] < whole
  {
    var n := |ItemNodes(items[0])|;
    if i < n {
      assert ItemsNodes(items)[i] == ItemNodes(items[0])[i];
      assert ItemNodes(items[0])[i] < items[0];
    } else {
      ItemNodeIsSmaller(items[1..], whole, i - n);
    }
  }

  lemma ChildIsSmaller(e: Expr, i: nat)
    requires i < |Children(e)|
    ensures Children(e)[i] < e
  {
    match e
    case DictDisplay(items) => ItemNodeIsSmaller(items, e, i);
    case Compare(x, _, cs) => assert i > 0 ==> ([x] + cs)[i] == cs[i - 1];
    case _ =>
  }

  lemma {:induction false} ListedIsAllowed(e: Expr)
    requires AllListed(e)
    ensures Allowed(e)
    decreases e
  {
    assert Listed(e) by { assert NodeAt(e, []) == Some(e); }
    forall i | 0 <= i < |Children(e)| ensures Allowed(Children(e)[i]) {
      var c := Children(e)[i];
      forall path | NodeAt(c, path).Some? ensures Listed(NodeAt(c, path).value) {
        assert ([i] + path)[1..] == path;
        assert NodeAt(e, [i] + path) == NodeAt(c, path);
      }
      ChildIsSmaller(e, i);
      ListedIsAllowed(c);
    }
    AllowedStep(e);
  }

  /** A condition is admitted exactly when every node in it, at any depth, is of a listed type. */
  lemma AllowedIffAllListed(e: Expr)
    ensures Allowed(e) <==> AllListed(e)
  {
    if Allowed(e) {
      forall path | NodeAt(e, path).Some? ensures Listed(NodeAt(e, path).value) {
        AllowedNode(e, path);
      }
    } else if AllListed(e) {
      ListedIsAllowed(e);
    }
  }

  // ----- displays ---------------------------------------------------------------------------------

  predicate EvaluatesTo(h: Host, es: seq<Expr>, vs: seq<Value>, ctx: Context) {
    |es| == |vs| && forall i :: 0 <= i < |es| ==> Eval(h, es[i], ctx) == Ok(vs[i])
  }

  lemma {:induction false} ListOfValues(h: Host, es: seq<Expr>, before: seq<Value>, vs: seq<Value>, ctx: Context)
    requires EvaluatesTo(h, es, vs, ctx)
    ensures EvalList(h, es, before, ctx) == Success(before + vs)
    decreases |es|
  {
    if es != [] {
      ListOfValues(h, es[1..], before + [vs[0]], vs[1..], ctx);
      assert before + [vs[0]] + vs[1..] == before + vs;
    } else {
      assert before + vs == before;
    }
  }

  lemma {:induction false} ListUpToError(h: Host, es: seq<Expr>, before: seq<Value>, k: nat, ctx: Context)
    requires k < |es| && Eval(h, es[k], ctx).Err? && forall i :: 0 <= i < k ==> Eval(h, es[i], ctx).Ok?
    ensures EvalList(h, es, before, ctx) == Failure(Eval(h, es[k], ctx).error)
    decreases k
  {
    if k > 0 {
      ListUpToError(h, es[1..], before + [Eval(h, es[0], ctx).value], k - 1, ctx);
    }
  }

  /** A list display is the list of its elements' values, or raises as its first raising element does. */
  lemma ListDisplayMeaning(h: Host, es: seq<Expr>, vs: seq<Value>, k: nat, ctx: Context)
    ensures EvaluatesTo(h, es, vs, ctx) ==> Eval(h, ListDisplay(es), ctx) == Ok(List(vs))
    ensures k < |es| && Eval(h, es[k], ctx).Err? && (forall i :: 0 <= i < k ==> Eval(h, es[i], ctx).Ok?) ==>
      Eval(h, ListDisplay(es), ctx) == Eval(h, es[k], ctx)
  {
    if EvaluatesTo(h, es, vs, ctx) {
      ListOfValues(h, es, [], vs, ctx);
      assert [] + vs == vs;
    }
    if k < |es| && Eval(h, es[k], ctx).Err? && forall i :: 0 <= i < k ==> Eval(h, es[i], ctx).Ok? {
      ListUpToError(h, es, [], k, ctx);
    }
  }

  lemma {:induction false} SpreadSkipped(h: Host, items: seq<DictItem>, d: seq<Entry>, i: nat, ctx: Context)
    requires i < |items| && items[i].Spread?
    ensures EvalItems(h, items, d, ctx) == EvalItems(h, items[..i] + items[i + 1..], d, ctx)
    decreases i
  {
    var rest := items[..i] + items[i + 1..];
    if i == 0 {
      assert rest == items[1..];
    } else {
      assert rest[0] == items[0] && rest[1..] == items[1..][..i - 1] + items[1..][i..];
      match EvalItem(h, items[0], d, ctx)
      case Failure(_) =>
      case Success(d') => SpreadSkipped(h, items[1..], d', i - 1, ctx);
    }
  }

  /** A `**` item of a dict display changes nothing, not even by what it would raise. */
  lemma SpreadChangesNothing(h: Host, items: seq<DictItem>, i: nat, ctx: Context)
    requires i < |items| && items[i].Spread?
    ensures Eval(h, DictDisplay(items), ctx) == Eval(h, DictDisplay(items[..i] + items[i + 1..]), ctx)
  {
    SpreadSkipped(h, items, [], i, ctx);
  }

  /** What one key of a dict display was set to is found under it; a list or dict as a key raises. */
  lemma SingleEntry(h: Host, k: Expr, v: Expr, ctx: Context)
    requires Eval(h, k, ctx).Ok? && Eval(h, v, ctx).Ok?
    ensures var key := Eval(h, k, ctx).value;
      && (key.Str? ==> Eval(h, SubscriptOf(DictDisplay([KeyValue(k, v)]), k), ctx) == Eval(h, v, ctx))
      && (key.List? || key.Dict? ==> Eval(h, DictDisplay([KeyValue(k, v)]), ctx) == Err(TypeError))
  {
    var (x, key, value) := (KeyValue(k, v), Eval(h, k, ctx).value, Eval(h, v, ctx).value);
    assert [x][1..] == [];
    assert EvalItem(h, x, [], ctx) == if Hashable(key) then Success([Entry(key, value)]) else Failure(TypeError);
    assert EvalItems(h, [x], [], ctx) == EvalItem(h, x, [], ctx);
    if key.Str? {
      assert Lookup([Entry(key, value)], key) == value;
      assert Eval(h, DictDisplay([x]), ctx) == Ok(Dict([Entry(key, value)]));
    }
  }

  // ----- errors -----------------------------------------------------------------------------------

  /** What the leftmost operand raises is what the whole raises. */
  lemma LeftmostErrorWins(h: Host, a: Expr, b: Expr, uop: UnaryOp, bop: BinaryOp, op: CompareOp, attr: string, ctx: Context)
    requires Eval(h, a, ctx).Err?
    ensures Eval(h, Unary(uop, a), ctx) == Eval(h, AttributeOf(a, attr), ctx) == Eval(h, SubscriptOf(a, b), ctx) == Eval(h, a, ctx)
    ensures Eval(h, Binary(bop, a, b), ctx) == Eval(h, Compare(a, [op], [b]), ctx) == Eval(h, a, ctx)
    ensures forall lop :: Eval(h, Boolean(lop, [a, b]), ctx) == Eval(h, a, ctx)
  {
  }

  lemma RightErrorFollows(h: Host, a: Expr, b: Expr, bop: BinaryOp, op: CompareOp, ctx: Context)
    requires Eval(h, a, ctx).Ok? && Eval(h, b, ctx).Err?
    ensures Eval(h, Binary(bop, a, b), ctx) == Eval(h, Compare(a, [op], [b]), ctx) == Eval(h, SubscriptOf(a, b), ctx) == Eval(h, b, ctx)
  {
  }
}
