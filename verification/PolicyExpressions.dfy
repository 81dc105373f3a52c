/**
  Policy conditions (`SafeExpressionEvaluator` of `sentinel/policy/engine.py`): the syntax tree, the
  walk that admits only listed node types, and the evaluator.
 */
module PolicyExpressions {
  import opened Prelude
  import opened PolicyValues

  datatype UnaryOp = Not | USub | UAdd | Invert
  datatype BinaryOp = Math(op: MathOp) | Div | Mod | OtherBinary(name: string)
  datatype BoolOp = And | Or
  datatype CompareOp = Eq | NotEq | Ordered(op: OrderOp) | In | NotIn | Is | IsNot

  datatype Expr =
    | Constant(value: Value)
    | Name(id: string)
    | AttributeOf(target: Expr, attr: string)
    | SubscriptOf(target: Expr, index: Expr)
    | Unary(uop: UnaryOp, operand: Expr)
    | Binary(bop: BinaryOp, left: Expr, right: Expr)
    | Boolean(lop: BoolOp, values: seq<Expr>)
    | Compare(first: Expr, ops: seq<CompareOp>, comparators: seq<Expr>)
    | ListDisplay(elts: seq<Expr>)            // list and tuple displays evaluate alike
    | DictDisplay(items: seq<DictItem>)
    | OtherNode(kind: string, children: seq<Expr>)   // any node type not listed: calls, lambdas, slices, ...

  datatype DictItem = KeyValue(key: Expr, value: Expr) | Spread(value: Expr)

  type Context = map<string, Value>

  // ----- the walk over all nodes ------------------------------------------------------------------

  predicate Allowed(e: Expr)
    decreases e, 1
  {
    match e
    case Constant(_) => true
    case Name(_) => true
    case AttributeOf(t, _) => Allowed(t)
    case SubscriptOf(t, i) => Allowed(t) && Allowed(i)
    case Unary(op, x) => !op.Invert? && Allowed(x)
    case Binary(op, l, r) => !op.OtherBinary? && Allowed(l) && Allowed(r)
    case Boolean(_, vs) => AllAllowed(vs)
    case Compare(x, _, cs) => Allowed(x) && AllAllowed(cs)
    case ListDisplay(es) => AllAllowed(es)
    case DictDisplay(items) => ItemsAllowed(items)
    case OtherNode(_, _) => false
  }

  predicate AllAllowed(es: seq<Expr>)
    decreases es, 0
  {
    es == [] || (Allowed(es[0]) && AllAllowed(es[1..]))
  }

  predicate ItemsAllowed(items: seq<DictItem>)
    decreases items, 0
  {
    items == [] || (ItemAllowed(items[0]) && ItemsAllowed(items[1..]))
  }

  predicate ItemAllowed(x: DictItem)
    decreases x, 0
  {
    match x
    case KeyValue(k, v) => Allowed(k) && Allowed(v)
    case Spread(v) => Allowed(v)
  }

  // ----- the meaning of a condition ---------------------------------------------------------------

  function Get(ctx: Context, id: string): Value {
    if id in ctx then ctx[id] else Null
  }

  function NameValue(ctx: Context, id: string): Value {
    if id == "True" then Bool(true)
    else if id == "False" then Bool(false)
    else if id == "None" then Null
    else Get(ctx, id)
  }

  /** One link of a comparison; an ordered comparison with None is false rather than an error. */
  function Test(h: Host, op: CompareOp, a: Value, b: Value): Answer {
    match op
    case Eq => Decide(PyEq(a, b))
    case NotEq => Decide(!PyEq(a, b))
    case Ordered(o) => if a.Null? || b.Null? then No else Order(o, a, b)
    case In => if b.Null? then No else Member(a, b)
    case NotIn =>
      if b.Null? then Yes
      else (match Member(a, b) case Yes => No case No => Yes case Fails => Fails)
    case Is => Decide(Same(h, a, b))
    case IsNot => Decide(!Same(h, a, b))
  }

  function ApplyUnary(op: UnaryOp, v: Value): Outcome {
    match op
    case Not => Ok(Bool(!Truthy(v)))
    case USub => Negate(v)
    case UAdd => Plus(v)
    case Invert => Err(UnsupportedNode)
  }

  function ApplyBinary(h: Host, op: BinaryOp, a: Value, b: Value): Outcome {
    match op
    case Math(m) => Arithmetic(m, a, b)
    case Div => Divide(a, b)
    case Mod => Modulo(h, a, b)
    case OtherBinary(_) => Err(UnsupportedNode)
  }

  function Eval(h: Host, e: Expr, ctx: Context): Outcome
    decreases e, 1
  {
    match e
    case Constant(v) => Ok(v)
    case Name(id) => Ok(NameValue(ctx, id))
    case AttributeOf(t, attr) =>
      (match Eval(h, t, ctx) case Err(x) => Err(x) case Ok(v) => Ok(Attribute(h, v, attr)))
    case SubscriptOf(t, index) =>
      (match Eval(h, t, ctx)
       case Err(x) => Err(x)
       case Ok(v) => (match Eval(h, index, ctx) case Err(x) => Err(x) case Ok(k) => Ok(Subscript(v, k))))
    case Unary(op, operand) =>
      (match Eval(h, operand, ctx) case Err(x) => Err(x) case Ok(v) => ApplyUnary(op, v))
    case Binary(op, l, r) =>
      (match Eval(h, l, ctx)
       case Err(x) => Err(x)
       case Ok(a) => (match Eval(h, r, ctx) case Err(x) => Err(x) case Ok(b) => ApplyBinary(h, op, a, b)))
    case Boolean(op, vs) => EvalUntil(h, op.Or?, vs, ctx)
    case Compare(first, ops, cs) =>
      (match Eval(h, first, ctx) case Err(x) => Err(x) case Ok(v) => EvalChain(h, v, ops, cs, ctx))
    case ListDisplay(es) =>
      (match EvalList(h, es, [], ctx) case Failure(x) => Err(x) case Success(vs) => Ok(List(vs)))
    case DictDisplay(items) =>
      (match EvalItems(h, items, [], ctx) case Failure(x) => Err(x) case Success(d) => Ok(Dict(d)))
    case OtherNode(_, _) => Err(UnsupportedNode)
  }

  /** `any` (stopping at a true value) or `all` (stopping at a false one), from left to right. */
  function EvalUntil(h: Host, stop: bool, vs: seq<Expr>, ctx: Context): Outcome
    decreases vs, 0
  {
    if vs == [] then Ok(Bool(!stop))
    else match Eval(h, vs[0], ctx)
      case Err(x) => Err(x)
      case Ok(v) => if Truthy(v) == stop then Ok(Bool(stop)) else EvalUntil(h, stop, vs[1..], ctx)
  }

  function EvalChain(h: Host, left: Value, ops: seq<CompareOp>, cs: seq<Expr>, ctx: Context): Outcome
    decreases cs, 0
  {
    if ops == [] || cs == [] then Ok(Bool(true))
    else match Eval(h, cs[0], ctx)
      case Err(x) => Err(x)
      case Ok(right) =>
        match Test(h, ops[0], left, right)
        case Fails => Err(TypeError)
        case No => Ok(Bool(false))
        case Yes => EvalChain(h, right, ops[1..], cs[1..], ctx)
  }

  /** The values of the elements, behind those already in `vs`. */
  function EvalList(h: Host, es: seq<Expr>, vs: seq<Value>, ctx: Context): Result<seq<Value>, Error>
    decreases es, 0
  {
    if es == [] then Success(vs)
    else match Eval(h, es[0], ctx)
      case Err(x) => Failure(x)
      case Ok(v) => EvalList(h, es[1..], vs + [v], ctx)
  }

  /** The entries of a dict display, set into `d` one after the other. */
  function EvalItems(h: Host, items: seq<DictItem>, d: seq<Entry>, ctx: Context): Result<seq<Entry>, Error>
    decreases items, 0
  {
    if items == [] then Success(d)
    else match EvalItem(h, items[0], d, ctx)
      case Failure(x) => Failure(x)
      case Success(d') => EvalItems(h, items[1..], d', ctx)
  }

  /** A `**` item is skipped without a look at it, an unhashable key raises. */
  function EvalItem(h: Host, x: DictItem, d: seq<Entry>, ctx: Context): Result<seq<Entry>, Error>
    decreases x, 0
  {
    match x
    case Spread(_) => Success(d)
    case KeyValue(k, v) =>
      match Eval(h, k, ctx)
      case Err(e) => Failure(e)
      case Ok(key) =>
        match Eval(h, v, ctx)
        case Err(e) => Failure(e)
        case Ok(value) => if Hashable(key) then Success(SetEntry(d, key, value)) else Failure(TypeError)
  }

  /** A whole condition: the walk first, then the truth of the value. */
  function Evaluate(h: Host, e: Expr, ctx: Context): Outcome {
    if !Allowed(e) then Err(ForbiddenNode)
    else match Eval(h, e, ctx)
      case Err(x) => Err(x)
      case Ok(v) => Ok(Bool(Truthy(v)))
  }

  // ----- the evaluator ----------------------------------------------------------------------------

  method EvalNode(h: Host, e: Expr, ctx: Context) returns (r: Outcome)
    ensures r == Eval(h, e, ctx)
    decreases e, 2
  {
    match e
    case Constant(v) => r := Ok(v);
    case Name(id) => r := Ok(NameValue(ctx, id));
    case AttributeOf(t, attr) =>
      r := EvalNode(h, t, ctx);
      if r.Ok? {
        r := Ok(Attribute(h, r.value, attr));
      }
    case SubscriptOf(t, index) =>
      r := EvalNode(h, t, ctx);
      if r.Ok? {
        var key := EvalNode(h, index, ctx);
        r := if key.Ok? then Ok(Subscript(r.value, key.value)) else key;
      }
    case Unary(op, operand) =>
      r := EvalNode(h, operand, ctx);
      if r.Ok? {
        r := ApplyUnary(op, r.value);
      }
    case Binary(op, left, right) =>
      r := EvalNode(h, left, ctx);
      if r.Ok? {
        var b := EvalNode(h, right, ctx);
        r := if b.Ok? then ApplyBinary(h, op, r.value, b.value) else b;
      }
    case Boolean(op, vs) => r := EvalBoolean(h, op, vs, ctx);
    case Compare(_, _, _) => r := EvalCompare(h, e, ctx);
    case ListDisplay(es) => r := EvalElements(h, es, ctx);
    case DictDisplay(items) => r := EvalDict(h, items, ctx);
    case OtherNode(_, _) => r := Err(UnsupportedNode);
  }

  method EvalBoolean(h: Host, op: BoolOp, vs: seq<Expr>, ctx: Context) returns (r: Outcome)
    ensures r == EvalUntil(h, op.Or?, vs, ctx)
    decreases vs, 0
  {
    for i := 0 to |vs|
      invariant EvalUntil(h, op.Or?, vs, ctx) == EvalUntil(h, op.Or?, vs[i..], ctx)
    {
      assert vs[i..][1..] == vs[i + 1..];
      r := EvalNode(h, vs[i], ctx);
      if r.Err? {
        return;
      }
      if Truthy(r.value) == op.Or? {
        return Ok(Bool(op.Or?));
      }
    }
    return Ok(Bool(!op.Or?));
  }

  /** The comparison loop, which carries the right operand over as the next left one. */
  method EvalCompare(h: Host, e: Expr, ctx: Context) returns (r: Outcome)
    requires e.Compare?
    ensures r == Eval(h, e, ctx)
    decreases e, 1
  {
    r := EvalNode(h, e.first, ctx);
    if r.Err? {
      return;
    }
    var left := r.value;
    var n := if |e.ops| < |e.comparators| then |e.ops| else |e.comparators|;
    for i := 0 to n
      invariant Eval(h, e, ctx) == EvalChain(h, left, e.ops[i..], e.comparators[i..], ctx)
    {
      assert e.ops[i..][1..] == e.ops[i + 1..] && e.comparators[i..][1..] == e.comparators[i + 1..];
      r := EvalNode(h, e.comparators[i], ctx);
      if r.Err? {
        return;
      }
      var answer := Test(h, e.ops[i], left, r.value);
      if answer.Fails? {
        return Err(TypeError);
      }
      if answer.No? {
        return Ok(Bool(false));
      }
      left := r.value;
    }
    return Ok(Bool(true));
  }

  method EvalElements(h: Host, es: seq<Expr>, ctx: Context) returns (r: Outcome)
    ensures r == match EvalList(h, es, [], ctx) case Failure(x) => Err(x) case Success(vs) => Ok(List(vs))
    decreases es, 0
  {
    var vs: seq<Value> := [];
    for i := 0 to |es|
      invariant EvalList(h, es, [], ctx) == EvalList(h, es[i..], vs, ctx)
    {
      assert es[i..][1..] == es[i + 1..];
      r := EvalNode(h, es[i], ctx);
      if r.Err? {
        return;
      }
      vs := vs + [r.value];
    }
    return Ok(List(vs));
  }

  method EvalDict(h: Host, items: seq<DictItem>, ctx: Context) returns (r: Outcome)
    ensures r == match EvalItems(h, items, [], ctx) case Failure(x) => Err(x) case Success(d) => Ok(Dict(d))
    decreases items, 0
  {
    var d: seq<Entry> := [];
    for i := 0 to |items|
      invariant EvalItems(h, items, [], ctx) == EvalItems(h, items[i..], d, ctx)
    {
      assert items[i..][1..] == items[i + 1..];
      var entered := EvalEntry(h, items[i], d, ctx);
      if entered.Failure? {
        return Err(entered.error);
      }
      d := entered.value;
    }
    return Ok(Dict(d));
  }

  method EvalEntry(h: Host, x: DictItem, d: seq<Entry>, ctx: Context) returns (r: Result<seq<Entry>, Error>)
    ensures r == EvalItem(h, x, d, ctx)
    decreases x, 0
  {
    match x
    case Spread(_) => r := Success(d);
    case KeyValue(k, v) =>
      var key := EvalNode(h, k, ctx);
      if key.Err? {
        return Failure(key.error);
      }
      var value := EvalNode(h, v, ctx);
      if value.Err? {
        return Failure(value.error);
      }
      r := if Hashable(key.value) then Success(SetEntry(d, key.value, value.value)) else Failure(TypeError);
  }
}
