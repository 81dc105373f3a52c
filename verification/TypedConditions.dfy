/** A small type discipline under which a policy condition cannot raise. */
module TypedConditions {
  import opened Prelude
  import opened PolicyValues
  import opened PolicyExpressions

  /** Numbers (with the booleans, as in Python), or possibly None instead. */
  datatype Type = Number | MaybeNumber

  type Types = map<string, Type>

  predicate InType(v: Value, t: Type) {
    IsNumber(v) || (t == MaybeNumber && v == Null)
  }

  /** The context gives every declared metric a value of its type; a missing one is MaybeNumber. */
  ghost predicate Conforms(types: Types, ctx: Context) {
    forall n :: n in types ==> InType(Get(ctx, n), types[n])
  }

  predicate IsScalarOp(op: CompareOp) {
    !op.In? && !op.NotIn?
  }

  function TypeOf(types: Types, e: Expr): Option<Type>
    decreases e, 1
  {
    match e
    case Constant(v) => if v == Null then Some(MaybeNumber) else if IsNumber(v) then Some(Number) else None
    case Name(id) =>
      if id == "True" || id == "False" then Some(Number)
      else if id == "None" then Some(MaybeNumber)
      else if id in types then Some(types[id]) else None
    case Unary(op, x) =>
      (match TypeOf(types, x)
       case None => None
       case Some(t) => if op.Not? || (!op.Invert? && t == Number) then Some(Number) else None)
    case Binary(op, l, r) =>
      if !op.OtherBinary? && TypeOf(types, l) == Some(Number) && TypeOf(types, r) == Some(Number) then Some(Number) else None
    case Boolean(_, vs) => if AllTyped(types, vs) then Some(Number) else None
    case Compare(x, ops, cs) =>
      if TypeOf(types, x).Some? && AllTyped(types, cs) && forall i :: 0 <= i < |ops| ==> IsScalarOp(ops[i])
      then Some(Number) else None
    case _ => None
  }

  predicate AllTyped(types: Types, es: seq<Expr>)
    decreases es, 0
  {
    es == [] || (TypeOf(types, es[0]).Some? && AllTyped(types, es[1..]))
  }

  /** Well-typed conditions evaluate, and to a value of their type: they never raise. */
  lemma {:induction false} TypedEvaluates(h: Host, types: Types, e: Expr, ctx: Context)
    requires Conforms(types, ctx) && TypeOf(types, e).Some?
    ensures Eval(h, e, ctx).Ok? && InType(Eval(h, e, ctx).value, TypeOf(types, e).value)
    decreases e, 1
  {
    match e
    case Unary(_, x) => TypedEvaluates(h, types, x, ctx);
    case Binary(_, l, r) =>
      TypedEvaluates(h, types, l, ctx);
      TypedEvaluates(h, types, r, ctx);
    case Boolean(op, vs) => TypedUntil(h, types, op.Or?, vs, ctx);
    case Compare(x, ops, cs) =>
      TypedEvaluates(h, types, x, ctx);
      TypedChain(h, types, Eval(h, x, ctx).value, ops, cs, ctx);
    case _ =>
  }

  lemma {:induction false} TypedUntil(h: Host, types: Types, stop: bool, vs: seq<Expr>, ctx: Context)
    requires Conforms(types, ctx) && AllTyped(types, vs)
    ensures EvalUntil(h, stop, vs, ctx).Ok? && EvalUntil(h, stop, vs, ctx).value.Bool?
    decreases vs, 0
  {
    if vs != [] {
      TypedEvaluates(h, types, vs[0], ctx);
      TypedUntil(h, types, stop, vs[1..], ctx);
    }
  }

  lemma {:induction false} TypedChain(h: Host, types: Types, left: Value, ops: seq<CompareOp>, cs: seq<Expr>, ctx: Context)
    requires Conforms(types, ctx) && AllTyped(types, cs) && InType(left, MaybeNumber)
    requires forall i :: 0 <= i < |ops| ==> IsScalarOp(ops[i])
    ensures EvalChain(h, left, ops, cs, ctx).Ok? && EvalChain(h, left, ops, cs, ctx).value.Bool?
    decreases cs, 0
  {
    if ops != [] && cs != [] {
      TypedEvaluates(h, types, cs[0], ctx);
      assert IsScalarOp(ops[0]);
      TypedChain(h, types, Eval(h, cs[0], ctx).value, ops[1..], cs[1..], ctx);
    }
  }

  /** Typed conditions pass the walk as well. */
  lemma {:induction false} TypedIsAllowed(types: Types, e: Expr)
    requires TypeOf(types, e).Some?
    ensures Allowed(e)
    decreases e, 1
  {
    match e
    case Unary(_, x) => TypedIsAllowed(types, x);
    case Binary(_, l, r) =>
      TypedIsAllowed(types, l);
      TypedIsAllowed(types, r);
    case Boolean(_, vs) => AllTypedAllowed(types, vs);
    case Compare(x, _, cs) =>
      TypedIsAllowed(types, x);
      AllTypedAllowed(types, cs);
    case _ =>
  }

  lemma {:induction false} AllTypedAllowed(types: Types, es: seq<Expr>)
    requires AllTyped(types, es)
    ensures AllAllowed(es)
    decreases es, 0
  {
    if es != [] {
      TypedIsAllowed(types, es[0]);
      AllTypedAllowed(types, es[1..]);
    }
  }

  /** A well-typed condition therefore always yields a verdict. */
  lemma TypedConditionDecides(h: Host, types: Types, e: Expr, ctx: Context)
    requires Conforms(types, ctx) && TypeOf(types, e).Some?
    ensures Eval(h, e, ctx).Ok? && Evaluate(h, e, ctx) == Ok(Bool(Truthy(Eval(h, e, ctx).value)))
  {
    TypedEvaluates(h, types, e, ctx);
    TypedIsAllowed(types, e);
  }

  /** Division and modulo by zero give 0 whatever the dividend, provided both operands evaluate. */
  lemma ZeroDivisorGivesZero(h: Host, op: BinaryOp, l: Expr, r: Expr, ctx: Context)
    requires (op.Div? || op.Mod?) && Eval(h, l, ctx).Ok? && Eval(h, r, ctx).Ok? && IsZero(Eval(h, r, ctx).value)
    ensures Eval(h, Binary(op, l, r), ctx) == Ok(Int(0))
  {
  }
}
