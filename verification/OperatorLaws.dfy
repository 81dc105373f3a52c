/**
  What the operators of a policy condition mean on present values: numbers compare as numbers, texts
  alphabetically, and the derived operators follow from the basic ones.
 */
module OperatorLaws {
  import opened Prelude
  import opened PolicyValues
  import opened PolicyExpressions
  import opened PolicyMeaning
  import opened FailClosed
  import Ordering

  function Link(a: Expr, op: CompareOp, b: Expr): Expr {
    Compare(a, [op], [b])
  }

  function Negation(e: Expr): Expr {
    Unary(Not, e)
  }

  function Number(v: Outcome): real
    requires v.Ok? && IsNumber(v.value)
  {
    AsReal(v.value)
  }

  predicate IsNumeric(r: Outcome) {
    r.Ok? && IsNumber(r.value)
  }

  predicate IsText(r: Outcome) {
    r.Ok? && r.value.Str?
  }

  // ----- comparing --------------------------------------------------------------------------------

  /** Two numbers, booleans among them, compare by their values. */
  lemma NumbersCompare(h: Host, a: Expr, b: Expr, ctx: Context)
    requires IsNumeric(Eval(h, a, ctx)) && IsNumeric(Eval(h, b, ctx))
    ensures var (x, y) := (Number(Eval(h, a, ctx)), Number(Eval(h, b, ctx)));
      && Eval(h, Link(a, Ordered(Lt), b), ctx) == Ok(Bool(x < y))
      && Eval(h, Link(a, Ordered(LtE), b), ctx) == Ok(Bool(x <= y))
      && Eval(h, Link(a, Ordered(Gt), b), ctx) == Ok(Bool(x > y))
      && Eval(h, Link(a, Ordered(GtE), b), ctx) == Ok(Bool(x >= y))
      && Eval(h, Link(a, Eq, b), ctx) == Ok(Bool(x == y))
      && Eval(h, Link(a, NotEq, b), ctx) == Ok(Bool(x != y))
  {
    LinkMeaning(h, a, Ordered(Lt), b, ctx);
    LinkMeaning(h, a, Ordered(LtE), b, ctx);
    LinkMeaning(h, a, Ordered(Gt), b, ctx);
    LinkMeaning(h, a, Ordered(GtE), b, ctx);
    LinkMeaning(h, a, Eq, b, ctx);
    LinkMeaning(h, a, NotEq, b, ctx);
  }

  lemma TextOrder(x: string, y: string)
    ensures OrderText(LtE, x, y) == Ordering.Leq(x, y) && OrderText(GtE, x, y) == Ordering.Leq(y, x)
    ensures OrderText(Lt, x, y) == !Ordering.Leq(y, x) && OrderText(Gt, x, y) == !Ordering.Leq(x, y)
  {
    Ordering.LeqTotal(x, y);
    if Ordering.Leq(x, y) && Ordering.Leq(y, x) {
      Ordering.LeqAntisymmetric(x, y);
    }
  }

  /** Two texts compare alphabetically. */
  lemma TextsCompare(h: Host, op: OrderOp, a: Expr, b: Expr, ctx: Context)
    requires IsText(Eval(h, a, ctx)) && IsText(Eval(h, b, ctx))
    ensures var (x, y) := (Eval(h, a, ctx).value.s, Eval(h, b, ctx).value.s);
      && Eval(h, Link(a, Ordered(op), b), ctx) == Ok(Bool(match op
           case LtE => Ordering.Leq(x, y)
           case GtE => Ordering.Leq(y, x)
           case Lt => !Ordering.Leq(y, x)
           case Gt => !Ordering.Leq(x, y)))
      && Eval(h, Link(a, Eq, b), ctx) == Ok(Bool(x == y))
      && Eval(h, Link(a, NotEq, b), ctx) == Ok(Bool(x != y))
  {
    TextOrder(Eval(h, a, ctx).value.s, Eval(h, b, ctx).value.s);
    LinkMeaning(h, a, Ordered(op), b, ctx);
    LinkMeaning(h, a, Eq, b, ctx);
    LinkMeaning(h, a, NotEq, b, ctx);
  }

  /** What a comparison with a number answers for every metric there may be: only numbers pass, and only texts and containers raise. */
  lemma MetricAgainstNumber(h: Host, x: string, op: OrderOp, c: Value, ctx: Context)
    requires !IsKeyword(x) && IsNumber(c)
    ensures Passes(Eval(h, Atom(x, Ordered(op), c), ctx)) <==>
      x in ctx && IsNumber(ctx[x]) && OrderReal(op, AsReal(ctx[x]), AsReal(c))
    ensures Eval(h, Atom(x, Ordered(op), c), ctx).Err? <==> x in ctx && ctx[x] != Null && !IsNumber(ctx[x])
    ensures Passes(Eval(h, Atom(x, Eq, c), ctx)) <==> x in ctx && IsNumber(ctx[x]) && AsReal(ctx[x]) == AsReal(c)
    ensures Eval(h, Atom(x, Eq, c), ctx).Ok?
  {
    LinkMeaning(h, Name(x), Ordered(op), Constant(c), ctx);
    LinkMeaning(h, Name(x), Eq, Constant(c), ctx);
  }

  predicate Comparable(v: Value, w: Value) {
    (IsNumber(v) && IsNumber(w)) || (v.Str? && w.Str?)
  }

  /** Of two comparable values exactly one is less, or they are equal; the other comparisons follow. */
  lemma OrderLaws(h: Host, v: Value, w: Value)
    requires Comparable(v, w)
    ensures var (lt, gt, eq) := (Order(Lt, v, w), Order(Gt, v, w), PyEq(v, w));
      && lt != Fails && gt != Fails && (eq <==> lt == No && gt == No) && !(lt == Yes && gt == Yes)
      && Order(LtE, v, w) == Decide(gt == No) && Order(GtE, v, w) == Decide(lt == No) && Order(Lt, w, v) == gt
  {
    if v.Str? {
      TextOrder(v.s, w.s);
      TextOrder(w.s, v.s);
      if Ordering.Leq(v.s, w.s) && Ordering.Leq(w.s, v.s) {
        Ordering.LeqAntisymmetric(v.s, w.s);
      }
      Ordering.LeqTotal(v.s, w.s);
    }
  }

  lemma LinkAnswer(h: Host, a: Expr, op: CompareOp, b: Expr, ctx: Context)
    requires Eval(h, a, ctx).Ok? && Eval(h, b, ctx).Ok? && Test(h, op, Eval(h, a, ctx).value, Eval(h, b, ctx).value) != Fails
    ensures Eval(h, Link(a, op, b), ctx) == Ok(Bool(Test(h, op, Eval(h, a, ctx).value, Eval(h, b, ctx).value) == Yes))
  {
    LinkMeaning(h, a, op, b, ctx);
  }

  lemma NegationAnswer(h: Host, e: Expr, ctx: Context)
    requires Eval(h, e, ctx).Ok? && Eval(h, e, ctx).value.Bool?
    ensures Eval(h, Negation(e), ctx) == Ok(Bool(!Eval(h, e, ctx).value.b))
  {
  }

  /** The derived comparisons, for any two operands that evaluate to numbers or to texts. */
  lemma ComparisonLaws(h: Host, a: Expr, b: Expr, ctx: Context)
    requires Eval(h, a, ctx).Ok? && Eval(h, b, ctx).Ok? && Comparable(Eval(h, a, ctx).value, Eval(h, b, ctx).value)
    ensures Eval(h, Link(a, Ordered(GtE), b), ctx) == Eval(h, Negation(Link(a, Ordered(Lt), b)), ctx)
    ensures Eval(h, Link(a, Ordered(LtE), b), ctx) == Eval(h, Negation(Link(a, Ordered(Gt), b)), ctx)
    ensures Eval(h, Link(a, Ordered(Gt), b), ctx) == Eval(h, Link(b, Ordered(Lt), a), ctx)
    ensures Eval(h, Link(a, NotEq, b), ctx) == Eval(h, Negation(Link(a, Eq, b)), ctx)
  {
    OrderLaws(h, Eval(h, a, ctx).value, Eval(h, b, ctx).value);
    LinkAnswer(h, a, Ordered(Lt), b, ctx);
    LinkAnswer(h, a, Ordered(Gt), b, ctx);
    LinkAnswer(h, a, Ordered(LtE), b, ctx);
    LinkAnswer(h, a, Ordered(GtE), b, ctx);
    LinkAnswer(h, b, Ordered(Lt), a, ctx);
    LinkAnswer(h, a, Eq, b, ctx);
    LinkAnswer(h, a, NotEq, b, ctx);
    NegationAnswer(h, Link(a, Ordered(Lt), b), ctx);
    NegationAnswer(h, Link(a, Ordered(Gt), b), ctx);
    NegationAnswer(h, Link(a, Eq, b), ctx);
  }

  /** `a <= b` is `a < b or a == b`. */
  lemma AtMostIsLessOrEqual(h: Host, a: Expr, b: Expr, ctx: Context)
    requires Eval(h, a, ctx).Ok? && Eval(h, b, ctx).Ok? && Comparable(Eval(h, a, ctx).value, Eval(h, b, ctx).value)
    ensures Eval(h, Link(a, Ordered(LtE), b), ctx) == Eval(h, Boolean(Or, [Link(a, Ordered(Lt), b), Link(a, Eq, b)]), ctx)
  {
    OrderLaws(h, Eval(h, a, ctx).value, Eval(h, b, ctx).value);
    LinkAnswer(h, a, Ordered(LtE), b, ctx);
    LinkAnswer(h, a, Ordered(Lt), b, ctx);
    LinkAnswer(h, a, Eq, b, ctx);
    OrOfTwo(h, Link(a, Ordered(Lt), b), Link(a, Eq, b), ctx);
  }

  /** `and` of two conditions that raise nothing passes when both do, `or` when one does. */
  lemma OrOfTwo(h: Host, a: Expr, b: Expr, ctx: Context)
    requires Eval(h, a, ctx).Ok? && Eval(h, b, ctx).Ok?
    ensures Eval(h, Boolean(Or, [a, b]), ctx) == Ok(Bool(Passes(Eval(h, a, ctx)) || Passes(Eval(h, b, ctx))))
    ensures Eval(h, Boolean(And, [a, b]), ctx) == Ok(Bool(Passes(Eval(h, a, ctx)) && Passes(Eval(h, b, ctx))))
  {
    assert [a, b][1..] == [b] && [b][1..] == [];
    assert EvalUntil(h, true, [b], ctx) == Ok(Bool(Passes(Eval(h, b, ctx))));
    assert EvalUntil(h, false, [b], ctx) == Ok(Bool(Passes(Eval(h, b, ctx))));
  }

  /** A metric is None exactly when it is missing or null; `is`, `==` and their negations agree on that. */
  lemma NoneTests(h: Host, x: string, ctx: Context)
    requires !IsKeyword(x)
    ensures Passes(Eval(h, Atom(x, Is, Null), ctx)) <==> x !in ctx || ctx[x] == Null
    ensures Passes(Eval(h, Atom(x, Eq, Null), ctx)) <==> x !in ctx || ctx[x] == Null
    ensures Passes(Eval(h, Atom(x, IsNot, Null), ctx)) <==> x in ctx && ctx[x] != Null
    ensures Passes(Eval(h, Atom(x, NotEq, Null), ctx)) <==> x in ctx && ctx[x] != Null
  {
    LinkMeaning(h, Name(x), Is, Constant(Null), ctx);
    LinkMeaning(h, Name(x), Eq, Constant(Null), ctx);
    LinkMeaning(h, Name(x), IsNot, Constant(Null), ctx);
    LinkMeaning(h, Name(x), NotEq, Constant(Null), ctx);
  }

  /** Membership in a list is equality with one of its items, and `not in` is its negation. */
  lemma MemberOfList(h: Host, a: Expr, b: Expr, ctx: Context)
    requires Eval(h, a, ctx).Ok? && Eval(h, b, ctx).Ok? && Eval(h, b, ctx).value.List?
    ensures Passes(Eval(h, Link(a, In, b), ctx)) <==>
      exists i :: 0 <= i < |Eval(h, b, ctx).value.items| && PyEq(Eval(h, a, ctx).value, Eval(h, b, ctx).value.items[i])
    ensures Eval(h, Link(a, NotIn, b), ctx) == Eval(h, Negation(Link(a, In, b)), ctx)
  {
    LinkMeaning(h, a, In, b, ctx);
    LinkMeaning(h, a, NotIn, b, ctx);
  }

  /** Nothing is in None, whose absence counts as an empty container. */
  lemma MemberOfNone(h: Host, a: Expr, b: Expr, ctx: Context)
    requires Eval(h, a, ctx).Ok? && Eval(h, b, ctx) == Ok(Null)
    ensures Eval(h, Link(a, In, b), ctx) == Ok(Bool(false)) && Eval(h, Link(a, NotIn, b), ctx) == Ok(Bool(true))
  {
    LinkMeaning(h, a, In, b, ctx);
    LinkMeaning(h, a, NotIn, b, ctx);
  }

  /** Three names are constants, whatever the metrics; every other name is a metric or None. */
  lemma NameMeaning(h: Host, x: string, ctx: Context)
    ensures Eval(h, Name("True"), ctx) == Ok(Bool(true)) && Eval(h, Name("False"), ctx) == Ok(Bool(false))
    ensures Eval(h, Name("None"), ctx) == Ok(Null)
    ensures x !in {"True", "False", "None"} ==> Eval(h, Name(x), ctx) == Ok(if x in ctx then ctx[x] else Null)
  {
  }

  // ----- computing --------------------------------------------------------------------------------

  /** A binary operation applies to the values of its operands. */
  lemma BinaryMeaning(h: Host, op: BinaryOp, a: Expr, b: Expr, ctx: Context)
    requires Eval(h, a, ctx).Ok? && Eval(h, b, ctx).Ok?
    ensures Eval(h, Binary(op, a, b), ctx) == ApplyBinary(h, op, Eval(h, a, ctx).value, Eval(h, b, ctx).value)
  {
  }

  lemma IntsAreReals(v: Value)
    requires v.Bool? || v.Int?
    ensures AsReal(v) == AsInt(v) as real
  {
  }

  lemma IntProduct(x: int, y: int)
    ensures (x * y) as real == x as real * y as real
  {
  }

  lemma SumOfNumbers(v: Value, w: Value)
    requires IsNumber(v) && IsNumber(w)
    ensures var r := Arithmetic(Add, v, w); IsNumeric(r) && Number(r) == AsReal(v) + AsReal(w)
  {
  }

  lemma DifferenceOfNumbers(v: Value, w: Value)
    requires IsNumber(v) && IsNumber(w)
    ensures var r := Arithmetic(Sub, v, w); IsNumeric(r) && Number(r) == AsReal(v) - AsReal(w)
  {
  }

  lemma ProductOfNumbers(v: Value, w: Value)
    requires IsNumber(v) && IsNumber(w)
    ensures var r := Arithmetic(Mult, v, w); IsNumeric(r) && Number(r) == AsReal(v) * AsReal(w)
  {
    if !v.Float? && !w.Float? {
      IntsAreReals(v);
      IntsAreReals(w);
      assert Arithmetic(Mult, v, w) == Ok(Int(AsInt(v) * AsInt(w)));
      IntProduct(AsInt(v), AsInt(w));
    }
  }

  lemma SignsOfNumbers(v: Value)
    requires IsNumber(v)
    ensures IsNumeric(ApplyUnary(USub, v)) && Number(ApplyUnary(USub, v)) == -AsReal(v)
    ensures IsNumeric(ApplyUnary(UAdd, v)) && Number(ApplyUnary(UAdd, v)) == AsReal(v)
  {
  }

  /** A quotient times its divisor is the dividend. */
  lemma QuotientOfNumbers(v: Value, w: Value)
    requires IsNumber(v) && IsNumber(w) && AsReal(w) != 0.0
    ensures IsNumeric(Divide(v, w)) && Number(Divide(v, w)) * AsReal(w) == AsReal(v)
  {
    QuotientTimesDivisor(AsReal(v), AsReal(w));
  }

  lemma QuotientTimesDivisor(x: real, y: real)
    requires y != 0.0
    ensures x / y * y == x
  {
  }

  /** The remainder lies between zero and the divisor and differs from the dividend by a multiple of it. */
  ghost predicate IsRemainder(x: real, y: real, rest: real) {
    && (if y > 0.0 then 0.0 <= rest < y else y < rest <= 0.0)
    && exists q: int :: x == Multiple(q, y) + rest
  }

  function Multiple(q: int, y: real): real {
    q as real * y
  }

  lemma RemainderOfNumbers(h: Host, v: Value, w: Value)
    requires IsNumber(v) && IsNumber(w) && AsReal(w) != 0.0
    ensures IsNumeric(Modulo(h, v, w)) && IsRemainder(AsReal(v), AsReal(w), Number(Modulo(h, v, w)))
  {
    if v.Float? || w.Float? {
      RealRemainder(AsReal(v), AsReal(w));
    } else {
      IntsAreReals(v);
      IntsAreReals(w);
      IntRemainder(AsInt(v), AsInt(w));
    }
  }

  lemma RealRemainder(x: real, y: real)
    requires y != 0.0
    ensures IsRemainder(x, y, FloorMod(x, y))
  {
    var q := (x / y).Floor;
    var part := x / y - q as real;
    QuotientTimesDivisor(x, y);
    assert FloorMod(x, y) == part * y;
    if y > 0.0 {
      assert part * y >= 0.0 && (1.0 - part) * y > 0.0;
    } else {
      assert part * -y >= 0.0 && (1.0 - part) * -y > 0.0;
    }
    assert x == Multiple(q, y) + FloorMod(x, y);
  }

  lemma IntRemainder(x: int, y: int)
    requires y != 0
    ensures IsRemainder(x as real, y as real, IntFloorMod(x, y) as real)
  {
    IntFloorModSign(x, y);
    var q :| x == q * y + IntFloorMod(x, y);
    IntProduct(q, y);
    assert x as real == Multiple(q, y as real) + IntFloorMod(x, y) as real;
  }

  /** Texts and lists are joined by `+`. */
  lemma JoinsConcatenate(h: Host, a: Expr, b: Expr, ctx: Context)
    requires Eval(h, a, ctx).Ok? && Eval(h, b, ctx).Ok?
    ensures var (v, w) := (Eval(h, a, ctx).value, Eval(h, b, ctx).value);
      && (v.Str? && w.Str? ==> Eval(h, Binary(Math(Add), a, b), ctx) == Ok(Str(v.s + w.s)))
      && (v.List? && w.List? ==> Eval(h, Binary(Math(Add), a, b), ctx) == Ok(List(v.items + w.items)))
      && (v.Str? != w.Str? ==> Eval(h, Binary(Math(Add), a, b), ctx) == Err(TypeError))
  {
  }

  // ----- dicts and lists --------------------------------------------------------------------------

  /** A dict whose keys are texts gives back what was last set under a key. */
  lemma {:induction false} SetThenLookup(d: seq<Entry>, k: string, v: Value, other: string)
    requires forall i :: 0 <= i < |d| ==> d[i].key.Str?
    ensures Lookup(SetEntry(d, Str(k), v), Str(other)) == if other == k then v else Lookup(d, Str(other))
  {
    if d != [] && d[0].key.s != k {
      SetThenLookup(d[1..], k, v, other);
      assert SetEntry(d, Str(k), v)[1..] == SetEntry(d[1..], Str(k), v);
    } else if d != [] {
      assert SetEntry(d, Str(k), v)[1..] == d[1..];
    }
  }

  /** Lists count from the front, and with negative numbers from the end; outside there is None. */
  lemma SubscriptOfList(items: seq<Value>, i: int)
    ensures Subscript(List(items), Int(i)) ==
      if 0 <= i < |items| then items[i] else if -|items| <= i < 0 then items[|items| + i] else Null
  {
  }

  /** An attribute of a dict is its entry of that name. */
  lemma AttributeIsEntry(h: Host, e: Expr, name: string, ctx: Context)
    requires Eval(h, e, ctx).Ok? && Eval(h, e, ctx).value.Dict?
    ensures Eval(h, AttributeOf(e, name), ctx) == Eval(h, SubscriptOf(e, Constant(Str(name))), ctx)
  {
  }

  /** Nothing but None, False, zero and what is empty counts as false. */
  lemma FalseValues(h: Host, e: Expr, ctx: Context)
    requires Eval(h, e, ctx).Ok?
    ensures var v := Eval(h, e, ctx).value;
      Passes(Eval(h, Negation(e), ctx)) <==>
        v in {Null, Bool(false), Int(0), Float(0.0), Str(""), List([]), Dict([])}
  {
  }
}
