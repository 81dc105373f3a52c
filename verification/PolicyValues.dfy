/**
  The values a policy condition computes with, and the Python operators `sentinel/policy/engine.py`
  applies to them. Numbers are exact: infinities, NaN and rounding are not modelled.
 */
module PolicyValues {
  import Ordering

  datatype Value =
    | Null
    | Bool(b: bool)
    | Int(i: int)
    | Float(r: real)
    | Str(s: string)
    | List(items: seq<Value>)
    | Dict(entries: seq<Entry>)
    | Other(id: nat)           // any other object, such as a bound method

  datatype Entry = Entry(key: Value, value: Value)

  datatype Error = TypeError | UnsupportedNode | ForbiddenNode

  datatype Outcome = Ok(value: Value) | Err(error: Error)

  datatype Answer = Yes | No | Fails

  /** What the evaluator takes from the Python runtime: attributes of objects that are not dicts,
      `%` on a format string, and object identity where a value does not settle it. */
  datatype Host = Host(
    attribute: (Value, string) -> Value,
    format: (string, Value) -> Outcome,
    sameObject: (Value, Value) -> bool)

  predicate IsNumber(v: Value) {
    v.Bool? || v.Int? || v.Float?
  }

  function AsReal(v: Value): real
    requires IsNumber(v)
  {
    match v
    case Bool(b) => if b then 1.0 else 0.0
    case Int(i) => i as real
    case Float(r) => r
  }

  function AsInt(v: Value): int
    requires v.Bool? || v.Int?
  {
    if v.Int? then v.i else if v.b then 1 else 0
  }

  predicate Truthy(v: Value) {
    match v
    case Null => false
    case Bool(b) => b
    case Int(i) => i != 0
    case Float(r) => r != 0.0
    case Str(s) => s != ""
    case List(items) => items != []
    case Dict(entries) => entries != []
    case Other(_) => true
  }

  predicate Hashable(v: Value) {
    !v.List? && !v.Dict?
  }

  // ----- equality, order and membership -----------------------------------------------------------

  predicate PyEq(a: Value, b: Value)
    decreases a
  {
    if IsNumber(a) && IsNumber(b) then AsReal(a) == AsReal(b)
    else match a
      case Null => b.Null?
      case Str(s) => b.Str? && s == b.s
      case List(items) =>
        b.List? && |items| == |b.items| && forall i :: 0 <= i < |items| ==> PyEq(items[i], b.items[i])
      case Dict(entries) =>
        && b.Dict? && |entries| == |b.entries|
        && forall i :: 0 <= i < |entries| ==> HasEntry(entries[i], b.entries)
      case Other(id) => b.Other? && id == b.id
      case _ => false
  }

  predicate HasEntry(x: Entry, entries: seq<Entry>)
    decreases x
  {
    exists j :: 0 <= j < |entries| && PyEq(x.key, entries[j].key) && PyEq(x.value, entries[j].value)
  }

  datatype OrderOp = Lt | LtE | Gt | GtE

  predicate OrderReal(op: OrderOp, a: real, b: real) {
    match op
    case Lt => a < b
    case LtE => a <= b
    case Gt => a > b
    case GtE => a >= b
  }

  predicate OrderText(op: OrderOp, a: string, b: string) {
    match op
    case Lt => Ordering.Leq(a, b) && a != b
    case LtE => Ordering.Leq(a, b)
    case Gt => Ordering.Leq(b, a) && a != b
    case GtE => Ordering.Leq(b, a)
  }

  function Decide(b: bool): Answer {
    if b then Yes else No
  }

  /** An ordered comparison of two values; mixed types raise, lists compare at their first difference. */
  function Order(op: OrderOp, a: Value, b: Value): Answer
    decreases a, 1
  {
    if IsNumber(a) && IsNumber(b) then Decide(OrderReal(op, AsReal(a), AsReal(b)))
    else if a.Str? && b.Str? then Decide(OrderText(op, a.s, b.s))
    else if a.List? && b.List? then OrderLists(op, a.items, b.items)
    else Fails
  }

  function OrderLists(op: OrderOp, a: seq<Value>, b: seq<Value>): Answer
    decreases a, 0
  {
    if a == [] || b == [] then Decide(OrderReal(op, |a| as real, |b| as real))
    else if PyEq(a[0], b[0]) then OrderLists(op, a[1..], b[1..])
    else Order(op, a[0], b[0])
  }

  predicate OccursAt(whole: string, part: string, i: int) {
    0 <= i <= |whole| - |part| && whole[i..i + |part|] == part
  }

  predicate Contains(whole: string, part: string) {
    exists i :: 0 <= i <= |whole| && OccursAt(whole, part, i)
  }

  predicate HasKey(entries: seq<Entry>, key: Value) {
    exists i :: 0 <= i < |entries| && PyEq(entries[i].key, key)
  }

  /** `a in b` for a `b` that is not None. */
  function Member(a: Value, b: Value): Answer {
    match b
    case Str(s) => if a.Str? then Decide(Contains(s, a.s)) else Fails
    case List(items) => Decide(exists i :: 0 <= i < |items| && PyEq(a, items[i]))
    case Dict(entries) => if Hashable(a) then Decide(HasKey(entries, a)) else Fails
    case _ => Fails
  }

  /** `a is b`: None and the booleans are single objects; for the rest the runtime decides. */
  predicate Same(h: Host, a: Value, b: Value) {
    if a.Null? || a.Bool? || b.Null? || b.Bool? then a == b else h.sameObject(a, b)
  }

  // ----- arithmetic -------------------------------------------------------------------------------

  function Negate(v: Value): Outcome {
    match v
    case Float(r) => Ok(Float(-r))
    case Bool(_) => Ok(Int(-AsInt(v)))
    case Int(_) => Ok(Int(-AsInt(v)))
    case _ => Err(TypeError)
  }

  function Plus(v: Value): Outcome {
    match v
    case Float(r) => Ok(Float(r))
    case Bool(_) => Ok(Int(AsInt(v)))
    case Int(_) => Ok(Int(AsInt(v)))
    case _ => Err(TypeError)
  }

  /** Python's `%` takes the sign of the divisor. */
  function FloorMod(a: real, b: real): real
    requires b != 0.0
  {
    a - b * ((a / b).Floor as real)
  }

  function IntFloorMod(a: int, b: int): int
    requires b != 0
  {
    if b > 0 then a % b else -((-a) % (-b))
  }

  datatype MathOp = Add | Sub | Mult

  function Calculate<T>(op: MathOp, add: T, sub: T, mult: T): T {
    match op case Add => add case Sub => sub case Mult => mult
  }

  function OnNumbers(op: MathOp, a: Value, b: Value): Value
    requires IsNumber(a) && IsNumber(b)
  {
    if a.Float? || b.Float? then
      var (x, y) := (AsReal(a), AsReal(b));
      Float(Calculate(op, x + y, x - y, x * y))
    else
      var (x, y) := (AsInt(a), AsInt(b));
      Int(Calculate(op, x + y, x - y, x * y))
  }

  function Repeat<T>(s: seq<T>, n: int): seq<T>
    decreases if n > 0 then n else 0
  {
    if n <= 0 then [] else s + Repeat(s, n - 1)
  }

  predicate IsCount(v: Value) {
    v.Bool? || v.Int?
  }

  function Arithmetic(op: MathOp, a: Value, b: Value): Outcome {
    if IsNumber(a) && IsNumber(b) then Ok(OnNumbers(op, a, b))
    else if op.Add? && a.Str? && b.Str? then Ok(Str(a.s + b.s))
    else if op.Add? && a.List? && b.List? then Ok(List(a.items + b.items))
    else if op.Mult? && a.Str? && IsCount(b) then Ok(Str(Repeat(a.s, AsInt(b))))
    else if op.Mult? && a.List? && IsCount(b) then Ok(List(Repeat(a.items, AsInt(b))))
    else if op.Mult? && IsCount(a) && b.Str? then Ok(Str(Repeat(b.s, AsInt(a))))
    else if op.Mult? && IsCount(a) && b.List? then Ok(List(Repeat(b.items, AsInt(a))))
    else Err(TypeError)
  }

  predicate IsZero(v: Value) {
    IsNumber(v) && AsReal(v) == 0.0
  }

  /** `left / right if right != 0 else 0`: a zero divisor gives 0 before the left operand is looked at. */
  function Divide(a: Value, b: Value): Outcome {
    if IsZero(b) then Ok(Int(0))
    else if IsNumber(a) && IsNumber(b) then Ok(Float(AsReal(a) / AsReal(b)))
    else Err(TypeError)
  }

  function Modulo(h: Host, a: Value, b: Value): Outcome {
    if IsZero(b) then Ok(Int(0))
    else if IsNumber(a) && IsNumber(b) then
      if a.Float? || b.Float? then Ok(Float(FloorMod(AsReal(a), AsReal(b))))
      else Ok(Int(IntFloorMod(AsInt(a), AsInt(b))))
    else if a.Str? then h.format(a.s, b)
    else Err(TypeError)
  }

  /** A modulo result lies between zero and the divisor, on the divisor's side. */
  lemma IntFloorModSign(a: int, b: int)
    requires b != 0
    ensures b > 0 ==> 0 <= IntFloorMod(a, b) < b
    ensures b < 0 ==> b < IntFloorMod(a, b) <= 0
    ensures exists q :: a == q * b + IntFloorMod(a, b)
  {
    if b > 0 {
      assert a == (a / b) * b + a % b;
    } else {
      assert -a == ((-a) / (-b)) * (-b) + (-a) % (-b);
      assert a == ((-a) / (-b)) * b + IntFloorMod(a, b);
    }
  }

  // ----- containers -------------------------------------------------------------------------------

  /** `d.get(key)`; an unhashable key behaves like a missing one here, as both give None. */
  function Lookup(entries: seq<Entry>, key: Value): Value {
    if entries == [] then Null
    else if PyEq(entries[0].key, key) then entries[0].value
    else Lookup(entries[1..], key)
  }

  function Attribute(h: Host, v: Value, name: string): Value {
    if v.Dict? then Lookup(v.entries, Str(name)) else h.attribute(v, name)
  }

  function Subscript(v: Value, key: Value): Value {
    match v
    case Dict(entries) => if Hashable(key) then Lookup(entries, key) else Null
    case List(items) =>
      if !IsCount(key) then Null
      else
        var i := if AsInt(key) < 0 then AsInt(key) + |items| else AsInt(key);
        if 0 <= i < |items| then items[i] else Null
    case _ => Null
  }

  /** Setting a key of a dict display: an equal key keeps its place and takes the new value. */
  function SetEntry(entries: seq<Entry>, key: Value, value: Value): seq<Entry> {
    if entries == [] then [Entry(key, value)]
    else if PyEq(entries[0].key, key) then [Entry(entries[0].key, value)] + entries[1..]
    else [entries[0]] + SetEntry(entries[1..], key, value)
  }
}
