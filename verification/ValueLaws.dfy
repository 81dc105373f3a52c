/** Laws of the Python operators on values of a policy condition that hold whatever the condition. */
module ValueLaws {
  import opened Prelude
  import opened PolicyValues

  // ----- equality ---------------------------------------------------------------------------------

  /** Every value equals itself, however deeply it nests. */
  lemma {:induction false} PyEqReflexive(v: Value)
    ensures PyEq(v, v)
  {
    match v
    case List(items) =>
      forall i | 0 <= i < |items| ensures PyEq(items[i], items[i]) {
        PyEqReflexive(items[i]);
      }
    case Dict(entries) =>
      forall i | 0 <= i < |entries| ensures HasEntry(entries[i], entries) {
        PyEqReflexive(entries[i].key);
        PyEqReflexive(entries[i].value);
      }
    case _ =>
  }

  /** Neither is nor contains a dict, whose symmetry would need distinct keys. */
  predicate DictFree(v: Value) {
    match v
    case Dict(_) => false
    case List(items) => forall i :: 0 <= i < |items| ==> DictFree(items[i])
    case _ => true
  }

  lemma {:induction false} PyEqSymmetric(a: Value, b: Value)
    requires DictFree(a) && PyEq(a, b)
    ensures DictFree(b) && PyEq(b, a)
    decreases a
  {
    if a.List? {
      forall i | 0 <= i < |a.items| ensures DictFree(b.items[i]) && PyEq(b.items[i], a.items[i]) {
        PyEqSymmetric(a.items[i], b.items[i]);
      }
    }
  }

  lemma {:induction false} PyEqTransitive(a: Value, b: Value, c: Value)
    requires DictFree(a) && PyEq(a, b) && PyEq(b, c)
    ensures PyEq(a, c)
    decreases a
  {
    if a.List? {
      forall i | 0 <= i < |a.items| ensures PyEq(a.items[i], c.items[i]) {
        PyEqTransitive(a.items[i], b.items[i], c.items[i]);
      }
    }
  }

  predicate TextKeys(d: seq<Entry>) {
    && (forall i :: 0 <= i < |d| ==> d[i].key.Str?)
    && forall i, j :: 0 <= i < j < |d| ==> d[i].key != d[j].key
  }

  lemma {:induction false} LookupFinds(d: seq<Entry>, i: nat)
    requires TextKeys(d) && i < |d|
    ensures Lookup(d, d[i].key) == d[i].value
  {
    if i > 0 {
      LookupFinds(d[1..], i - 1);
    }
  }

  /** Equal dicts agree on what is under each key, and neither has a key the other lacks. */
  lemma EqualDictsAgree(a: seq<Entry>, b: seq<Entry>, i: nat)
    requires TextKeys(a) && TextKeys(b) && PyEq(Dict(a), Dict(b)) && i < |a|
    ensures |a| == |b| && HasKey(b, a[i].key) && PyEq(Lookup(a, a[i].key), Lookup(b, a[i].key))
  {
    assert HasEntry(a[i], b);
    var j :| 0 <= j < |b| && PyEq(a[i].key, b[j].key) && PyEq(a[i].value, b[j].value);
    LookupFinds(a, i);
    LookupFinds(b, j);
  }

  // ----- lists ------------------------------------------------------------------------------------

  predicate AgreeBelow(a: seq<Value>, b: seq<Value>, n: nat) {
    n <= |a| && n <= |b| && forall i :: 0 <= i < n ==> PyEq(a[i], b[i])
  }

  /** Lists compare at their first difference; without one the shorter list is the smaller. */
  lemma {:induction false} ListsCompareAt(op: OrderOp, a: seq<Value>, b: seq<Value>, n: nat)
    requires AgreeBelow(a, b, n)
    ensures n < |a| && n < |b| && !PyEq(a[n], b[n]) ==> Order(op, List(a), List(b)) == Order(op, a[n], b[n])
    ensures n == |a| || n == |b| ==> Order(op, List(a), List(b)) == Decide(OrderReal(op, |a| as real, |b| as real))
  {
    if n > 0 {
      ListsCompareAt(op, a[1..], b[1..], n - 1);
    }
  }

  // ----- repetition -------------------------------------------------------------------------------

  lemma Reassociated<T>(a: seq<T>, b: seq<T>, c: seq<T>)
    ensures a + (b + c) == (a + b) + c
  {
  }

  /** `s * (n + m)` is `s * n + s * m`. */
  lemma {:induction false} RepeatAdds<T>(s: seq<T>, n: nat, m: nat)
    ensures Repeat(s, n + m) == Repeat(s, n) + Repeat(s, m)
    decreases n
  {
    if n > 0 {
      RepeatAdds(s, n - 1, m);
      Reassociated(s, Repeat(s, n - 1), Repeat(s, m));
      assert n - 1 + m == n + m - 1;
    }
  }

  /** Once is the thing itself, and a count of zero or less gives nothing. */
  lemma RepeatOnce<T>(s: seq<T>, n: int)
    ensures Repeat(s, 1) == s && (n <= 0 ==> Repeat(s, n) == [])
  {
    assert Repeat(s, 1) == s + Repeat(s, 0);
  }

  /** A text or list times a count is the repetition, on either side of the count; booleans count as 0 and 1. */
  lemma ProductRepeats(s: string, items: seq<Value>, n: Value)
    requires IsCount(n)
    ensures Arithmetic(Mult, Str(s), n) == Arithmetic(Mult, n, Str(s)) == Ok(Str(Repeat(s, AsInt(n))))
    ensures Arithmetic(Mult, List(items), n) == Arithmetic(Mult, n, List(items)) == Ok(List(Repeat(items, AsInt(n))))
  {
  }

  /** Only numbers subtract, and a text cannot be multiplied by a fraction. */
  lemma OtherArithmeticRaises(v: Value, w: Value)
    requires !IsNumber(v) || !IsNumber(w)
    ensures Arithmetic(Sub, v, w) == Err(TypeError)
    ensures v.Float? || w.Float? ==> Arithmetic(Mult, v, w) == Err(TypeError)
    ensures v.Null? || w.Null? || v.Dict? || w.Dict? ==> forall op :: Arithmetic(op, v, w) == Err(TypeError)
  {
  }

  /** `%` after a text formats, unless the right side is a zero. */
  lemma TextModuloFormats(h: Host, s: string, v: Value)
    ensures Modulo(h, Str(s), v) == if IsNumber(v) && AsReal(v) == 0.0 then Ok(Int(0)) else h.format(s, v)
  {
  }

  // ----- membership -------------------------------------------------------------------------------

  lemma TextBetween(before: string, part: string, after: string)
    ensures Contains(before + part + after, part)
  {
    assert OccursAt(before + part + after, part, |before|);
  }

  lemma TextAround(part: string, whole: string) returns (i: nat)
    requires Contains(whole, part)
    ensures i + |part| <= |whole| && whole == whole[..i] + part + whole[i + |part|..]
  {
    i :| 0 <= i <= |whole| && OccursAt(whole, part, i);
  }

  /** A text is in another exactly when the other splits around it. */
  lemma TextInTextIff(part: string, whole: string)
    ensures Member(Str(part), Str(whole)) == Yes <==> exists before, after :: whole == before + part + after
  {
    if before, after :| whole == before + part + after {
      TextBetween(before, part, after);
    }
    if Contains(whole, part) {
      var i := TextAround(part, whole);
    }
  }

  /** A dict contains the keys that were set, and no others. */
  lemma {:induction false} SetThenMember(d: seq<Entry>, k: string, v: Value, other: string)
    requires forall i :: 0 <= i < |d| ==> d[i].key.Str?
    ensures Member(Str(other), Dict(SetEntry(d, Str(k), v))) == Yes <==> other == k || Member(Str(other), Dict(d)) == Yes
    ensures Member(Str(other), Dict([])) == No
  {
    HasKeySplits(SetEntry(d, Str(k), v), other);
    HasKeySplits(d, other);
    if d != [] && d[0].key.s != k {
      SetThenMember(d[1..], k, v, other);
      assert SetEntry(d, Str(k), v)[1..] == SetEntry(d[1..], Str(k), v);
    } else if d != [] {
      assert SetEntry(d, Str(k), v)[1..] == d[1..];
    }
  }

  lemma HasKeySplits(d: seq<Entry>, k: string)
    ensures HasKey(d, Str(k)) <==> d != [] && (PyEq(d[0].key, Str(k)) || HasKey(d[1..], Str(k)))
  {
    if HasKey(d, Str(k)) {
      var i :| 0 <= i < |d| && PyEq(d[i].key, Str(k));
      assert i == 0 || d[i] == d[1..][i - 1];
    }
    if d != [] && HasKey(d[1..], Str(k)) {
      var i :| 0 <= i < |d[1..]| && PyEq(d[1..][i].key, Str(k));
      assert d[1..][i] == d[i + 1];
    }
  }
}
