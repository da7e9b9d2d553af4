/**
 * The `Value` accessor of jj.go: a read-only view of one node of an
 * already-decoded JSON tree, with type inspection, path traversal and typed
 * extraction.
 *
 * A Go `*Value` is modelled as `Option<Json>`: `None` is the nil pointer that
 * stands for an absent node, `Some(j)` a node whose `data` is the payload `j`.
 * A Go pair `(value, err)` is modelled as `Ret(val, err)`, keeping the zero
 * value Go returns beside an error.
 */
module JJ {
  import opened Wrappers
  import opened Lexicographic

  /** The untyped payload the decoder writes into `Value.data`. */
  datatype Json =
    | JNull
    | JBool(b: bool)
    | JNum(n: real)
    | JStr(s: string)
    | JList(items: seq<Json>)
    | JObj(fields: map<string, Json>)

  /** A `*Value`: `None` is the nil pointer of an absent node. */
  type Value = Option<Json>

  /** The type tags `Null` .. `List` of jj.go, prefixed so they do not clash with the accessors. */
  datatype Type = TNull | TNumber | TString | TBool | TObject | TList

  /** A path component: a map key or a list index. */
  datatype Key = KStr(name: string) | KIdx(index: int)

  /** The errors the accessors return ("no such key", "object is not a ..."). */
  datatype Error = NoSuchKey | NotAString | NotANumber | NotAMap | NotAList

  /** A Go result pair: the value returned beside the error, and the error. */
  datatype Ret<T> = Ret(val: T, err: Option<Error>)

  // ---------------------------------------------------------------------
  // Type inspection
  // ---------------------------------------------------------------------

  /** `Value.Type`: an absent node reports `Null`, like a null payload. */
  function TypeOf(v: Value): Type {
    match v
    case None => TNull
    case Some(j) =>
      match j
      case JStr(_) => TString
      case JNum(_) => TNumber
      case JBool(_) => TBool
      case JNull => TNull
      case JObj(_) => TObject
      case JList(_) => TList
  }

  predicate IsObject(v: Value) { TypeOf(v) == TObject }
  predicate IsNumber(v: Value) { TypeOf(v) == TNumber }
  predicate IsString(v: Value) { TypeOf(v) == TString }
  predicate IsNull(v: Value) { TypeOf(v) == TNull }
  predicate IsList(v: Value) { TypeOf(v) == TList }
  predicate IsBool(v: Value) { TypeOf(v) == TBool }

  /** How many of the six `Is*` predicates hold of `v`. */
  function TrueIsCount(v: Value): nat {
    (if IsObject(v) then 1 else 0) + (if IsNumber(v) then 1 else 0) +
    (if IsString(v) then 1 else 0) + (if IsNull(v) then 1 else 0) +
    (if IsList(v) then 1 else 0) + (if IsBool(v) then 1 else 0)
  }

  /**
   * Each `Is*` predicate recognises exactly one payload shape, absent and
   * null nodes are both `Null`, and exactly one predicate holds of any node.
   */
  lemma TypeClassification(v: Value)
    ensures IsNull(v) <==> v == None || v == Some(JNull)
    ensures IsNumber(v) <==> v.Some? && v.value.JNum?
    ensures IsString(v) <==> v.Some? && v.value.JStr?
    ensures IsBool(v) <==> v.Some? && v.value.JBool?
    ensures IsObject(v) <==> v.Some? && v.value.JObj?
    ensures IsList(v) <==> v.Some? && v.value.JList?
    ensures TrueIsCount(v) == 1
  {
  }

  // ---------------------------------------------------------------------
  // Typed extraction: strings
  // ---------------------------------------------------------------------

  /** `Value.StringOrError`. */
  function StringOrError(v: Value): (r: Ret<string>)
    ensures r.err.None? <==> IsString(v)
    ensures r.err == Some(NoSuchKey) <==> v.None?
    ensures r.err == Some(NotAString) <==> v.Some? && !IsString(v)
    ensures r.err.None? ==> v == Some(JStr(r.val))
    ensures r.err.Some? ==> r.val == ""
  {
    if v.None? then Ret("", Some(NoSuchKey))
    else if v.value.JStr? then Ret(v.value.s, None)
    else Ret("", Some(NotAString))
  }

  /** `Value.String`: the panic when the first tier errs is the precondition. */
  function String(v: Value): (s: string)
    requires StringOrError(v).err.None?
    ensures v == Some(JStr(s))
  {
    StringOrError(v).val
  }

  /** `Value.StringOrDefault`: `d` exactly when the first tier errs. */
  function StringOrDefault(v: Value, d: string): (s: string)
    ensures StringOrError(v).err.Some? ==> s == d
    ensures StringOrError(v).err.None? ==> v == Some(JStr(s))
  {
    var r := StringOrError(v);
    if r.err.Some? then d else r.val
  }

  // ---------------------------------------------------------------------
  // Typed extraction: numbers
  // ---------------------------------------------------------------------

  /** Go's conversion `int64(d)` of a float: truncation toward zero. */
  function TruncateTowardZero(x: real): (n: int)
    ensures 0.0 <= x ==> 0 <= n && n as real <= x < n as real + 1.0
    ensures x < 0.0 ==> n <= 0 && n as real - 1.0 < x <= n as real
  {
    if 0.0 <= x then x.Floor else -((-x).Floor)
  }

  /** `Value.NumberOrError`. */
  function NumberOrError(v: Value): (r: Ret<int>)
    ensures r.err.None? <==> IsNumber(v)
    ensures r.err == Some(NoSuchKey) <==> v.None?
    ensures r.err == Some(NotANumber) <==> v.Some? && !IsNumber(v)
    ensures r.err.None? ==> v.value.JNum? && r.val == TruncateTowardZero(v.value.n)
    ensures r.err.Some? ==> r.val == 0
  {
    if v.None? then Ret(0, Some(NoSuchKey))
    else if v.value.JNum? then Ret(TruncateTowardZero(v.value.n), None)
    else Ret(0, Some(NotANumber))
  }

  /** `Value.Number`: the panic when the first tier errs is the precondition. */
  function Number(v: Value): (n: int)
    requires NumberOrError(v).err.None?
    ensures v.Some? && v.value.JNum? && n == TruncateTowardZero(v.value.n)
  {
    NumberOrError(v).val
  }

  /** `Value.NumberOrDefault`: `d` exactly when the first tier errs. */
  function NumberOrDefault(v: Value, d: int): (n: int)
    ensures NumberOrError(v).err.Some? ==> n == d
    ensures NumberOrError(v).err.None? ==>
              v.Some? && v.value.JNum? && n == TruncateTowardZero(v.value.n)
  {
    var r := NumberOrError(v);
    if r.err.Some? then d else r.val
  }

  // ---------------------------------------------------------------------
  // Container materialisation
  // ---------------------------------------------------------------------

  /** `res` has the keys of `fields`, each wrapping the matching child. */
  predicate WrapsFields(res: map<string, Value>, fields: map<string, Json>) {
    res.Keys == fields.Keys && forall k :: k in fields ==> res[k] == Some(fields[k])
  }

  /** `res` has the length of `items`, each element wrapping the matching child. */
  predicate WrapsItems(res: seq<Value>, items: seq<Json>) {
    |res| == |items| && forall i :: 0 <= i < |items| ==> res[i] == Some(items[i])
  }

  /**
   * `Value.MapOrError`: a nil map for an absent node, an empty map beside
   * the error for a present non-object, otherwise every child re-wrapped.
   */
  method MapOrError(v: Value) returns (r: Ret<Option<map<string, Value>>>)
    ensures v.None? ==> r == Ret(None, Some(NoSuchKey))
    ensures v.Some? && !IsObject(v) ==> r == Ret(Some(map[]), Some(NotAMap))
    ensures IsObject(v) ==> r.err.None? && r.val.Some? && WrapsFields(r.val.value, v.value.fields)
  {
    if v.None? {
      return Ret(None, Some(NoSuchKey));
    }
    if !v.value.JObj? {
      return Ret(Some(map[]), Some(NotAMap));
    }
    var m := v.value.fields;
    var res: map<string, Value> := map[];
    var rest := m.Keys;
    while rest != {}
      invariant rest <= m.Keys
      invariant res.Keys == m.Keys - rest
      invariant forall k :: k in res ==> res[k] == Some(m[k])
      decreases rest
    {
      var key :| key in rest;
      res := res[key := Some(m[key])];
      rest := rest - {key};
    }
    return Ret(Some(res), None);
  }

  /** `Value.Map`: the panic when `MapOrError` errs is the precondition. */
  method Map(v: Value) returns (m: map<string, Value>)
    requires IsObject(v)
    ensures WrapsFields(m, v.value.fields)
  {
    var r := MapOrError(v);
    m := r.val.value;
  }

  /**
   * `Value.ListOrError`: a nil slice for an absent node, an empty slice
   * beside the error for a present non-list, otherwise every child re-wrapped
   * in order.
   */
  method ListOrError(v: Value) returns (r: Ret<Option<seq<Value>>>)
    ensures v.None? ==> r == Ret(None, Some(NoSuchKey))
    ensures v.Some? && !IsList(v) ==> r == Ret(Some([]), Some(NotAList))
    ensures IsList(v) ==> r.err.None? && r.val.Some? && WrapsItems(r.val.value, v.value.items)
  {
    if v.None? {
      return Ret(None, Some(NoSuchKey));
    }
    if !v.value.JList? {
      return Ret(Some([]), Some(NotAList));
    }
    var m := v.value.items;
    var res := new Value[|m|];
    for i := 0 to |m|
      invariant forall k :: 0 <= k < i ==> res[k] == Some(m[k])
    {
      res[i] := Some(m[i]);
    }
    return Ret(Some(res[..]), None);
  }

  /** `Value.List`: the panic when `ListOrError` errs is the precondition. */
  method List(v: Value) returns (l: seq<Value>)
    requires IsList(v)
    ensures WrapsItems(l, v.value.items)
  {
    var r := ListOrError(v);
    l := r.val.value;
  }

  // ---------------------------------------------------------------------
  // Path traversal
  // ---------------------------------------------------------------------

  /**
   * Indexing a list with `lst[key]` has no bounds check: an index outside the
   * list is a run-time panic, so it is outside the domain of every step.
   */
  predicate StepSafe(v: Value, k: Key) {
    v.Some? && v.value.JList? && k.KIdx? ==> 0 <= k.index < |v.value.items|
  }

  /** One iteration of the traversal loop: the node `k` leads to from `v`. */
  function Child(v: Value, k: Key): (r: Ret<Value>)
    requires StepSafe(v, k)
    ensures r.err.Some? ==> r.val.None?
    ensures r.err == Some(NoSuchKey) <==> v.None?
    ensures r.err == Some(NotAMap) <==> v.Some? && k.KStr? && !IsObject(v)
    ensures r.err == Some(NotAList) <==> v.Some? && k.KIdx? && !IsList(v)
    ensures k.KStr? && IsObject(v) ==>
              r.err.None? && (k.name in v.value.fields <==> r.val.Some?) &&
              (r.val.Some? ==> r.val.value == v.value.fields[k.name])
    ensures k.KIdx? && IsList(v) ==> r == Ret(Some(v.value.items[k.index]), None)
  {
    match v
    case None => Ret(None, Some(NoSuchKey))
    case Some(j) =>
      match k
      case KStr(name) =>
        if !j.JObj? then Ret(None, Some(NotAMap))
        else if name in j.fields then Ret(Some(j.fields[name]), None)
        else Ret(None, None)
      case KIdx(i) =>
        if !j.JList? then Ret(None, Some(NotAList))
        else Ret(Some(j.items[i]), None)
  }

  /** No step of the traversal of `keys` from `v` indexes a list out of range. */
  predicate PathSafe(v: Value, keys: seq<Key>)
    decreases |keys|
  {
    keys == [] ||
    (StepSafe(v, keys[0]) &&
     (Child(v, keys[0]).err.None? ==> PathSafe(Child(v, keys[0]).val, keys[1..])))
  }

  /**
   * The meaning of `AtOrError(keys...)`: follow the keys left to right and
   * stop at the first error.
   */
  function Navigate(v: Value, keys: seq<Key>): (r: Ret<Value>)
    requires PathSafe(v, keys)
    ensures r.err.Some? ==> r.val.None?
    ensures keys == [] ==> r == Ret(v, None)
    ensures v.None? && keys != [] ==> r == Ret(None, Some(NoSuchKey))
    decreases |keys|
  {
    if keys == [] then Ret(v, None)
    else
      var step := Child(v, keys[0]);
      if step.err.Some? then step else Navigate(step.val, keys[1..])
  }

  /** `Value.AtOrError`: the loop that updates `obj` one key at a time. */
  method AtOrError(v: Value, keys: seq<Key>) returns (r: Ret<Value>)
    requires PathSafe(v, keys)
    ensures r == Navigate(v, keys)
  {
    var obj := v;
    for i := 0 to |keys|
      invariant PathSafe(obj, keys[i..])
      invariant Navigate(v, keys) == Navigate(obj, keys[i..])
    {
      assert keys[i..][1..] == keys[i + 1..];
      match keys[i]
      case KStr(key) =>
        var h := MapOrError(obj);
        if h.err.Some? {
          return Ret(None, h.err);
        }
        obj := if key in h.val.value then h.val.value[key] else None;
      case KIdx(key) =>
        var lst := ListOrError(obj);
        if lst.err.Some? {
          return Ret(None, lst.err);
        }
        obj := lst.val.value[key];
    }
    return Ret(obj, None);
  }

  /** `Value.At`: `AtOrError` with the error discarded. */
  method At(v: Value, keys: seq<Key>) returns (r: Value)
    requires PathSafe(v, keys)
    ensures r == Navigate(v, keys).val
    ensures Navigate(v, keys).err.Some? ==> r.None?
  {
    var res := AtOrError(v, keys);
    r := res.val;
  }

  /** Navigation from an absent node never panics and stays absent. */
  lemma AbsentStaysAbsent(keys: seq<Key>)
    ensures PathSafe(None, keys)
    ensures Navigate(None, keys).val.None?
    ensures keys != [] ==> Navigate(None, keys).err == Some(NoSuchKey)
  {
  }

  /**
   * Following `p + q` is following `p`, then, unless that erred, following
   * `q` from where `p` ended.
   */
  lemma {:induction false} NavigateAppend(v: Value, p: seq<Key>, q: seq<Key>)
    requires PathSafe(v, p + q)
    ensures PathSafe(v, p)
    ensures Navigate(v, p).err.None? ==> PathSafe(Navigate(v, p).val, q)
    ensures Navigate(v, p + q) ==
              if Navigate(v, p).err.Some? then Navigate(v, p)
              else Navigate(Navigate(v, p).val, q)
    decreases |p|
  {
    if p == [] {
      assert p + q == q;
    } else {
      assert (p + q)[0] == p[0];
      assert (p + q)[1..] == p[1..] + q;
      var step := Child(v, p[0]);
      if step.err.None? {
        NavigateAppend(step.val, p[1..], q);
      }
    }
  }

  /**
   * The chaining law of `At`: `v.At(p..., q...)` equals `v.At(p...).At(q...)`,
   * including when the first part ends absent.
   */
  lemma AtChaining(v: Value, p: seq<Key>, q: seq<Key>)
    requires PathSafe(v, p + q)
    ensures PathSafe(v, p) && PathSafe(Navigate(v, p).val, q)
    ensures Navigate(v, p + q).val == Navigate(Navigate(v, p).val, q).val
  {
    NavigateAppend(v, p, q);
    AbsentStaysAbsent(q);
  }

  /**
   * The index bounds of the chained form `v.At(p...).At(q...)` imply those of
   * the one-call form `v.At(p..., q...)`: both have the same domain.
   */
  lemma {:induction false} PathSafeAppend(v: Value, p: seq<Key>, q: seq<Key>)
    requires PathSafe(v, p)
    requires Navigate(v, p).err.None? ==> PathSafe(Navigate(v, p).val, q)
    ensures PathSafe(v, p + q)
    decreases |p|
  {
    if p == [] {
      assert p + q == q;
    } else {
      assert (p + q)[0] == p[0];
      assert (p + q)[1..] == p[1..] + q;
      var step := Child(v, p[0]);
      if step.err.None? {
        PathSafeAppend(step.val, p[1..], q);
      }
    }
  }

  /** The chaining law, stated from the chained form's index bounds. */
  lemma AtChainingFromParts(v: Value, p: seq<Key>, q: seq<Key>)
    requires PathSafe(v, p) && PathSafe(Navigate(v, p).val, q)
    ensures PathSafe(v, p + q)
    ensures Navigate(v, p + q).val == Navigate(Navigate(v, p).val, q).val
  {
    PathSafeAppend(v, p, q);
    AtChaining(v, p, q);
  }

  /** A one-key path is one traversal step. */
  lemma NavigateSingleKey(v: Value, k: Key)
    requires StepSafe(v, k)
    ensures PathSafe(v, [k]) && Navigate(v, [k]) == Child(v, k)
  {
  }

  // ---------------------------------------------------------------------
  // Sorted keys
  // ---------------------------------------------------------------------

  /**
   * `Value.KeysSorted`: the keys of an object, each exactly once, in strictly
   * ascending byte order.  `Map` panics on anything but an object.
   */
  method KeysSorted(v: Value) returns (r: seq<string>)
    requires IsObject(v)
    ensures |r| == |v.value.fields|
    ensures multiset(r) == multiset(v.value.fields.Keys)
    ensures StrictlyAscending(r)
  {
    var m := Map(v);
    var res := new string[|m|];
    var i := 0;
    var rest := m.Keys;
    while rest != {}
      invariant rest <= m.Keys
      invariant i + |rest| == |m.Keys| == res.Length
      invariant multiset(res[..i]) + multiset(rest) == multiset(m.Keys)
      decreases rest
    {
      var k :| k in rest;
      res[i] := k;
      assert res[..i + 1] == res[..i] + [k];
      assert multiset(rest) == multiset(rest - {k}) + multiset{k};
      i := i + 1;
      rest := rest - {k};
    }
    assert res[..i] == res[..];
    SortStrings(res);
    r := res[..];
    forall k | 0 < k < |r|
      ensures Less(r[k - 1], r[k])
    {
      NoRepeats(r, m.Keys, k - 1, k);
    }
    StrictlyAscendingFromNeighbours(r);
  }

  /** A sequence with the same elements as a set holds no element twice. */
  lemma NoRepeats(s: seq<string>, keys: set<string>, i: nat, j: nat)
    requires multiset(s) == multiset(keys)
    requires i < j < |s|
    ensures s[i] != s[j]
  {
    var x := s[i];
    assert s == s[..j] + s[j..];
    assert multiset(s) == multiset(s[..j]) + multiset(s[j..]);
    assert x in multiset(s[..j]) by { assert s[..j][i] == x; }
    assert x in keys by { assert x in multiset(s); }
    assert multiset(s[j..])[x] == 0;
    assert s[j..][0] == s[j];
  }

  /**
   * The contract of `KeysSorted` fixes its result: for the object
   * `{"foo": ..., "baz": ..., "bar": ...}` it is `["bar", "baz", "foo"]`.
   */
  lemma KeysSortedExample(fields: map<string, Json>, r: seq<string>)
    requires fields.Keys == {"foo", "baz", "bar"}
    requires multiset(r) == multiset(fields.Keys) && StrictlyAscending(r)
    ensures r == ["bar", "baz", "foo"]
  {
    var expected := ["bar", "baz", "foo"];
    assert Less("bar", "baz") && Less("baz", "foo") && Less("bar", "foo");
    assert StrictlyAscending(expected);
    assert multiset(expected) == multiset(fields.Keys);
    StrictlyAscendingUnique(r, expected);
  }

  /**
   * `KeysSorted` on the object `{"foo": "bar", "baz": 3, "bar": {"sub":
   * "val", "int": 4}}` returns `["bar", "baz", "foo"]`.
   */
  method KeysSortedOnTestDocument() returns (r: seq<string>)
    ensures r == ["bar", "baz", "foo"]
  {
    var sub := JObj(map["sub" := JStr("val"), "int" := JNum(4.0)]);
    var fields := map["foo" := JStr("bar"), "baz" := JNum(3.0), "bar" := sub];
    r := KeysSorted(Some(JObj(fields)));
    KeysSortedExample(fields, r);
  }
}
