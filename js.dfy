/** JavaScript values and the few pieces of the language's semantics that the
    store, the signup form and the shoe page rely on: truthiness, property
    reads, object and array spread, and the `filter`/`map` array methods with
    callbacks that may throw. */
module Js {

  datatype Option<+T> = None | Some(value: T)

  /** A JavaScript value. Numbers are integers: floating point is not modelled. */
  datatype Value =
    | Undefined
    | Null
    | Bool(b: bool)
    | Num(n: int)
    | Str(s: string)
    | Arr(items: seq<Value>)
    | Obj(props: map<string, Value>)

  /** The outcome of evaluating an expression that may throw a TypeError
      (a property read on `null`/`undefined`, a call of a missing method). */
  datatype Result<+T> = Ok(value: T) | TypeError

  const EmptyObject: Value := Obj(map[])

  predicate Nullish(v: Value) {
    v.Undefined? || v.Null?
  }

  /** The values a JavaScript condition treats as true. */
  predicate Truthy(v: Value) {
    match v
    case Undefined => false
    case Null => false
    case Bool(b) => b
    case Num(n) => n != 0
    case Str(s) => s != ""
    case Arr(_) => true
    case Obj(_) => true
  }

  /** `a || b` */
  function Or(a: Value, b: Value): Value {
    if Truthy(a) then a else b
  }

  function DigitChar(d: nat): char
    requires d < 10
  {
    "0123456789"[d]
  }

  /** The decimal spelling of a natural number, as `String(n)` writes it. */
  function NatToString(n: nat): (r: string)
    ensures r != []
    decreases n
  {
    if n < 10 then [DigitChar(n)] else NatToString(n / 10) + [DigitChar(n % 10)]
  }

  function NumberToString(n: int): string {
    if n < 0 then "-" + NatToString(-n) else NatToString(n)
  }

  /** `String(v)`, which is also the property key a value denotes in `o[v]`. */
  function ToString(v: Value): string
    decreases v, 1
  {
    match v
    case Undefined => "undefined"
    case Null => "null"
    case Bool(b) => if b then "true" else "false"
    case Num(n) => NumberToString(n)
    case Str(s) => s
    case Arr(items) => Join(v, 0)
    case Obj(_) => "[object Object]"
  }

  /** `items.slice(i).join(",")` for the array `v`: null and undefined
      elements contribute the empty string. */
  function Join(v: Value, i: nat): string
    requires v.Arr? && i <= |v.items|
    decreases v, 0, |v.items| - i
  {
    if i == |v.items| then ""
    else
      var head := if Nullish(v.items[i]) then "" else ToString(v.items[i]);
      if i + 1 == |v.items| then head else head + "," + Join(v, i + 1)
  }

  /** The index below `len` whose decimal spelling is `key`, if there is one:
      the keys under which an array or a string exposes its elements. */
  function IndexKey(key: string, len: nat): (r: Option<nat>)
    ensures r.Some? ==> r.value < len && NatToString(r.value) == key
    ensures r.None? ==> forall i :: 0 <= i < len ==> NatToString(i) != key
    decreases len
  {
    if len == 0 then None
    else if NatToString(len - 1) == key then Some(len - 1)
    else IndexKey(key, len - 1)
  }

  /** `v[key]` for a value that is not null or undefined: own properties of
      objects, and the elements and `length` of arrays and strings. */
  function Prop(v: Value, key: string): Value
    requires !Nullish(v)
  {
    match v
    case Obj(m) => if key in m then m[key] else Undefined
    case Arr(items) =>
      if key == "length" then Num(|items|)
      else (match IndexKey(key, |items|)
            case Some(i) => items[i]
            case None => Undefined)
    case Str(s) =>
      if key == "length" then Num(|s|)
      else (match IndexKey(key, |s|)
            case Some(i) => Str([s[i]])
            case None => Undefined)
    case _ => Undefined
  }

  /** `v.key`, which throws on null and undefined. */
  function Get(v: Value, key: string): (r: Result<Value>)
    ensures r.TypeError? <==> Nullish(v)
  {
    if Nullish(v) then TypeError else Ok(Prop(v, key))
  }

  /** `v.id`, read as `undefined` where it would throw; used where the
      throwing case is dealt with separately. */
  function IdOf(v: Value): Value {
    if Nullish(v) then Undefined else Prop(v, "id")
  }

  /** The characters of a string as one-character strings. */
  function Chars(s: string): (r: seq<Value>)
    ensures |r| == |s|
    ensures forall i :: 0 <= i < |s| ==> r[i] == Str([s[i]])
  {
    seq(|s|, i requires 0 <= i < |s| => Str([s[i]]))
  }

  /** The own properties `"0"`, `"1"`, ... of an array-like value. */
  function IndexedProps(vals: seq<Value>): map<string, Value> {
    if vals == [] then map[]
    else IndexedProps(vals[..|vals| - 1])[NatToString(|vals| - 1) := vals[|vals| - 1]]
  }

  /** The properties `{...v}` copies: an object's own properties, the
      indexed elements of an array or a string, and nothing for any other
      value (null and undefined included). */
  function SpreadObject(v: Value): map<string, Value> {
    match v
    case Obj(m) => m
    case Arr(items) => IndexedProps(items)
    case Str(s) => IndexedProps(Chars(s))
    case _ => map[]
  }

  /** `{...(v || {})}` copies the same properties as `{...v}`. */
  lemma SpreadOfDefault(v: Value)
    ensures SpreadObject(Or(v, EmptyObject)) == SpreadObject(v)
  {
  }

  /** The elements `[...v]` iterates over: arrays and strings are
      iterable, every other value throws. */
  function SpreadArray(v: Value): (r: Result<seq<Value>>)
    ensures r.Ok? <==> v.Arr? || v.Str?
    ensures v.Arr? ==> r == Ok(v.items)
  {
    match v
    case Arr(items) => Ok(items)
    case Str(s) => Ok(Chars(s))
    case _ => TypeError
  }

  /** The elements of `s` that satisfy `p`, in their order. */
  function Filter(s: seq<Value>, p: Value -> bool): (r: seq<Value>)
    ensures |r| <= |s|
    decreases s
  {
    if s == [] then []
    else
      var rest := Filter(s[1..], p);
      if p(s[0]) then [s[0]] + rest else rest
  }

  /** Filtering keeps each value that satisfies `p` as often as it occurs,
      and drops every other value. */
  lemma {:induction false} FilterCounts(s: seq<Value>, p: Value -> bool)
    ensures forall x :: multiset(Filter(s, p))[x] == if p(x) then multiset(s)[x] else 0
    decreases s
  {
    if s != [] {
      assert s == [s[0]] + s[1..];
      FilterCounts(s[1..], p);
    }
  }

  lemma FilterMembership(s: seq<Value>, p: Value -> bool, x: Value)
    ensures x in Filter(s, p) <==> x in s && p(x)
  {
    var r := Filter(s, p);
    FilterCounts(s, p);
    assert x in r <==> multiset(r)[x] > 0;
    assert x in s <==> multiset(s)[x] > 0;
  }

  /** Filtering distributes over concatenation: the kept elements stay in
      the relative order they had. */
  lemma {:induction false} FilterConcat(a: seq<Value>, b: seq<Value>, p: Value -> bool)
    ensures Filter(a + b, p) == Filter(a, p) + Filter(b, p)
    decreases a
  {
    if a == [] {
      assert a + b == b;
    } else {
      assert (a + b)[1..] == a[1..] + b;
      assert (a + b)[0] == a[0];
      FilterConcat(a[1..], b, p);
    }
  }

  lemma {:induction false} FilterAllSatisfy(s: seq<Value>, p: Value -> bool)
    requires forall i :: 0 <= i < |s| ==> p(s[i])
    ensures Filter(s, p) == s
    decreases s
  {
    if s != [] {
      assert forall i :: 0 <= i < |s[1..]| ==> s[1..][i] == s[i + 1];
      FilterAllSatisfy(s[1..], p);
    }
  }

  /** `s.filter(keep)` with a callback that may throw: the first throw
      aborts the whole call. */
  function FilterResult(s: seq<Value>, keep: Value -> Result<bool>): (r: Result<seq<Value>>)
    ensures r.Ok? <==> forall i :: 0 <= i < |s| ==> keep(s[i]).Ok?
    decreases s
  {
    if s == [] then Ok([])
    else
      match keep(s[0])
      case TypeError => TypeError
      case Ok(k) =>
        match FilterResult(s[1..], keep)
        case TypeError => TypeError
        case Ok(rest) => Ok(if k then [s[0]] + rest else rest)
  }

  /** When the callback cannot throw, `filter` is `Filter` with the
      callback's answers. */
  lemma {:induction false} FilterResultIsFilter(s: seq<Value>, keep: Value -> Result<bool>, p: Value -> bool)
    requires forall i :: 0 <= i < |s| ==> keep(s[i]) == Ok(p(s[i]))
    ensures FilterResult(s, keep) == Ok(Filter(s, p))
    decreases s
  {
    if s != [] {
      assert forall i :: 0 <= i < |s[1..]| ==> s[1..][i] == s[i + 1];
      FilterResultIsFilter(s[1..], keep, p);
    }
  }

  /** `s.map(f)` with a callback that may throw. */
  function MapResult(s: seq<Value>, f: Value -> Result<Value>): (r: Result<seq<Value>>)
    ensures r.Ok? <==> forall i :: 0 <= i < |s| ==> f(s[i]).Ok?
    ensures r.Ok? ==> |r.value| == |s| && forall i :: 0 <= i < |s| ==> r.value[i] == f(s[i]).value
    decreases s
  {
    if s == [] then Ok([])
    else
      match f(s[0])
      case TypeError => TypeError
      case Ok(y) =>
        match MapResult(s[1..], f)
        case TypeError => TypeError
        case Ok(rest) => Ok([y] + rest)
  }
}
