/** JavaScript values as the storefront's payloads carry them, and the
    JavaScript operators the core relies on: truthiness, `||` on optional
    strings, `??`, `typeof x === "number"` and `Array.prototype.filter`. */
module JsValues {

  datatype Option<+T> = None | Some(value: T) {
    function GetOr(default: T): T {
      match this
      case Some(v) => v
      case None => default
    }
  }

  /** The outcome of one request to the server: the body's `data` field
      (absent when the body has none), or a rejected request. */
  datatype Reply<+T> = Ok(data: Option<T>) | Fail

  /** `data.data || []` for a reply that carries a list. */
  function ListOf<T>(data: Option<seq<T>>): seq<T> {
    data.GetOr([])
  }

  /** A scalar JavaScript value. `null` and `undefined` are kept apart where
      the code tells them apart (`??` does not; `===` does). */
  datatype JsValue = Undefined | Null | Bool(b: bool) | Num(n: real) | Str(s: string)

  predicate Truthy(v: JsValue) {
    match v
    case Undefined => false
    case Null => false
    case Bool(b) => b
    case Num(n) => n != 0.0
    case Str(s) => s != ""
  }

  predicate Nullish(v: JsValue) {
    v.Undefined? || v.Null?
  }

  /** `a ?? b` */
  function Coalesce(a: JsValue, b: JsValue): JsValue {
    if Nullish(a) then b else a
  }

  /** `typeof v === "number"` */
  predicate IsNumber(v: JsValue) {
    v.Num?
  }

  /** `v > 0` with JavaScript's coercion of `null` and booleans to numbers;
      a string is compared as NaN (see README, "Left out"). */
  predicate Positive(v: JsValue) {
    match v
    case Num(n) => n > 0.0
    case Bool(b) => b
    case _ => false
  }

  /** An optional string field is truthy when present and non-empty. */
  predicate Present(s: Option<string>) {
    s.Some? && s.value != ""
  }

  /** `a || b` on two optional strings. */
  function OrElse(a: Option<string>, b: Option<string>): Option<string> {
    if Present(a) then a else b
  }

  /** `x || 0` on an optional number. */
  function OrZero(x: Option<real>): real {
    if x.Some? then x.value else 0.0
  }

  /** A template literal `${x}` of an optional string. */
  function Template(x: Option<string>): string {
    if x.Some? then x.value else "undefined"
  }

  /** `s.filter(keep)`: the elements that pass, in their order. */
  function Filter<T>(s: seq<T>, keep: T -> bool): (r: seq<T>)
    ensures |r| <= |s|
    ensures forall x :: x in r ==> x in s && keep(x)
    ensures forall x :: x in s && keep(x) ==> x in r
  {
    if s == [] then []
    else if keep(s[0]) then [s[0]] + Filter(s[1..], keep)
    else Filter(s[1..], keep)
  }

  lemma {:induction false} FilterMultiset<T>(s: seq<T>, keep: T -> bool)
    ensures forall x :: multiset(Filter(s, keep))[x] == if keep(x) then multiset(s)[x] else 0
  {
    if s != [] {
      FilterMultiset(s[1..], keep);
      assert s == [s[0]] + s[1..];
    }
  }

  lemma {:induction false} FilterAppend<T>(a: seq<T>, b: seq<T>, keep: T -> bool)
    ensures Filter(a + b, keep) == Filter(a, keep) + Filter(b, keep)
  {
    if a == [] {
      assert a + b == b;
    } else {
      assert (a + b)[1..] == a[1..] + b;
      FilterAppend(a[1..], b, keep);
    }
  }

  lemma {:induction false} FilterAll<T>(s: seq<T>, keep: T -> bool)
    requires forall x :: x in s ==> keep(x)
    ensures Filter(s, keep) == s
  {
    if s != [] {
      FilterAll(s[1..], keep);
    }
  }
}
