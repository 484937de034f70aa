/**
 * The small part of JavaScript's value semantics the controllers rely on:
 * the falsiness test `!v` and the `a || b` default.
 */
module Js {
  import opened Wrappers

  /** A request-body field as the handlers see it: absent, a string or a number. */
  datatype JsValue = Undefined | Str(s: string) | Num(n: int)

  function OfString(o: Option<string>): JsValue {
    match o
    case None => Undefined
    case Some(s) => Str(s)
  }

  function OfNumber(o: Option<int>): JsValue {
    match o
    case None => Undefined
    case Some(n) => Num(n)
  }

  /** `!v` is true for `undefined`, the empty string and zero. */
  predicate Falsy(v: JsValue)
    ensures v.Undefined? ==> Falsy(v)
    ensures v.Str? ==> (Falsy(v) <==> |v.s| == 0)
    ensures v.Num? ==> (Falsy(v) <==> v.n == 0)
  {
    v == Undefined || v == Str("") || v == Num(0)
  }

  /** `a || b` on a possibly-undefined number: `a` when it is truthy, `b` otherwise. */
  function Or(a: Option<int>, b: int): (r: int)
    ensures a.Some? && a.value != 0 ==> r == a.value
    ensures a.None? || a.value == 0 ==> r == b
  {
    if Falsy(OfNumber(a)) then b else a.value
  }
}
