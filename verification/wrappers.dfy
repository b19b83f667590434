/** Option and the few combinators the engine needs to express JavaScript's
    `undefined`, `??` and "try, and on failure fall back" idioms. */
module Wrappers {

  /** A value that may be missing (`undefined` / `null` in the source). */
  datatype Option<+T> = None | Some(value: T) {

    /** The value, or `default` when missing: the source's `x ?? default`. */
    function GetOr(default: T): T {
      match this
      case Some(v) => v
      case None => default
    }
  }

  /** `a ?? b` on two optional values: the first one that is present. */
  function OrElse<T>(a: Option<T>, b: Option<T>): (r: Option<T>)
    // the result is one of the operands, present when either is,
    // and a present left operand wins
    ensures r == a || r == b
    ensures r.Some? <==> a.Some? || b.Some?
    ensures a.Some? ==> r == a
  {
    if a.Some? then a else b
  }

  /** `a ?? b ?? c` means the same however it is grouped. */
  lemma OrElseAssociative<T>(a: Option<T>, b: Option<T>, c: Option<T>)
    ensures OrElse(OrElse(a, b), c) == OrElse(a, OrElse(b, c))
  {
  }

  /** A missing value is neutral on both sides of `??`. */
  lemma OrElseNeutral<T>(a: Option<T>)
    ensures OrElse(None, a) == a && OrElse(a, None) == a
  {
  }

  /** The outcome of a call into a platform SDK: it either returned a value or
      failed (threw, or reported an error to its callback). */
  datatype Call<+T> = Threw | Returned(result: T)

  /** A list-returning call whose failure yields the empty list:
      `safeAggregateGroupByDuration` and `safeReadRecords` catch a throw, and
      `promisifyHealthArray` absorbs an error passed to its callback. */
  function ListOrEmpty<T>(c: Call<seq<T>>): (r: seq<T>)
    // a non-empty list is exactly what the call returned
    ensures r != [] ==> c == Returned(r)
    // the empty list means the call threw or returned nothing: the caller
    // cannot tell a failure from a window without data
    ensures r == [] <==> c.Threw? || c.result == []
  {
    match c
    case Threw => []
    case Returned(xs) => xs
  }

  /** A value-returning call whose failure yields `undefined`:
      `safeAggregateRecord` catches a throw, and `promisifyHealthValue`
      absorbs an error passed to its callback. */
  function ValueOrNone<T>(c: Call<Option<T>>): (r: Option<T>)
    // a present value is exactly what the call returned
    ensures r.Some? ==> c == Returned(r)
    // it is missing exactly when the call threw or returned nothing
    ensures r.None? <==> c.Threw? || c.result.None?
  {
    match c
    case Threw => None
    case Returned(v) => v
  }
}
