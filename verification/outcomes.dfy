/** Optional values and success/failure results shared by every module. */
module Outcomes {

  /** A value that may be absent (JavaScript's `undefined`/`null`). */
  datatype Option<+T> = None | Some(value: T)

  /** The outcome of an operation that either commits a value or reports an error. */
  datatype Result<+T, +E> = Ok(value: T) | Err(error: E)

  /**
   * JavaScript's `x || fallback` for an optional string: an absent value and
   * the empty string are both falsy.
   */
  function OrElse(x: Option<string>, fallback: string): (r: string)
    ensures x.Some? && x.value != "" ==> r == x.value
    ensures (x.None? || x.value == "") ==> r == fallback
  {
    if x.Some? && x.value != "" then x.value else fallback
  }

  /** True when the optional string is truthy in JavaScript (present and non-empty). */
  predicate Truthy(x: Option<string>) {
    x.Some? && x.value != ""
  }

  /**
   * The first error `check` reports over `xs`, scanning in order: the
   * `for (const item of items) { if (...) throw ... }` validation loop.
   */
  function FirstFailure<T, E>(xs: seq<T>, check: T -> Option<E>): (r: Option<E>)
    ensures r.None? <==> forall i :: 0 <= i < |xs| ==> check(xs[i]).None?
    ensures r.Some? ==>
      exists i :: 0 <= i < |xs| && check(xs[i]) == r && forall j :: 0 <= j < i ==> check(xs[j]).None?
    decreases |xs|
  {
    if |xs| == 0 then None
    else if check(xs[0]).Some? then check(xs[0])
    else
      var r := FirstFailure(xs[1..], check);
      assert r.Some? ==> exists i :: 0 <= i < |xs[1..]| && check(xs[1..][i]) == r && forall j :: 0 <= j < i ==> check(xs[1..][j]).None?;
      r
  }
}
