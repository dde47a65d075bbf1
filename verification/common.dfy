/** Shared vocabulary of the route handlers: optional values, success-or-error
    results, and request fields that must pass a `typeof ... === 'number'` check. */
module Common {

  /** A value that may be absent; in a JSON response `None` is written as `null`. */
  datatype Option<+T> = None | Some(value: T)

  /** The outcome of a handler: a response body, or an error response. */
  datatype Result<+T, +E> = Ok(value: T) | Err(error: E)

  /** A request-body field as the handlers see it: either a JavaScript number
      or anything else (missing, a string, an object, ...). */
  datatype Field = Num(value: real) | NotNumber

  /** `Math.min` on two numbers. */
  function Min(a: real, b: real): (m: real)
    ensures m <= a && m <= b
    ensures m == a || m == b
  {
    if a <= b then a else b
  }

  /** `Math.max` on two numbers. */
  function Max(a: real, b: real): (m: real)
    ensures m >= a && m >= b
    ensures m == a || m == b
  {
    if a >= b then a else b
  }

  /** `n` copies of `c` are `n - 1` copies plus one more; kept apart so the
      step of each running-total induction is a single linear fact. */
  lemma ScaleStep(c: real, n: nat)
    requires n >= 1
    ensures c * (n as real) == c * ((n - 1) as real) + c
  {
  }
}
