/** Small shared vocabulary: optional values, results of calls that can fail, and
    the `Math.min`/`Math.max` the front-end uses. */
module Common {

  /** A value that may be absent (`undefined`/`null` in the front-end). */
  datatype Option<T> = None | Some(value: T) {
    function GetOr(default: T): T {
      match this
      case Some(v) => v
      case None => default
    }
  }

  /** The outcome of an operation that can throw: a value or the message of the error. */
  datatype Result<T> = Success(value: T) | Failure(error: string)

  /** A JavaScript string value is truthy when present and non-empty. */
  predicate Truthy(s: Option<string>) {
    s.Some? && s.value != ""
  }

  function Min(a: int, b: int): int { if a <= b then a else b }

  function Max(a: int, b: int): int { if a >= b then a else b }

  function MinReal(a: real, b: real): real { if a <= b then a else b }
}
