/** Small value types shared by every module: optional values, results with an
    error message, and string prefixes. */
module Common {

  /** A value that may be absent: JavaScript `null`, Python `None`, or a missing key. */
  datatype Option<+T> = None | Some(value: T)

  /** The outcome of an operation that can raise: a value, or the message of the error. */
  datatype Result<+T> = Success(value: T) | Failure(message: string)

  /** `s.startsWith(p)` in JavaScript, `s.startswith(p)` in Python. */
  predicate HasPrefix(s: string, p: string) {
    |p| <= |s| && s[..|p|] == p
  }

  function Min(a: int, b: int): int {
    if a <= b then a else b
  }
}
