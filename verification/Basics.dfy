/** Vocabulary shared by every part of the model: optional values, results with
    errors, instants, and the blank-string test the source applies to text. */
module Basics {

  datatype Option<+T> = None | Some(value: T)

  /** A failure-compatible result, usable with `:-`. */
  datatype Result<+T, +E> = Ok(value: T) | Err(error: E) {
    predicate IsFailure() {
      Err?
    }

    function PropagateFailure<U>(): (r: Result<U, E>)
      requires Err?
    {
      Err(error)
    }

    function Extract(): T
      requires Ok?
    {
      value
    }
  }

  /** An instant. `ZERO_TIME` is the source's unset time and precedes all others. */
  type Time = nat

  const ZERO_TIME: Time := 0

  const MAX_UINT64: nat := 0xFFFF_FFFF_FFFF_FFFF

  function MaxTime(a: Time, b: Time): Time {
    if a < b then b else a
  }

  /** Unicode White_Space, as trimmed by the source. */
  predicate IsSpace(c: char) {
    var n := c as int;
    || 9 <= n <= 13 || n == 32 || n == 0x85 || n == 0xA0 || n == 0x1680
    || 0x2000 <= n <= 0x200A || n == 0x2028 || n == 0x2029 || n == 0x202F
    || n == 0x205F || n == 0x3000
  }

  /** Text that trims to nothing. */
  predicate Blank(s: string) {
    forall i :: 0 <= i < |s| ==> IsSpace(s[i])
  }
}
