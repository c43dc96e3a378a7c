// Small shared helpers: an optional value, as the source expresses "maybe
// present" with null handles and default-constructed values.
module Common {

  datatype Option<+T> = None | Some(value: T) {
    predicate IsFailure() { None? }

    function PropagateFailure<U>(): Option<U>
      requires None?
    {
      None
    }

    function Extract(): T
      requires Some?
    {
      value
    }
  }

  /** The larger of two integers. */
  function Max(a: int, b: int): int { if a < b then b else a }

  /** The smaller of two integers. */
  function Min(a: int, b: int): int { if a < b then a else b }

  /** Absolute value of a real (Fixed::abs). */
  function AbsReal(r: real): real { if r < 0.0 then -r else r }
}
