/** Optional values and arithmetic on naturals. */
module Basics {

  datatype Option<+T> = None | Some(value: T)
  {
    predicate IsFailure() { None? }
    function PropagateFailure<U>(): Option<U> requires None? { None }
    function Extract(): T requires Some? { value }
  }

  function Min(a: nat, b: nat): nat { if a <= b then a else b }

  function Max(a: nat, b: nat): nat { if a >= b then a else b }

  /** Saturating subtraction. */
  function Monus(a: nat, b: nat): nat { if a >= b then a - b else 0 }
}
