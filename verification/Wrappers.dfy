/** The outcome type shared by every component. */
module Wrappers {
  /** A result or its absence.  A reader that raises its one exception type returns None. */
  datatype Option<+T> = None | Some(value: T) {
    predicate IsFailure() { None? }

    function PropagateFailure<U>(): Option<U>
      requires IsFailure()
    {
      None
    }

    function Extract(): T
      requires !IsFailure()
    {
      value
    }
  }
}
