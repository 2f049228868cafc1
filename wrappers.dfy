/** Option and Result: the "absent value" and "value or failure" shapes used
    throughout the model in place of Java's null and thrown exceptions. */
module Wrappers {

  /** `None` stands for a Java null reference. */
  datatype Option<+T> = None | Some(value: T) {
    predicate IsFailure() { None? }

    function PropagateFailure<U>(): Option<U>
      requires None?
    {
      None
    }

    function Extract(): T
      requires Some?
    {
      value
    }

    function GetOr(default: T): T {
      if Some? then value else default
    }
  }

  /** `Err` stands for an exception thrown out of the modelled operation. */
  datatype Result<+T, +E> = Ok(value: T) | Err(error: E) {
    predicate IsFailure() { Err? }

    function PropagateFailure<U>(): Result<U, E>
      requires Err?
    {
      Err(error)
    }

    function Extract(): T
      requires Ok?
    {
      value
    }
  }
}
