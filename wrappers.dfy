/** Option and Result, the failure-compatible wrappers used across the model. */
module Wrappers {

  datatype Option<+T> = None | Some(value: T)

  /** The outcome of a Ruby call that either returns a value or raises. */
  datatype Result<+T, +E> = Ok(value: T) | Err(error: E) {
    predicate IsFailure() {
      Err?
    }

    function PropagateFailure<U>(): Result<U, E>
      requires Err?
    {
      Err(error)
    }

    function Extract(): T
      requires Ok?
    {
      value
    }
  }

  /** The Ruby exception classes the modelled code can raise. */
  datatype RubyError =
    | ArgumentError   // `Hash#dig` called with no keys
    | TypeError       // `dig` on a String; adding a String to a non-String
    | IndexError      // `String#[]=` with a substring that does not occur
    | NoMethodError   // `empty?` on a value without that method
}
