/**
 * Option and result types shared by every module of the model.
 *
 * Java's `null` is modelled as `None` wherever the source checks for it, and a
 * thrown exception is modelled as a `Failure` value.
 */
module Wrappers {

  /** A value that may be absent (a nullable Java reference). */
  datatype Option<+T> = None | Some(value: T)

  /** The exceptions the modelled code throws, with the message it attaches. */
  datatype Failure =
    | IllegalArgument(message: string)
    /** `NumberFormatException` (a subclass of `IllegalArgumentException`) from
        `Integer.parseInt`; `text` is the string that could not be parsed. */
    | NumberFormat(text: string)
    | NullPointer(message: string)
    /** `ClassCastException`; `className` is the name of the expected class. */
    | ClassCast(className: string)
  {
    /** True for the exceptions a caller catching `IllegalArgumentException` sees. */
    predicate IsIllegalArgument() {
      IllegalArgument? || NumberFormat?
    }
  }

  /** The outcome of a factory or parser: a value, or the exception it throws. */
  datatype Result<+T> = Ok(value: T) | Err(error: Failure)

  /**
   * The outcome of an operation that mutates an object and may throw part-way:
   * the object's state afterwards, and the exception thrown, if any.
   */
  datatype Attempt<+T> = Attempt(state: T, thrown: Option<Failure>)
}
