/** Option and Result, the failure-compatible wrappers the rest of the model
    uses in place of Python's `None` and raised exceptions. */
module Wrappers {

  /** A value that may be absent, as Python's `None`. */
  datatype Option<+T> = None | Some(value: T) {

    predicate IsFailure() {
      None?
    }

    function PropagateFailure<U>(): Option<U>
      requires None?
    {
      None
    }

    function Extract(): T
      requires Some?
    {
      value
    }
  }

  /** The outcome of a call that either returns a value or raises `error`. */
  datatype Result<+T, +E> = Success(value: T) | Failure(error: E) {

    predicate IsFailure() {
      Failure?
    }

    function PropagateFailure<U>(): Result<U, E>
      requires Failure?
    {
      Failure(error)
    }

    function Extract(): T
      requires Success?
    {
      value
    }
  }
}

/** The exceptions the engine lets escape to its caller. */
module Errors {

  datatype Error =
    /** Python's `TypeError`: a non-array passed to `Variable`, an arithmetic
        operator applied to `None`, or a call with the wrong number of
        arguments. */
    | TypeError
    /** Python's `AttributeError`: reading `.shape` or `.generation` of
        `None`, or `getattr` of a flag `Config` does not have. */
    | AttributeError
    /** Python's `ValueError`, raised by numpy for shapes that do not
        broadcast or cannot be reshaped into one another. */
    | ValueError
    /** Python's `IndexError`: `self.inputs[0]` of a Function without
        inputs. */
    | IndexError
    /** Division by zero or zero to a negative power. numpy produces an
        infinity or a NaN there; the model stops instead. */
    | NonFinite
}
