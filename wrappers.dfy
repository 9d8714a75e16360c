/** Option and Result, used for the absent values and the thrown RangeErrors of the model. */
module Wrappers {

  datatype Option<+T> = None | Some(value: T)

  /** A thrown RangeError, identified by the argument it complains about. */
  datatype Param = P1x | P1y | P2x | P2y | T | X | Y | Epsilon

  datatype Error = RangeError(param: Param)

  datatype Result<+R> = Ok(value: R) | Err(error: Error) {

    predicate IsFailure() {
      Err?
    }

    function PropagateFailure<U>(): Result<U>
      requires Err?
    {
      Err(error)
    }

    function Extract(): R
      requires Ok?
    {
      value
    }
  }
}
