/** Option and Result, the two failure-carrying datatypes the rest of the model uses.
    Option stands for a Java reference that may be null (or a java.util.Optional);
    Result stands for a call that returns a value or throws. */
module Wrappers {

  datatype Option<+T> = None | Some(value: T)

  datatype Result<+R, +E> = Success(value: R) | Failure(error: E) {

    /** Replaces the error of a failed result, keeping a success as it is. */
    function MapFailure<NewE>(wrap: E -> NewE): (r: Result<R, NewE>)
      ensures Success? <==> r.Success?
      ensures Success? ==> r.value == value
      ensures Failure? ==> r.error == wrap(error)
    {
      match this
      case Success(v) => Success(v)
      case Failure(e) => Failure(wrap(e))
    }
  }
}
