/** Option and Result types shared by every module of the model. */
module Wrappers {

  datatype Option<+T> = None | Some(value: T) {
    predicate IsFailure() { None? }

    function PropagateFailure<U>(): Option<U>
      requires None?
    {
      None
    }

    function Extract(): T
      requires Some?
    {
      value
    }
  }

  /** The Python exception classes the ingestion code can raise, as far as the model tells them apart. */
  datatype Exception =
    | KeyError        // a missing key read with `d[k]`
    | TypeError       // iterating, splatting or subscripting `None`
    | AttributeError  // calling `.get` or `.lower()` on `None`, reading `.id` of `None`
    | ValueError      // `datetime.strptime` rejecting its input
    | ClientError     // a call into the metadata client that raises

  /** The outcome of Python code that either returns a value or raises. */
  datatype Result<+T> = Ok(value: T) | Raise(exception: Exception) {
    predicate IsFailure() { Raise? }

    function PropagateFailure<U>(): Result<U>
      requires Raise?
    {
      Raise(exception)
    }

    function Extract(): T
      requires Ok?
    {
      value
    }
  }
}
