/** Failure-compatible result types shared by the model. */
module Wrappers {

  /** A value that may be absent; used for the outcome of JSON parsing. */
  datatype Option<+T> = None | Some(value: T)

  /** Either a value or the error that Python would raise instead. */
  datatype Result<+T, +E> = Success(value: T) | Failure(error: E) {

    predicate IsFailure() {
      Failure?
    }

    function PropagateFailure<U>(): Result<U, E>
      requires Failure?
    {
      Failure(error)
    }

    function Extract(): T
      requires Success?
    {
      value
    }
  }
}

/** The exceptions the startup code and the prediction call can raise. */
module Errors {

  datatype Error =
    | IndexError          // MODELS[-1] on an empty registry
    | KeyError(key: string) // a dictionary lookup with an unknown key
    | JsonDecodeError     // json.loads rejected the JSON text
    | EncodeError         // the embedding library refused a batch that is not a list
}
