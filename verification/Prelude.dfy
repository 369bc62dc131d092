/** Option, the error kinds of `ContextError` that the model distinguishes, and Result. */
module Prelude {

  datatype Option<+T> = None | Some(value: T)

  datatype Error = Validation | NotFound | Conflict | SecretDetected | Malformed

  datatype Result<+T> = Ok(value: T) | Err(error: Error) {
    predicate IsFailure() { Err? }

    function PropagateFailure<U>(): Result<U>
      requires Err?
    {
      Err(error)
    }

    function Extract(): T
      requires Ok?
    {
      value
    }
  }
}
