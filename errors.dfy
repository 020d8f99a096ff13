/** Error kinds and the result wrappers shared by the three solvers. */
module Errors {

  /** `InputError`: a token outside its alphabet (or an unreadable source).
      `ValidationError(reason)`: the input broke a structural assumption of a
      solver. In this model every place where the program would panic (an
      `unwrap` on a failed parse, indexing an empty vector, reading past the
      last line) is reported as a `ValidationError` whose reason names it. */
  datatype Error = InputError | ValidationError(reason: string)

  /** The program's `Result<T>`, with `:-` standing for Rust's `?`. */
  datatype Result<+T> = Ok(value: T) | Err(error: Error) {

    predicate IsFailure() {
      Err?
    }

    function PropagateFailure<U>(): Result<U>
      requires Err?
    {
      Err(error)
    }

    function Extract(): T
      requires Ok?
    {
      value
    }
  }

  datatype Option<+T> = None | Some(value: T)
}
