/** Error values and the two result shapes the Go code returns: `(T, error)`
    pairs become Result<T>, a bare `error` becomes Option<Error>. */
module Outcome {

  /** An error as the code builds it: the message of a failed call that lies
      outside the model (a git command, a file read, the text-generation
      backend, an argument check), or `fmt.Errorf("<context>: %w", cause)`,
      which wraps another error under a context string. */
  datatype Error =
    | Failed(message: string)
    | Wrapped(context: string, cause: Error)

  datatype Result<T> = Ok(value: T) | Err(error: Error)

  datatype Option<T> = None | Some(value: T)
}
