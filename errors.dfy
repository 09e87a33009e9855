/**
 * Error values of the review pipeline and the two failure-compatible wrappers
 * every stage returns. Go's `error` interface becomes the closed datatype
 * `Error`; a nil error is the absence of an `Error` (`None` / `Ok`).
 */
module Errors {

  datatype Error =
    /** The project holds no recognised code unit: nothing to review (user error, HTTP 400). */
    | NoSnippetFound
    /** The language model answered with zero completion choices. */
    | NoResponseChoice
    /** No prompt template is registered for the requested task. */
    | UnknownIntent
    /** `context.Canceled`: the caller's context was cancelled. */
    | Canceled
    /** `context.DeadlineExceeded`: the per-event timeout fired. */
    | DeadlineExceeded
    /** Any failure reported by a collaborator (network, provider, store, file system). */
    | External(reason: string)
    /** `fmt.Errorf(message + ": %w", cause)`. */
    | Wrapped(message: string, cause: Error)

  datatype Option<+T> = None | Some(value: T)

  datatype Result<+T> = Ok(value: T) | Err(error: Error)

  /** The three pipeline errors that are `HttpError` values. */
  predicate IsHttpError(e: Error) {
    e.NoSnippetFound? || e.NoResponseChoice? || e.UnknownIntent?
  }

  /** `HttpError.IsUserError`. */
  predicate IsUserError(e: Error)
    requires IsHttpError(e)
  {
    e.NoSnippetFound?
  }

  /** `HttpError.StatusCode`: a user error is a bad request, the others are internal errors. */
  function StatusCode(e: Error): (code: int)
    requires IsHttpError(e)
    ensures code == 400 <==> IsUserError(e)
    ensures code == 400 || code == 500
  {
    match e
    case NoSnippetFound => 400
    case _ => 500
  }

  /** `HttpError.Error()`: the description carried by each value. */
  function Description(e: Error): (text: string)
    requires IsHttpError(e)
    ensures text != []
  {
    match e
    case NoResponseChoice => "no response choices from LLM"
    case UnknownIntent => "unknown intent"
    case NoSnippetFound => "no snippet found"
  }
}
