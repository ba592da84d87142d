/** The exceptions the core throws or catches. Every variant but `NonError`
    is an `Error` instance in the source and so carries a `message`. */
module Errors {

  datatype Exception =
    | BadRequest(message: string)          // HTTP 400: the caller's input was rejected
    | ServiceUnavailable(message: string)  // HTTP 503: provider missing, failing or empty
    | NotFound(message: string)            // HTTP 404
    | Conflict(message: string)            // HTTP 409
    | Unauthorized(message: string)        // HTTP 401
    | PlainError(message: string)          // any other `Error`, e.g. a network failure of the SDK
    | NonError                             // a thrown value that is not an `Error` at all

  /** The two categories the services re-throw unchanged. */
  predicate IsPassThrough(e: Exception) {
    e.BadRequest? || e.ServiceUnavailable?
  }

  /** `error instanceof Error ? error.message : 'Unknown error'`. */
  function MessageOf(e: Exception): string {
    if e.NonError? then "Unknown error" else e.message
  }

  /** `inner` occurs as a contiguous part of `outer`. */
  predicate Embeds(outer: string, inner: string) {
    exists i :: 0 <= i <= |outer| && inner <= outer[i..]
  }

  lemma EmbedsMiddle(before: string, middle: string, after: string)
    ensures Embeds(before + middle + after, middle)
  {
    assert (before + middle + after)[|before|..] == middle + after;
  }
}
