/** Failure-carrying datatypes shared by the engine's modules. */
module Wrappers {

  /** A value that may be absent (Python's `None`). */
  datatype Option<+T> = None | Some(value: T) {
    function GetOr(default: T): T {
      match this
      case Some(v) => v
      case None => default
    }
  }

  /** A value or the exception that stopped the computation. */
  datatype Result<+T, +E> = Ok(value: T) | Err(error: E)
}

/** The exceptions raised by the calculation, one constructor per `raise` site. */
module Errors {

  datatype Error =
    | InvalidUrl                                // "Invalid playlist URL format"
    | EmptyPlaylist                             // "No videos found or playlist is private"
    | NoDurations                               // "No valid video durations found"
    | ListingFailed(status: int, body: string)  // "API Error: {status} - {body}" from the listing endpoint
    | LookupFailed(status: int)                 // "API Error: {status}" from the videos endpoint
    | BadDuration(text: string)                 // the whole `duration` token `parse_duration` refused
}
