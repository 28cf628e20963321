/** Failure-carrying values shared by every module of the model. */
module Wrappers {

  /** A nullable value: `T | null` (and an absent optional field). */
  datatype Option<+T> = None | Some(value: T)

  /** The outcome of one backend request: the rows (or row) it returned, or a
      request error. Which error it was is never inspected by the program
      beyond its presence, so the error carries no payload. */
  datatype Fetch<+T> = Ok(value: T) | Err
}
