/** What several components share. */
module Wrappers {
  /** A value that may be absent. */
  datatype Option<+T> = None | Some(value: T)

  /** How writing a file atomically ends: a temporary file renamed into place, then the directory
      synced.  A failure may be reported before the rename took effect or after it. */
  datatype Outcome = Durable | FailedBefore | FailedAfter
}
