/** Small types shared by every module. */
module Wrappers {
  datatype Option<+T> = None | Some(value: T)

  /** How a database transaction ends.  `Ambiguous` commits but raises; `retryable` is the verdict of
      `isRetryableError` on the error raised. */
  datatype Fate = Committed | Aborted(retryable: bool) | Ambiguous(retryable: bool)

  /** The transaction's writes are in the database afterwards. */
  predicate Lands(fate: Fate) {
    !fate.Aborted?
  }
}
