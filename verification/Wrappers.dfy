/** Optional values and results, used in place of null references and thrown errors. */
module Wrappers {
  datatype Option<+T> = None | Some(value: T)

  /** A computation that either yields a value or fails as a whole. */
  datatype Result<+T> = Ok(value: T) | Fail
}
