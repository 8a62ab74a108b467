/** Optional values, for lookups and API calls that may fail, and how a call that changes something ends. */
module Wrappers {
  datatype Option<+T> = None | Some(value: T)

  /** A changing API call is applied; fails without effect; or is applied although an error is returned. */
  datatype Api = Applied | Failed | Lost
}
