/** Results of fallible reads and lookups: a missing value and a failed call are ordinary outcomes
    of the controllers, never preconditions. */
module Wrappers {
  datatype Option<+T> = None | Some(value: T)

  datatype Result<+T> = Ok(value: T) | Err(error: string)
}
