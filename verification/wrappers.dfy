/** Optional values, standing in for TypeScript's `T | null` and `T | undefined`. */
module Wrappers {

  datatype Option<+T> = None | Some(value: T)
}

/** What a subscriber to one HTTP request observes: the emitted value, or an
    error whose response body may carry a human-readable message. */
module Http {
  import opened Wrappers

  datatype Reply<+T> = Ok(value: T) | Err(message: Option<string>)
}
