/** Optional values, and the outcome of an await that may raise instead of answering. */
module Wrappers {

  datatype Option<+T> = None | Some(value: T)

  /** What an awaited call gives back: the value, or an exception. */
  datatype Reply<+T> = Fault | Got(value: T)
}
