/** Optional values: `None` stands for Kotlin's `null` and for a thrown exception. */
module Wrappers {
  datatype Option<+T> = None | Some(value: T)
}
