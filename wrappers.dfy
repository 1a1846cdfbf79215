/** Rust's `Option`, for the singletons that can be taken only once. */
module Wrappers {

  datatype Option<T> = None | Some(value: T)
}
