/** Rust's `Option`, the only wrapper the tangle front half uses. */
module Wrappers {

  datatype Option<+T> = None | Some(value: T)

}
