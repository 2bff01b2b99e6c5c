/** The optional value used for token payloads and table lookups (Rust's `Option`). */
module Wrappers {
  datatype Option<+T> = None | Some(value: T)
}
