/** Option, the shape of Rust's `Option<T>` as the lexer returns it. */
module Wrappers {
  datatype Option<+T> = None | Some(value: T)
}
