/** An optional value: what a reader returns for input it does not accept,
    and what a nullable JavaScript variable holds. */
module Wrappers {
  datatype Option<T> = None | Some(value: T)
}
