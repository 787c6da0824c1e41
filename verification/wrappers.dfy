/** The optional value that Python spells `Optional[T]` (a value or `None`). */
module Wrappers {

  datatype Option<T> = None | Some(value: T)
}
