/** The optional value used wherever the source returns `null`/`None` or raises and catches. */
module Wrappers {

  datatype Option<+T> = None | Some(value: T)

}
