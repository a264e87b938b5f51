/** The optional-value type used for a regular-expression match that may fail
    and for a JavaScript property lookup that may be `undefined`. */
module Wrappers {

  datatype Option<+T> = None | Some(value: T)
}
