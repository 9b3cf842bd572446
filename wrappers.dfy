/** The optional-value type used where a d3 or JavaScript expression can yield `undefined`. */
module Wrappers {
  datatype Option<+T> = None | Some(value: T)
}
