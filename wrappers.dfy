/** A value that may be absent: the model's stand-in for a JavaScript
    property that is `undefined` or `null`. */
module Wrappers {

  datatype Option<+T> = None | Some(value: T)
}
