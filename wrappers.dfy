/** A value that may be missing: JavaScript's `undefined`/`null` in the screen's state. */
module Wrappers {

  datatype Option<+T> = None | Some(value: T)

}
