/** The optional value used wherever the JavaScript code returns `null` or may fail quietly. */
module Wrappers {

  datatype Option<+T> = None | Some(value: T)
}
