/** Option stands for a JavaScript value that is either present or `undefined`. */
module Wrappers {

  datatype Option<+T> = None | Some(value: T)
}
