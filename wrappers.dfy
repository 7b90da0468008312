/** The optional value used where the page's code returns or receives `null`. */
module Wrappers {

  datatype Option<+T> = None | Some(value: T)
}
