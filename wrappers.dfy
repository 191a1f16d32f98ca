/** The optional-value datatype the other modules use for values a request
    or a store may lack. */
module Wrappers {

  datatype Option<+T> = None | Some(value: T)
}
