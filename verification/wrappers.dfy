/** The optional value: a message the page sent or not, an inherited member an id names or not. */
module Wrappers {

  datatype Option<+T> = None | Some(value: T)
}
