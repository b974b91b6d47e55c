/**
 * The optional value the pipeline uses wherever Python returns `None`
 * instead of a string.
 */
module Wrappers {

  datatype Option<+T> = None | Some(value: T)
}
