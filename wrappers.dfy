/** The optional value used throughout the model: an absent form entry, a missing
    field path, a parse that did not succeed. */
module Wrappers {

  datatype Option<+T> = None | Some(value: T)
}
