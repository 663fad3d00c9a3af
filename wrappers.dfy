/** The absent-or-present wrapper used for the JSON fields that may hold `false`. */
module Wrappers {

  datatype Option<+T> = None | Some(value: T)
}
