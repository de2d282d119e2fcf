/** The optional value used for empty cells, search results and fatal outcomes. */
module Wrappers {

  datatype Option<+T> = None | Some(value: T)
}
