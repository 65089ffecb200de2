/** An optional value: a missing form field, a query that finds nothing. */
module Wrappers {

  datatype Option<+T> = None | Some(value: T)
}
