/** The optional-value type used across the model (a query that may find nothing). */
module Wrappers {

  datatype Option<+T> = None | Some(value: T)
}
