/** An optional value, used where the source returns null, None or an error marker. */
module Wrappers {
  datatype Option<+T> = None | Some(value: T)
}
