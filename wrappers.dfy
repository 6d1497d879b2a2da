/** A missing value (pandas NaN / None) or a present one. */
module Wrappers {

  datatype Option<+T> = None | Some(value: T)
}
