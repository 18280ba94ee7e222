/** The `string | null` results of the validators, and other optional values. */
module Wrappers {
  datatype Option<+T> = None | Some(value: T)
}
