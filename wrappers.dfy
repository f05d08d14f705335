/** An optional value: what JavaScript expresses with `undefined` or an optional field. */
module Wrappers {

  datatype Option<+T> = None | Some(value: T)
}
