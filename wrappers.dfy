/** The optional value the source writes as `undefined`/`null` or as a present value. */
module Wrappers {
  datatype Option<+T> = None | Some(value: T)
}
