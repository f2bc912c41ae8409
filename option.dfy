/** An optional value: JavaScript's `undefined`/`null` next to a present value. */
module Opt {
  datatype Option<+T> = None | Some(value: T)
}
