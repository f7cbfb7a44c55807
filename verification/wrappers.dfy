/** The optional values of the content script: JavaScript's `null` and
    `undefined` on the one hand, a present value on the other. */
module Wrappers {

  datatype Option<+T> = None | Some(value: T)
}
