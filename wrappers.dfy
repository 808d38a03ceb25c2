/** The absent-or-present value that stands for JavaScript's `null` results and for
    `NaN` from number parsing. */
module Wrappers {

  datatype Option<+T> = None | Some(value: T)
}
