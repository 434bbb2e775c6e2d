/** The optional-value datatype used across the model: `None` stands for a
    JavaScript `undefined` (a missing property) or, for numbers, `NaN`. */
module Wrappers {

  datatype Option<+T> = None | Some(value: T)
}
