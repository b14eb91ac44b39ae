/** The optional value used throughout the model; None stands for JavaScript's
    `undefined`/`null`, or for NaN where a number is expected. */
module Wrappers {

  datatype Option<+T> = None | Some(value: T)
}
