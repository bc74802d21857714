/** The optional value used throughout the model: `None` stands for JavaScript's
    `undefined` where a built-in yields "no value" (an index past the end, a missing
    argument). */
module Wrappers {

  datatype Option<+T> = None | Some(value: T)
}
