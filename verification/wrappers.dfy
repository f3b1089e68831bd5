/** The optional-value datatype the model uses where the program yields
    `undefined`/`null` or nothing at all. */
module Wrappers {

  datatype Option<+T> = None | Some(value: T)

}
