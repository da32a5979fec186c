/** The optional value used for the JavaScript `null` / `undefined` references of the model. */
module Wrappers {
  datatype Option<+T> = None | Some(value: T)
}
