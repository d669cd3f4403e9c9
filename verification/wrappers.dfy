/** The optional value used for the anchor, the live end point, the
    selection and the hit of a click. */
module Wrappers {

  datatype Option<+T> = None | Some(value: T)
}
