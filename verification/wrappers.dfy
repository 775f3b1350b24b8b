/** The optional value that replaces the C program's NaN sentinel: `None` is the
    "no value" outcome (cancelled, invalid input, domain error or a NaN result). */
module Wrappers {

  datatype Option<+T> = None | Some(value: T)
}
