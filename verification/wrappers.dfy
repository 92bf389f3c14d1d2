/** The optional-value datatype used wherever the source keeps an empty string
    ("" or "NONE") for "no value". */
module Wrappers {

  datatype Option<+T> = None | Some(value: T)

}
