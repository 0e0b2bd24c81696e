/** The optional value used for QVariant() (the null variant) and the invalid QColor. */
module Wrappers {

  datatype Option<+T> = None | Some(value: T)
}
