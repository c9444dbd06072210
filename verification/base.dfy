/** Small shared datatypes. */
module Base {

  /** A value that may be missing; stands for Python's `None`. */
  datatype Option<+T> = None | Some(value: T)
}
