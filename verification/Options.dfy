module Options {

  /** A value that may be missing, standing for Python's `None`. */
  datatype Option<+T> = None | Some(value: T)
}
