/** Shared wrapper types: a value that may be absent, as Python's `Optional`. */
module Base {

  /** `None` stands for Python's `None` (an absent value, or a call that raised). */
  datatype Option<T> = None | Some(value: T)
}
