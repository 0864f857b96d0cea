/** Option and Outcome datatypes shared by the configuration model. */
module Wrappers {

  /** A value that may be absent: `os.getenv` returning `None` is `None` here. */
  datatype Option<+T> = None | Some(value: T)

  /** The outcome of a check that either passes or raises one error. */
  datatype Outcome<+E> = Pass | Fail(error: E)
}
