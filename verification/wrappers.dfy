/** Failure-carrying values shared by every module of the model. */
module Wrappers {

  datatype Option<T> = None | Some(value: T)

  /** Go's `error` result: `Pass` stands for `nil`, `Fail` carries the error text. */
  datatype Outcome = Pass | Fail(msg: string)
}
