/** Option and Result values for the operators' error paths (Java exceptions and
    absent map entries are modelled as values rather than excluded by preconditions). */
module Wrappers {

  datatype Option<+T> = None | Some(value: T)

  datatype Result<+R, +E> = Success(value: R) | Failure(error: E)
}
