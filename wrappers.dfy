/** Option and Result values, standing in for JavaScript's `null` returns and
    for the one exception the tokenizer can raise. */
module Wrappers {

  datatype Option<+T> = None | Some(value: T)

  datatype Result<+T, +E> = Success(value: T) | Failure(error: E)
}
