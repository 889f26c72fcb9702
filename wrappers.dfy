/** Option and Result, shaped after Rust's: the model's stand-ins for the
    `Option<T>` a field decodes to and the `Result<Vec<Station>, Error>`
    the search returns. */
module Wrappers {

  datatype Option<+T> = None | Some(value: T) {

    predicate IsFailure() {
      None?
    }

    function PropagateFailure<U>(): Option<U>
      requires None?
    {
      None
    }

    function Extract(): T
      requires Some?
    {
      value
    }
  }

  datatype Result<+T, +E> = Ok(value: T) | Err(error: E)
}
