/** Failure-carrying wrappers shared by the model: `Option` for values that may be
    absent (`None` in Python) and `Result` for operations that raise. */
module Results {

  datatype Option<+T> = None | Some(value: T)

  datatype Result<+R, +E> = Success(value: R) | Failure(error: E)
}
