/** Optional values and success-or-error values: how the model states the
    exceptions the two scripts raise instead of returning. */
module Results {

  datatype Option<+T> = None | Some(value: T)

  datatype Result<+T, +E> = Success(value: T) | Failure(error: E)
}
