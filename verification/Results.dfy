/** Options and results shared by every module: the source's nullable fields and its thrown errors. */
module Results {

  datatype Option<+T> = None | Some(value: T)

  datatype Result<+T, +E> = Success(value: T) | Failure(error: E)

  datatype Outcome<+E> = Pass | Fail(error: E)

  /** The `RuntimeError` codes the modelled operations throw. */
  datatype Code = InvalidInput | PolicyDenied | StaleHash | ProcessFailed | AuthInvalid | FileTooLarge | InternalError
}
