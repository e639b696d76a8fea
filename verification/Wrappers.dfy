/** Failure values shared by the models. */
module Wrappers {
  datatype Option<+T> = None | Some(value: T)

  /** The errors the modelled operations return, by the name the sources give them. */
  datatype Error =
    | ErrInvalidScope | ErrNotFound | ErrConflict
    | ErrInvalidJob | ErrJobNotFound | ErrJobConflict
    | ErrInvalidToken | ErrTokenConsumed | ErrInvalidRequest | ErrInvalidIdentity | ErrDuplicateAgent
    | ErrInvalidAlert | ErrInvalidSample | ErrInvalidLogs
    | ErrEntryTooLarge | ErrTooManyEntries | ErrEncode
    | ErrCheckpointInFuture | ErrCheckpointInvalid | ErrIncomplete | ErrIO

  datatype Result<+T> = Ok(value: T) | Err(error: Error)
}
