/** Types shared by every service of the platform: optional values, the
    error kinds the services raise, and the result of an operation that can
    raise one of them. */
module Common {

  /** Java's nullable reference, made explicit. */
  datatype Option<+T> = None | Some(value: T)

  /** The kinds of `ApiException` the services throw. Every kind here is
      thrown by some service method; an unexpected Java exception (a null
      pointer, a violated unique constraint) reaches the caller through the
      generic exception handler as `InternalServerError`. */
  datatype ErrorCode =
    | Unauthorized
    | InvalidCredentials
    | AccountDisabled
    | AccessDenied
    | InvalidRefreshToken
    | ValidationFailed
    | MissingRequiredField
    | UsernameExists
    | EmailExists
    | UserNotFound
    | InvalidCurrentPassword
    | CannotModifySelf
    | CannotDeleteSelf
    | CannotDisableSelf
    | CannotDeleteAdmin
    | InternalServerError
    | ModelNotFound
    | ModelNameExists
    | TaskNotFound
    | TaskCannotStop
    | DatasetNotFound
    | DatasetNameExists
    | DatasetDeleteNotAllowed
    | MessageNotFound
    | CheckpointNotFound
    | ResourceNotFound
    | PresignedUrlGenerationFailed

  /** A value, or the error kind the operation raised instead. */
  datatype Result<+T> = Ok(value: T) | Err(error: ErrorCode)

  /** An operation with no return value that may raise. */
  datatype Outcome = Done | Raised(error: ErrorCode)

  /** Entity identifiers, in their canonical text form (`UUID.toString()`). */
  type Uuid = string

  /** A point in time, in seconds; the services read the clock, the model
      receives `now` as a parameter. */
  type Time = int

  /** Lists the elements of a set, each once, in an arbitrary order. */
  method Enumerate<T>(s: set<T>) returns (ids: seq<T>)
    ensures forall i, j :: 0 <= i < j < |ids| ==> ids[i] != ids[j]
    ensures forall x :: x in ids <==> x in s
  {
    ids := [];
    var rest := s;
    while rest != {}
      invariant rest <= s
      invariant forall x :: x in s <==> x in rest || x in ids
      invariant forall x :: x in ids ==> x !in rest
      invariant forall i, j :: 0 <= i < j < |ids| ==> ids[i] != ids[j]
      decreases |rest|
    {
      var id :| id in rest;
      ids := ids + [id];
      rest := rest - {id};
    }
  }
}
