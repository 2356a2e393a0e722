/** Stock result types and the identifiers, instants and errors every other module speaks of. */
module Basics {

  datatype Option<+T> = None | Some(value: T)

  datatype Result<+T, +E> = Ok(value: T) | Err(error: E)

  /** A UUID read as a number; `NIL` is the all-zero one. */
  type Id = nat
  const NIL: Id := 0

  type Time = int
  type Duration = int

  /** The errors callers tell apart. `Infrastructure` is any failure of the database or of another
      collaborator, `Constraint` a statement the schema rejects. */
  datatype Error =
    | Infrastructure
    | Constraint
    | Panicked
    | NotFound
    | InvalidArgument
    | RootAlreadyExists
    | TooManyActiveInvites
    | InviteNotFound
    | InviteExpired
    | InviteAlreadyUsed
    | CreatorNotFound
    | WrappedKeysRequired
    | TooManyWrappedKeys
    | SignCountRegression
    | AlreadyRevoked
    | CredentialNotFound
    | CredentialRevoked
    | CredentialCloneSuspected
    | RefreshTokenNotFound
    | RefreshTokenInvalid
    | RefreshTokenReuseDetected
    | SessionNotFound
    | SessionForbidden
}
