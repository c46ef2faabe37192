/** Types shared by every component of the model. */
module Base {

  /** An instant in microseconds; fixed-width persisted timestamps compare as times. */
  type Time = int

  /** An opaque identity minted by `new_id`; uniqueness is stated where an operation needs it. */
  type Id = nat

  const SECOND: Time := 1_000_000

  datatype Option<+T> = None | Some(value: T)

  /** An operation's answer: a raised domain error means that the transaction changed nothing. */
  datatype Result<+T> = Ok(value: T) | Err(error: Error)

  datatype Error =
    | LeaseNotValid          // "job lease is no longer valid"
    | AttemptsExhausted      // "job has exhausted its attempt budget"
    | NotOwned               // "run is not owned by an active claim"
    | InvalidArgument        // an argument the operation refuses before touching the database
    | NotPermitted           // the definition or the target does not allow the operation
    | Unknown                // a named row does not exist
    | EvidenceMissing        // observation evidence is absent or belongs to another run
    | ScopeMissing           // a full snapshot has no declared scope
    | ScopeAlreadySet
    | ProofRejected          // the completeness proof does not cover the declared scope
    | NotApproved            // a review or promotion is not in the approved state
    | AlreadyPromoted
    | WrongPrincipal         // RefreshRequestAccessError
    | ReplayMismatch         // RefreshRequestReplayError
    | ConfirmationError      // RefreshConfirmationError
    | Ambiguous              // "ambiguous durable refresh request ID"
    | NotAccepted            // "refresh job was not accepted for ledger binding"

  function Max(a: int, b: int): (m: int)
    ensures m >= a && m >= b && (m == a || m == b)
  {
    if a >= b then a else b
  }

  function Min(a: int, b: int): (m: int)
    ensures m <= a && m <= b && (m == a || m == b)
  {
    if a <= b then a else b
  }
}
