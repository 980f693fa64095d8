/** Optional values and the coordinator's error returns. */
module Outcomes {

  datatype Option<+T> = None | Some(value: T)

  /** The error kinds of the coordinator that the modelled handlers return, and a handler that
      panics, which ends the request and leaves the state as it was. */
  datatype AppError =
    | InvalidInput
    | NotFound
    | AgentNotFound
    | AgentSuspended
    | AgentRevoked
    | InvalidAgentSession
    | PubkeyConflict
    | WalletNotFound
    | TreasuryNotFound
    | ChallengeExpired
    | RequestReplay
    | RequestSignatureInvalid
    | SignatureRejected
    | CosignFailed
    | DatabaseError
    | HandlerPanicked

  datatype Result<+T> = Ok(value: T) | Err(error: AppError)
}
