/** Failure values shared by the record parser, the client ledger and the router.
    chain_tx's Rust code reports every failure through `anyhow` with a message; here each
    message becomes one constructor of `Error`. */
module Errors {

  /** Which field of a record could not be read. */
  datatype ParseFailure =
    | FieldCount
    | TypeField
    | ClientField
    | TransactionField
    | AmountField

  datatype Error =
    | AccountLocked               // the ledger has been frozen by a chargeback
    | DuplicateTransaction        // a deposit or withdrawal reuses a known id
    | InsufficientForWithdrawal   // withdrawal larger than the available funds
    | InsufficientForDispute      // disputing would drive available below zero
    | InsufficientForResolve      // resolving would drive available below zero
    | AlreadyInDispute            // dispute of an id that is under dispute
    | AlreadyReversed             // dispute of an id whose dispute cycle is over
    | NotInDispute                // resolve or chargeback of an id not under dispute
    | UnknownClient               // non-deposit record for a client never seen
    | NegativeAmount              // the router refuses amounts below zero
    | ParseError(field: ParseFailure)

  datatype Option<T> = None | Some(value: T)

  datatype Result<T> = Ok(value: T) | Err(error: Error)
}
