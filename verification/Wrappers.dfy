/** Optional values, and results that carry the reason a transaction was refused. */
module Wrappers {

  datatype Option<+T> = None | Some(value: T)

  /** Why a transaction is not applied. Every constructor but the last four stands for one
      `InvalidTransaction` raised by a handler; those four are the failures that come from below it. */
  datatype Error =
    | BadForm
    | GenesisRepeated
    | ZeroAmount | NotAnAccount | SelfTransfer | LowBalance
    | SwapTaken | NoBlockConfig | NoBlock | NegativeCommission
    | NoSwap | SwapFinished | LockPresent | NotTheInitiator | LockMissing | LockNotProvided
    | NotTheSender | TimeLocked | WrongSecret | NotApproved
    | BadOwnerSignature | NoConfiguration | BadKeySignature | KeyTaken | ValidityTooLong | ZeroPayer
    | NoKey | NotTheOwner | AlreadyRevoked
    | Unauthorized   // the address is outside the declared inputs or outputs
    | OutOfRange     // a uint64 field was assigned a value it cannot hold
    | BadSetting     // the commission setting is absent or not a number
    | Undecodable    // a key or signature the crypto library cannot read

  datatype Result<+T> = Ok(value: T) | Err(error: Error) {

    predicate IsFailure() {
      Err?
    }

    function PropagateFailure<U>(): Result<U>
      requires Err?
    {
      Err(error)
    }

    function Extract(): T
      requires Ok?
    {
      value
    }
  }
}
