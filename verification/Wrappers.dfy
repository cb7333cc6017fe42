/** Results and errors shared by every module. */
module Wrappers {

  /** The ways an instruction fails. `Panic` stands for a Rust panic (failed slice, division by zero,
      `unwrap` on nothing); the other names follow ProgramError, BonfidaBotError and the SPL token errors. */
  datatype Error =
    | Panic
    | InvalidInstruction
    | InvalidArgument
    | InvalidAccountData
    | NotEnoughAccountKeys
    | UninitializedAccount
    | LockedOperation
    | InsufficientFunds
    | Overflow
    | OwnerMismatch
    | MintMismatch

  datatype Option<+T> = None | Some(value: T)

  datatype Result<+T> = Ok(value: T) | Err(error: Error) {
    predicate IsFailure() {
      Err?
    }

    function PropagateFailure<U>(): Result<U>
      requires Err?
    {
      Err(error)
    }

    function Extract(): T
      requires Ok?
    {
      value
    }
  }
}
