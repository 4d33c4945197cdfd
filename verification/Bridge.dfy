/** Error codes and results shared by every component of the model. */
module Bridge {

  /** The codes of `BridgeError` that the modelled operations can throw. */
  datatype ErrorCode =
    | INVALID_ARGUMENT
    | NOT_FOUND
    | ILLEGAL_TRANSITION
    | NOT_OWNER
    | SCOPE_CONFLICT
    | LEASE_INVALID
    | DEPENDENCY_UNSATISFIED
    | DEPENDENCY_CYCLE
    | IDEMPOTENCY_MISMATCH
    | REVISION_CONFLICT
    | TIMEOUT
    | RUNTIME_STOP_UNCONFIRMED
    | OPERATION_IN_PROGRESS
    | TASK_CANCELLED
    | ADAPTER_FAILURE
    | INTERNAL

  /** The value returned by an operation, or the code it throws. */
  datatype Result<+T> = Ok(value: T) | Err(code: ErrorCode) {
    predicate IsFailure() {
      Err?
    }

    function PropagateFailure<U>(): Result<U>
      requires Err?
    {
      Err(code)
    }

    function Extract(): T
      requires Ok?
    {
      value
    }
  }

  datatype Option<+T> = None | Some(value: T)

  /** `Number.MAX_SAFE_INTEGER`. */
  const MAX_SAFE: nat := 0x1F_FFFF_FFFF_FFFF
}
