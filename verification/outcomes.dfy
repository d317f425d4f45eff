/** The shapes every calendar operation settles into: a promise that either
    resolves with a value or rejects with a failure, the `{code, response}`
    objects the source rejects and resolves with, and the pair of an outcome
    and the state an operation leaves behind. */
module Outcomes {

  datatype Option<+T> = None | Some(value: T)

  /** A `{code, contentType, response: {status, message}}` object. The content
      type is not modelled. */
  datatype Reply = Reply(code: nat, status: string, message: string)

  /** The values a promise of the core can reject with. */
  datatype Failure =
    | Refused(reply: Reply)          // a `{code, response}` object
    | RejectedFalse                  // the bare value `false` (a password mismatch)
    | StoreRejected                  // the storage driver reported an error
    | HeaderTypeError                // reading a field of a missing authorization header threw
    | GatewayFailed(reason: string)  // a directions or events gateway rejected with a string

  /** A settled promise. The first `resolve` or `reject` a source function
      reaches decides it; later calls are ignored, so an operation that rejects
      without returning is modelled by its first rejection. */
  datatype Outcome<+T> = Resolved(value: T) | Rejected(failure: Failure) {

    predicate IsFailure() {
      Rejected?
    }

    function PropagateFailure<U>(): Outcome<U>
      requires Rejected?
    {
      Rejected(failure)
    }

    function Extract(): T
      requires Resolved?
    {
      value
    }
  }

  /** What a state-changing operation settles with, and the state it leaves. */
  datatype Effect<+T, +S> = Effect(outcome: Outcome<T>, state: S)
}
