/** The value types of the C ABI (include/nts_web.h) and the integer widths the
    runtime relies on. Handles and subscriptions are pairs of 32-bit numbers; the
    model lets callers pass any pair of naturals, which includes all of those. */
module Abi {

  const UINT32_MAX: nat := 0xFFFF_FFFF

  datatype Option<+T> = None | Some(value: T)

  datatype Status =
    | Ok
    | InvalidArgument
    | InvalidHandle
    | WrongRealm
    | WrongSequence
    | ContextDestroyed
    | TypeError
    | RangeError
    | SyntaxError
    | DomException
    | OperationDisabled
    | OutOfMemory

  datatype Handle = Handle(slot: nat, generation: nat)

  // The C code's `{0}`: the null handle, never issued.
  const NULL_HANDLE := Handle(0, 0)
}
