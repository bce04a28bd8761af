/**
 * The error values the modelled contracts can return. A Rust panic (an
 * overflowing `Uint256` operation, a zero denominator, an overflowing `u64`
 * expression) aborts the whole transaction; the model reports it as
 * `Panic(kind)` so that every operation stays a total function.
 */
module Errors {

  datatype PanicKind = AddOverflow | SubOverflow | MulOverflow | DivideByZero | DecimalRange

  datatype Error =
    | Panic(kind: PanicKind)
      /** `StdError::generic_err(msg)` */
    | Generic(msg: string)
      /** `StdError::Overflow` raised by `checked_sub` */
    | SubUnderflow
      /** loading a storage key that is not present */
    | NotFound(key: string)
      /** `Api::addr_validate` rejected the string */
    | InvalidAddress(addr: string)
    | Unauthorized
    | InvalidZeroAmount
    | AssetMismatch
    | ExpectingLPToken(sender: string)
    | NoWithdrawableAsset
    | NotEnoughAssetsInThePool
}
