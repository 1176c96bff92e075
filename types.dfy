/** Values shared by every module of the GhostMarket NEP-11 model. */
module Types {

  /** A byte string: storage keys, token ids, addresses and stored payloads. */
  type Bytes = seq<bv8>

  datatype Option<+T> = None | Some(value: T)

  /** Why a call raised. A raise reverts every storage write of the invocation. */
  datatype Fault =
    | AssertionFailed          // a failed `assert` (address length, `verify()`)
    | NegativeMintFee          // "Mint fee can't be < 0"
    | FeePaymentFailed         // "Fee payment failed!"
    | LockedContentProhibited  // "Prohibited access to locked content!"
    | DeserializeFailed        // the authorised-address list is not in storage yet
    | NotInList                // `list.remove` of an address the list does not hold
    | IndexOutOfRange          // `lockedContent[i]` past the end of the list

  /** The result of a public call: a returned value, or a raise. */
  datatype Outcome<+T> = Done(value: T) | Abort(fault: Fault)
}
