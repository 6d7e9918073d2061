/** Value types shared by the two contracts: EVM addresses, 32-byte words and
    the success/failure result of a contract call. */
module Types {

  /** A 20-byte EVM account address. */
  newtype Address = x: int | 0 <= x < 0x1_0000_0000_0000_0000_0000_0000_0000_0000_0000_0000

  /** `address(0)`, which ERC-20 refuses as a mint recipient. */
  const ZERO_ADDRESS: Address := 0

  /** A `bytes32` word, used for state-root hashes; only compared, never decoded. */
  newtype Bytes32 = x: int | 0 <= x < 0x1_0000_0000_0000_0000_0000_0000_0000_0000_0000_0000_0000_0000_0000_0000

  /** The outcome of a call: the new state, or the reason the EVM reverted it.
      A reverted call carries no state: the caller keeps the state it had. */
  datatype Result<+T, +E> = Ok(value: T) | Err(error: E)
}
