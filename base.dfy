/** Small shared vocabulary: an optional value and the unsigned 64-bit range. */
module Base {

  /** The conventional Some/None datatype. */
  datatype Option<T> = None | Some(value: T)

  /** 2^64: every id of the messaging service, and every `u64`, lies below it. */
  const U64_LIMIT: nat := 0x1_0000_0000_0000_0000

  /** The values of Rust's `u64`. */
  type U64 = n: nat | n < U64_LIMIT
}
