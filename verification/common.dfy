/** Shared value types: optional and fallible values, and the fixed-width
    unsigned integers the order path passes around. */
module Common {

  /** Rust's `Option<T>`. */
  datatype Option<+T> = None | Some(value: T)

  /** The result of a step whose failure is reported as a message, such as a
      library call (`reqwest`, `serde_json`, `rmp_serde`) whose error value the
      model only keeps as its `to_string()` rendering. */
  datatype Fallible<+T> = Done(value: T) | Failed(reason: string)

  /** `u8`. */
  type Byte = b: nat | b < 0x100

  /** `u16`, the width of an HTTP status code. */
  type U16 = x: nat | x < 0x1_0000

  /** `u64`, the width of a nonce. */
  type U64 = x: nat | x < 0x1_0000_0000_0000_0000

  /** A 256-bit unsigned integer, the width of a signature scalar. */
  type U256 = x: nat | x < 0x1_0000_0000_0000_0000_0000_0000_0000_0000_0000_0000_0000_0000_0000_0000_0000_0000
}
