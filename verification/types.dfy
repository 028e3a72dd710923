/** Small shared vocabulary: optional values, results, and the fixed-width
    integer ranges the C++ code stores its values in. */
module Types {

  datatype Option<+T> = None | Some(value: T)

  /** The outcome of an operation that throws std::runtime_error on failure. */
  datatype Result<+T, +E> = Ok(value: T) | Err(error: E)

  /** std::uint8_t */
  type byte = x: int | 0 <= x < 0x100

  /** int */
  type int32 = x: int | -0x8000_0000 <= x < 0x8000_0000

  /** unsigned int */
  type uint32 = x: int | 0 <= x < 0x1_0000_0000

  /** unsigned long on the 64-bit target */
  type uint64 = x: int | 0 <= x < 0x1_0000_0000_0000_0000
}
