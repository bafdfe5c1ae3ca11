/** Vocabulary shared by all components: error codes, machine words and optional values. */
module Base {

  const U32_LIMIT := 0x1_0000_0000
  const I64_LIMIT := 0x8000_0000_0000_0000

  type u32 = x: int | 0 <= x < 0x1_0000_0000
  type byte = x: int | 0 <= x < 256

  datatype Option<+T> = None | Some(value: T)

  /** The esp_err_t values the firmware tells apart; `Other` is any further driver code. */
  datatype Err =
    | Ok
    | InvalidArg
    | InvalidState
    | InvalidSize
    | NotSupported
    | NoMem
    | Timeout
    | Fail
    | NotFound
    | Other(code: int)

  /** Unsigned 32-bit wrap-around, the arithmetic of `size_t` on the ESP32. */
  function Wrap32(x: int): (r: u32)
    ensures 0 <= x < U32_LIMIT ==> r == x
  {
    x % U32_LIMIT
  }

  /** Two's complement 64-bit wrap-around, the arithmetic of `int64_t`. */
  function Wrap64(x: int): (r: int)
    ensures -I64_LIMIT <= r < I64_LIMIT
    ensures -I64_LIMIT <= x < I64_LIMIT ==> r == x
  {
    (x + I64_LIMIT) % (2 * I64_LIMIT) - I64_LIMIT
  }
}
