/**
 * Fixed-width C integer types and small wrappers shared by the emulator
 * modules. Values are unbounded integers restricted to the range of the C
 * type; every wrap-around the C code performs is written out at its use.
 */
module CTypes {

  /** uint8_t */
  type byte = x: int | 0 <= x < 0x100

  /** uint16_t */
  type u16 = x: int | 0 <= x < 0x1_0000

  datatype Option<+T> = None | Some(value: T)

  /**
   * What a C function that returns int does: it returns a status code, or
   * it reaches undefined behaviour (a NULL dereference, a use after free).
   */
  datatype Outcome = Returned(code: int) | Undefined

  /** Narrowing of a C int to uint16_t (used for `address + 1`, `sp -= 2`, ...). */
  function ToU16(x: int): (r: u16)
    ensures 0 <= x < 0x1_0000 ==> r == x
    ensures (r - x) % 0x1_0000 == 0
  {
    x % 0x1_0000
  }

  /** Narrowing of a C int to uint8_t. */
  function ToByte(x: int): (r: byte)
    ensures 0 <= x < 0x100 ==> r == x
    ensures (r - x) % 0x100 == 0
  {
    x % 0x100
  }
}
