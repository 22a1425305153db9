/** What several of the modules use. */
module Basics {

  datatype Option<+T> = None | Some(value: T)

  function Max(a: int, b: int): int {
    if a < b then b else a
  }

  /** The code of a lower-case hexadecimal digit. */
  function HexDigit(d: int): (c: int)
    requires 0 <= d < 16
    ensures 48 <= c < 58 || 97 <= c < 103
  {
    if d < 10 then 48 + d else 87 + d
  }
}
