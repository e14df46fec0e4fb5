/** Small vocabulary shared by every module of the model. */
module Common {

  datatype Option<+T> = None | Some(value: T)

  const U16_MAX: nat := 0xFFFF
  const U32_MAX: nat := 0xFFFF_FFFF
  const U64_MAX: nat := 0xFFFF_FFFF_FFFF_FFFF

  /** Rust's `saturating_add` at the width whose largest value is `max`. */
  function SatAdd(a: nat, b: nat, max: nat): nat {
    if a + b > max then max else a + b
  }

  /** Rust's `saturating_sub` on an unsigned integer. */
  function SatSub(a: nat, b: nat): nat {
    if a < b then 0 else a - b
  }

  function Min(a: int, b: int): int {
    if a < b then a else b
  }

  function Max(a: int, b: int): int {
    if a < b then b else a
  }
}
