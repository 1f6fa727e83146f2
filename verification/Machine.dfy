/** Machine integers and the small result types shared by every module. */
module Machine {

  const TWO32: nat := 0x1_0000_0000
  const TWO64: nat := 0x1_0000_0000_0000_0000

  type u32 = n: nat | n < TWO32
  type u64 = n: nat | n < TWO64

  datatype Option<+T> = None | Some(value: T)

  datatype Result<+T, +E> = Ok(value: T) | Err(error: E)

  /** An atomic `fetch_add` wraps around, and so does release-mode `+`. */
  function WrapAdd(a: u64, b: nat): u64 {
    (a + b) % TWO64
  }

  /** An atomic `fetch_sub(1)` wraps from zero to the largest value. */
  function WrapDecrement(a: u64): u64 {
    if a == 0 then TWO64 - 1 else a - 1
  }

  /** Unsigned `-` wraps below zero. */
  function WrapSub(a: u64, b: u64): u64 {
    if b <= a then a - b else TWO64 + a - b
  }

  function Max(a: nat, b: nat): nat {
    if a < b then b else a
  }
}
