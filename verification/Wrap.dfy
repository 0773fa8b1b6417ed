/** Unsigned 32-bit and 16-bit arithmetic. */
module Wrap {
  const TWO16 := 0x1_0000
  const TWO32 := 0x1_0000_0000

  type uint16 = x: int | 0 <= x < TWO16
  type uint32 = x: int | 0 <= x < TWO32

  function Add32(a: int, b: int): uint32 { (a + b) % TWO32 }

  function Sub32(a: int, b: int): uint32 { (a - b) % TWO32 }

  /** Reading an unsigned 32-bit number as a signed one. */
  function ToInt32(x: uint32): int { if x < TWO32 / 2 then x else x - TWO32 }

  lemma AddThenSub(a: uint32, d: int)
    requires 0 <= d < TWO32
    ensures Sub32(Add32(a, d), a) == d
  {
  }

  lemma SubThenAdd(a: uint32, b: uint32)
    ensures Add32(Sub32(b, a), a) == b
  {
  }

  lemma AddInjective(a: uint32, d: int, e: int)
    requires 0 <= d < TWO32 && 0 <= e < TWO32
    requires Add32(a, d) == Add32(a, e)
    ensures d == e
  {
  }
}
