/** Machine words as the C code sees them: bytes, and 32-bit unsigned counters that wrap. */
module Words {
  datatype Option<+T> = None | Some(value: T)

  type byte = x: int | 0 <= x < 256

  const TWO31: int := 0x8000_0000
  const TWO32: int := 0x1_0000_0000

  type i32 = x: int | -TWO31 <= x < TWO31

  type u32 = x: int | 0 <= x < TWO32

  /** The 32-bit counter that a count of n events leaves in an unsigned word. */
  function Wrap(n: int): u32 {
    n % TWO32
  }

  /** Counts less than a whole turn apart leave the same word only when they are the same. */
  lemma SameWrap(a: nat, b: nat)
    requires a <= b < a + TWO32
    ensures Wrap(a) == Wrap(b) <==> a == b
  {
  }

  /** The C cast from an unsigned to a signed 32-bit word. */
  function Signed(x: u32): i32 {
    if x < TWO31 then x else x - TWO32
  }

  function Min(a: int, b: int): int {
    if a <= b then a else b
  }
}
