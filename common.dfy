/** Types and helpers shared by the daemon and the two firmware models. */
module Common {

  /** A 24-bit unsigned field, as the broadcast packet carries its ids. */
  type U24 = x: int | 0 <= x < 0x100_0000

  datatype Option<T> = None | Some(value: T)

  /** Bit `i` of a 16-bit word, tested the way C's `w & (1 << i)` tests it. */
  predicate Bit(w: bv16, i: nat)
    requires i < 16
  {
    w & ((1 as bv16) << i) != 0
  }

  /** A line level or a flag as the 0/1 value C's `?:` and int promotion produce. */
  function Bit01(b: bool): bv16
  {
    if b then 1 else 0
  }
}
