/** Option, the failure-compatible type used by every parser of the project, and 32-bit wrap-around. */
module Wrappers {

  datatype Option<+T> = None | Some(value: T) {
    predicate IsFailure() { None? }

    function PropagateFailure<U>(): Option<U>
      requires None?
    {
      None
    }

    function Extract(): T
      requires Some?
    {
      value
    }
  }

  /** Go's conversion of an int to int32: keep the low 32 bits, read as a signed number. */
  function Wrap32(n: int): int {
    (n + 0x8000_0000) % 0x1_0000_0000 - 0x8000_0000
  }

  /** It is the number itself where that fits, and always the one 32-bit number that differs by whole turns. */
  lemma Wrap32Turns(n: int)
    ensures -0x8000_0000 <= Wrap32(n) < 0x8000_0000 && (n - Wrap32(n)) % 0x1_0000_0000 == 0
    ensures -0x8000_0000 <= n < 0x8000_0000 ==> Wrap32(n) == n
  {
    var m := n + 0x8000_0000;
    assert m == m / 0x1_0000_0000 * 0x1_0000_0000 + m % 0x1_0000_0000;
    assert n - Wrap32(n) == m / 0x1_0000_0000 * 0x1_0000_0000;
  }

  /** The next value of a 32-bit counter. */
  function Next32(n: int): int {
    if n == 0x7FFF_FFFF then -0x8000_0000 else n + 1
  }
}
