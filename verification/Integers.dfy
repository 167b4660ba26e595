/** 32-bit integer arithmetic, as Java's int and Go's int32 compute it. */
module Integers {

  const MAX_INT: int := 0x7fff_ffff

  function Wrap32(n: int): (r: int)
    ensures -MAX_INT - 1 <= r <= MAX_INT
    ensures -MAX_INT - 1 <= n <= MAX_INT ==> r == n
  {
    (n + MAX_INT + 1) % 0x1_0000_0000 - MAX_INT - 1
  }

  /** Wrapping early or late makes no difference to a running sum. */
  lemma WrapOfSum(a: int, b: int)
    ensures Wrap32(Wrap32(a) + b) == Wrap32(a + b)
  {
  }

  /** Multiplying by a natural number keeps the order. */
  lemma Scaled(x: int, y: int, w: nat)
    ensures x <= y ==> x * w <= y * w
  {
  }
}
