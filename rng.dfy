// The 32-bit xorshift generator that breaks left/right ties.

module Rng {

  /** One xorshift step with the shifts 13, 17 and 5 on an unsigned 32-bit state. */
  function XorShift(s: bv32): bv32
  {
    var a := s ^ (s << 13);
    var b := a ^ (a >> 17);
    b ^ (b << 5)
  }

  /** The direction drawn from a generator output: -1 when it is odd, +1 otherwise. */
  function Direction(r: bv32): (d: int)
    ensures d == -1 || d == 1
    ensures d == -1 <==> r & 1 == 1
  {
    if r % 2 == 1 then -1 else 1
  }

  /** Zero is a fixed point: a zero seed makes every draw +1. */
  lemma ZeroIsFixed()
    ensures XorShift(0) == 0 && Direction(XorShift(0)) == 1
  {
  }

  /** Each of the three xorshift stages is injective, so a non-zero state never
      becomes zero and the generator never gets stuck. */
  lemma NonZeroStaysNonZero(s: bv32)
    requires s != 0
    ensures XorShift(s) != 0
  {
    var a := s ^ (s << 13);
    assert a != 0;
    var b := a ^ (a >> 17);
    assert b != 0;
    assert b ^ (b << 5) != 0;
  }
}
