/** Machine integers of the TCP code and the modular sequence-number comparisons of lwip/tcp.h. */
module SeqNum {
  const TWO31 := 0x8000_0000
  const TWO32 := 0x1_0000_0000
  const TWO16 := 0x1_0000

  type byte = x: int | 0 <= x < 256
  type u8 = x: int | 0 <= x < 256
  type u16 = x: int | 0 <= x < 0x1_0000
  type u32 = x: int | 0 <= x < 0x1_0000_0000

  /** Conversion of an unbounded value to uint32_t. */
  function Wrap(x: int): u32 {
    x % TWO32
  }

  /** Conversion of an unbounded value to uint16_t. */
  function Wrap16(x: int): u16 {
    x % TWO16
  }

  /** The value of (int32_t)x for an unsigned x. */
  function Signed(x: u32): int {
    if x < TWO31 then x else x - TWO32
  }

  predicate SeqLt(a: u32, b: u32) {
    Signed(Wrap(a - b)) < 0
  }

  predicate SeqLeq(a: u32, b: u32) {
    Signed(Wrap(a - b)) <= 0
  }

  predicate SeqGt(a: u32, b: u32) {
    Signed(Wrap(a - b)) > 0
  }

  predicate SeqGeq(a: u32, b: u32) {
    Signed(Wrap(a - b)) >= 0
  }

  /** Wrapped numbers compare like the unbounded positions they stand for while those are less than 2^31 apart. */
  lemma SeqCompare(x: int, y: int)
    requires -TWO31 < x - y < TWO31
    ensures SeqLt(Wrap(x), Wrap(y)) <==> x < y
    ensures SeqLeq(Wrap(x), Wrap(y)) <==> x <= y
    ensures SeqGt(Wrap(x), Wrap(y)) <==> x > y
    ensures SeqGeq(Wrap(x), Wrap(y)) <==> x >= y
    ensures Wrap(x) == Wrap(y) <==> x == y
  {
    WrapSub(x, y);
  }

  /** What TCP_SEQ_LT says of any two 32-bit numbers. */
  lemma SeqLtMeans(a: u32, b: u32)
    ensures SeqLt(a, b) <==> 0 < Wrap(b - a) <= TWO31
  {
    WrapSub(b, a);
    WrapSub(a, b);
  }

  /** The difference of two 32-bit numbers. */
  lemma WrapDiff(a: u32, b: u32)
    ensures Wrap(a - b) == if a >= b then a - b else a - b + TWO32
  {
  }

  /** Distances to a number m further on. */
  lemma Further(x: u32, a: u32, b: u32, m: nat)
    requires b == Wrap(a + m) && m < TWO32
    ensures Wrap(x - b) == if Wrap(x - a) >= m then Wrap(x - a) - m else Wrap(x - a) - m + TWO32
  {
    WrapDiff(x, a);
    WrapDiff(x, b);
    assert b == if a + m < TWO32 then a + m else a + m - TWO32;
    hide Wrap;
  }

  lemma SeqLeqMeans(a: u32, b: u32)
    ensures SeqLeq(a, b) <==> Wrap(a - b) == 0 || Wrap(a - b) >= TWO31
  {
    hide Wrap;
  }

  lemma WrapAdd(x: int, n: int)
    ensures Wrap(Wrap(x) + n) == Wrap(x + n)
  {
    ModAdd(x, n);
  }

  lemma WrapSub(x: int, y: int)
    ensures Wrap(Wrap(x) - Wrap(y)) == Wrap(x - y)
    ensures 0 <= x - y < TWO32 ==> Wrap(x - y) == x - y
    ensures -TWO32 <= x - y < 0 ==> Wrap(x - y) == x - y + TWO32
  {
  }

  lemma ModAdd(x: int, n: int)
    ensures (x % TWO32 + n) % TWO32 == (x + n) % TWO32
  {
  }

  lemma Wrap16OfWrap(x: int)
    ensures Wrap16(x) == Wrap16(Wrap(x))
  {
    var q: int := x / TWO32;
    assert x == TWO32 * q + x % TWO32;
    Multiple16(x % TWO32, TWO16 * q);
  }

  lemma Multiple16(x: int, k: int)
    ensures (x + TWO16 * k) % TWO16 == x % TWO16
  {
  }
}
