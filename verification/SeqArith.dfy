/** 32-bit modular arithmetic as the C code performs it, and the wrapping
    comparison of TCP sequence numbers built on it. */
module SeqArith {

  const TWO32: int := 0x1_0000_0000
  const TWO31: int := 0x8000_0000

  type u32 = x: int | 0 <= x < 0x1_0000_0000

  type u16 = x: int | 0 <= x < 0x1_0000

  type i32 = x: int | -0x8000_0000 <= x < 0x8000_0000

  type byte = x: int | 0 <= x < 256

  /** Conversion of any integer to an unsigned 32-bit value. */
  function U32(x: int): u32 {
    x % TWO32
  }

  /** Conversion of any integer to a signed 32-bit value (two's complement). */
  function I32(x: int): i32 {
    (x + TWO31) % TWO32 - TWO31
  }

  /** `seq1` lies before `seq2`: the wrapped difference, read as signed, is negative. */
  predicate Before(seq1: u32, seq2: u32) {
    I32(seq1 - seq2) < 0
  }

  predicate After(seq1: u32, seq2: u32) {
    I32(seq2 - seq1) < 0
  }

  /** On wrapped numbers `Before` is the integer order exactly when the two
      integers are no further apart than a signed 32-bit difference reaches. */
  lemma BeforeExact(x: int, y: int)
    requires -TWO32 < x - y < TWO32
    ensures (Before(U32(x), U32(y)) <==> x < y) <==> -TWO31 <= x - y < TWO31
  {
    var k := x / TWO32 - y / TWO32;
    assert U32(x) - U32(y) == x - y - k * TWO32;
  }

  /** `After` is `Before` with its arguments exchanged, so it fails at the
      opposite end of the range. */
  lemma AfterExact(x: int, y: int)
    requires -TWO32 < x - y < TWO32
    ensures (After(U32(x), U32(y)) <==> x > y) <==> -TWO31 < x - y <= TWO31
  {
    BeforeExact(y, x);
  }

  /** Strictly within half of the sequence space both comparisons are the integer order. */
  lemma HalfSpaceOrder(x: int, y: int)
    requires -TWO31 < x - y < TWO31
    ensures Before(U32(x), U32(y)) <==> x < y
    ensures After(U32(x), U32(y)) <==> x > y
  {
    BeforeExact(x, y);
    AfterExact(x, y);
  }

  /** Exactly half the space apart, each number is both before and after the other. */
  lemma HalfSpaceIsAmbiguous(x: int)
    ensures Before(U32(x), U32(x + TWO31)) && Before(U32(x + TWO31), U32(x))
    ensures After(U32(x), U32(x + TWO31)) && After(U32(x + TWO31), U32(x))
  {
    BeforeExact(x, x + TWO31);
    BeforeExact(x + TWO31, x);
  }

  /** Numbers that differ by a multiple of 2^32 wrap alike. */
  lemma Congruent(x: int, y: int, k: int)
    requires x == y + k * TWO32
    ensures U32(x) == U32(y) && I32(x) == I32(y)
  {
    RemainderUnique(x, y / TWO32 + k, y % TWO32);
    RemainderUnique(x + TWO31, (y + TWO31) / TWO32 + k, (y + TWO31) % TWO32);
  }

  lemma RemainderUnique(x: int, q: int, r: int)
    requires x == q * TWO32 + r && 0 <= r < TWO32
    ensures x % TWO32 == r
  {
  }

  lemma WrapSmall(x: u32)
    ensures U32(x) == x
  {
  }

  lemma SignedSmall(x: i32)
    ensures I32(x) == x
  {
  }

  lemma Quotient(x: int) returns (k: int)
    ensures x == U32(x) + k * TWO32
  {
    k := x / TWO32;
  }

  lemma WrapAdd(x: int, y: int)
    ensures U32(U32(x) + y) == U32(x + y)
    ensures U32(U32(x) - y) == U32(x - y)
  {
    hide U32, I32;
    var k := Quotient(x);
    Congruent(U32(x) + y, x + y, -k);
    Congruent(U32(x) - y, x - y, -k);
  }

  lemma WrapSigned(x: int, y: int)
    ensures U32(I32(x) + y) == U32(x + y)
  {
    var k := (x + TWO31) / TWO32;
    assert I32(x) == x - k * TWO32;
  }

  /** A number is after another when it is at most half the space ahead. */
  lemma AfterMeansAhead(x: int, y: int)
    ensures After(U32(x), U32(y)) <==> 0 < U32(x - y) <= TWO31
    ensures Before(U32(x), U32(y)) <==> TWO31 <= U32(x - y)
  {
    hide U32, I32;
    var kx := Quotient(x);
    var ky := Quotient(y);
    var q := Quotient(x - y);
    var r: int := U32(x - y);
    assert After(U32(x), U32(y)) <==> I32(-r) < 0 by {
      Congruent(U32(y) - U32(x), -r, kx - ky - q);
    }
    assert Before(U32(x), U32(y)) <==> I32(r) < 0 by {
      Congruent(U32(x) - U32(y), r, q + ky - kx);
    }
    SignOf(r);
  }

  lemma SignOf(r: int)
    requires 0 <= r < TWO32
    ensures I32(r) == if r < TWO31 then r else r - TWO32
    ensures I32(-r) == if r <= TWO31 then -r else TWO32 - r
  {
  }

  /** The forward distance from `from` to `to` on the circle of sequence numbers. */
  function Ahead(from: u32, to: u32): u32 {
    U32(to - from)
  }

  /** The circle position a given distance ahead, and back. */
  lemma AheadPlaces(base: int, to: u32)
    ensures to == U32(base + Ahead(U32(base), to))
  {
    hide U32;
    var k := Quotient(base);
    var d := Quotient(to - U32(base));
    Congruent(base + Ahead(U32(base), to), to, k - d);
    WrapSmall(to);
  }
}
