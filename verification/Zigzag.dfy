/** The zigzag map between signed and unsigned 64-bit integers, at the level of shifts and xor. */
module Zigzag {
  import opened Words

  /** Two's-complement reinterpretation, `as u64` and `as i64`. */
  function AsU64(i: i64): (u: u64)
  {
    if i < 0 then i + TWO_64 else i
  }

  function AsI64(u: u64): (i: i64)
  {
    if u >= TWO_63 then u - TWO_64 else u
  }

  /** Bitwise exclusive or of two words, one bit at a time from the low end. */
  function Xor(a: nat, b: nat): (r: nat)
    decreases a + b
  {
    if a == 0 && b == 0 then 0
    else (if a % 2 != b % 2 then 1 else 0) + 2 * Xor(a / 2, b / 2)
  }

  function Pow2(k: nat): (p: nat)
    ensures p >= 1
  {
    if k == 0 then 1 else 2 * Pow2(k - 1)
  }

  lemma Pow2Four(k: nat)
    ensures Pow2(k + 4) == 16 * Pow2(k)
  {
    assert Pow2(k + 2) == 4 * Pow2(k);
    assert Pow2(k + 4) == 4 * Pow2(k + 2);
  }

  lemma Pow2Sixteen(k: nat)
    ensures Pow2(k + 16) == TWO_16 * Pow2(k)
  {
    Pow2Four(k);
    Pow2Four(k + 4);
    Pow2Four(k + 8);
    Pow2Four(k + 12);
  }

  lemma Pow2Word(k: nat)
    requires k == 64
    ensures Pow2(k) == TWO_64
  {
    Pow2Sixteen(k - 64);
    Pow2Sixteen(k - 48);
    Pow2Sixteen(k - 32);
    Pow2Sixteen(k - 16);
  }

  /** `val << 1` on i64: the top bit is lost. */
  function ShlOne(i: i64): (r: i64)
  {
    AsI64((2 * AsU64(i)) % TWO_64)
  }

  /** `val >> 63` on i64: arithmetic, so the sign fills every bit. */
  function Sar63(i: i64): (r: i64)
  {
    i / TWO_63
  }

  function Xor64(a: i64, b: i64): (r: i64)
  {
    XorFits(AsU64(a), AsU64(b));
    AsI64(Xor(AsU64(a), AsU64(b)))
  }

  function Encode(val: i64): (r: u64)
  {
    AsU64(Xor64(ShlOne(val), Sar63(val)))
  }

  /** `(val >> 1) as i64 ^ -((val as i64) & 1)`; the shift on u64 is logical. */
  function Decode(val: u64): (r: i64)
  {
    Xor64(AsI64(val / 2), -(val % 2))
  }

  lemma {:induction false} XorZero(a: nat)
    ensures Xor(a, 0) == a
  {
    if a != 0 {
      XorZero(a / 2);
    }
  }

  lemma {:induction false} XorOnes(k: nat, a: nat)
    requires a < Pow2(k)
    ensures Xor(a, Pow2(k) - 1) == Pow2(k) - 1 - a
  {
    if k != 0 {
      assert (Pow2(k) - 1) / 2 == Pow2(k - 1) - 1;
      XorOnes(k - 1, a / 2);
    }
  }

  lemma {:induction false} XorBound(k: nat, a: nat, b: nat)
    requires a < Pow2(k) && b < Pow2(k)
    ensures Xor(a, b) < Pow2(k)
  {
    if k != 0 {
      XorBound(k - 1, a / 2, b / 2);
    }
  }

  lemma XorFits(a: u64, b: u64)
    ensures Xor(a, b) < TWO_64
  {
    // A variable 64: with the literal the verifier would unfold Pow2 all the way down.
    var k: nat :| k == 64;
    Pow2Word(k);
    XorBound(k, a, b);
  }

  lemma XorAllOnes(a: u64)
    ensures Xor(a, TWO_64 - 1) == TWO_64 - 1 - a
  {
    // A variable 64, as in XorFits.
    var k: nat :| k == 64;
    Pow2Word(k);
    XorOnes(k, a);
  }

  /** The arithmetic the bit operations amount to. */
  function Zig(v: i64): (u: u64)
  {
    if v >= 0 then 2 * v else -2 * v - 1
  }

  function Zag(u: u64): (v: i64)
  {
    if u % 2 == 0 then u / 2 else -(u / 2) - 1
  }

  lemma ZagOfZig(v: i64)
    ensures Zag(Zig(v)) == v
  {
  }

  lemma ZigOfZag(u: u64)
    ensures Zig(Zag(u)) == u
  {
  }

  lemma ShlOneMeaning(v: i64)
    ensures AsU64(ShlOne(v)) == if v >= 0 then 2 * v else 2 * v + TWO_64
  {
    var d := 2 * AsU64(v);
    if v >= 0 {
      assert d % TWO_64 == d;
    } else {
      assert d == TWO_64 + (2 * v + TWO_64);
      assert d % TWO_64 == 2 * v + TWO_64;
    }
  }

  lemma EncodeMeaning(v: i64)
    ensures Encode(v) == Zig(v)
  {
    var w := AsU64(ShlOne(v));
    ShlOneMeaning(v);
    if v >= 0 {
      assert AsU64(Sar63(v)) == 0;
      XorZero(w);
    } else {
      assert AsU64(Sar63(v)) == TWO_64 - 1;
      XorAllOnes(w);
    }
  }

  lemma DecodeMeaning(u: u64)
    ensures Decode(u) == Zag(u)
  {
    var w := u / 2;
    assert AsU64(AsI64(w)) == w;
    if u % 2 == 0 {
      XorZero(w);
    } else {
      assert AsU64(-(u % 2)) == TWO_64 - 1;
      XorAllOnes(w);
    }
  }

  /** Encode and Decode are mutually inverse, so both are bijections between all i64 and all u64. */
  lemma DecodeOfEncode(v: i64)
    ensures Decode(Encode(v)) == v
  {
    ZagOfZig(v);
    EncodeMeaning(v);
    DecodeMeaning(Zig(v));
  }

  lemma EncodeOfDecode(u: u64)
    ensures Encode(Decode(u)) == u
  {
    ZigOfZag(u);
    DecodeMeaning(u);
    EncodeMeaning(Zag(u));
  }

  /** The w-bit signed range maps exactly onto [0, 2^w), for every width up to 64. */
  lemma WidthRange(w: nat, v: i64, u: u64)
    requires 1 <= w <= 64
    ensures 0 - Pow2(w - 1) <= v < Pow2(w - 1) <==> Encode(v) < Pow2(w)
    ensures u < Pow2(w) <==> 0 - Pow2(w - 1) <= Decode(u) < Pow2(w - 1)
  {
    EncodeMeaning(v);
    DecodeMeaning(u);
  }
}
