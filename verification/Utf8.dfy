/** Well-formed UTF-8 byte strings, after section 4 of RFC 3629. */
module Utf8 {
  import opened Words

  predicate Tail(s: seq<byte>, from: nat, to: nat)
  {
    to <= |s| && forall i :: from <= i < to ==> 0x80 <= s[i] <= 0xBF
  }

  /** Length in bytes of the character at the front of s, 0 if there is none. */
  function CharLength(s: seq<byte>): (n: nat)
    ensures n <= |s|
  {
    if s == [] then 0
    else if s[0] <= 0x7F then 1
    else if 0xC2 <= s[0] <= 0xDF && Tail(s, 1, 2) then 2
    else if s[0] == 0xE0 && Tail(s, 1, 3) && s[1] >= 0xA0 then 3
    else if s[0] == 0xED && Tail(s, 1, 3) && s[1] <= 0x9F then 3
    else if 0xE1 <= s[0] <= 0xEF && s[0] != 0xED && Tail(s, 1, 3) then 3
    else if s[0] == 0xF0 && Tail(s, 1, 4) && s[1] >= 0x90 then 4
    else if 0xF1 <= s[0] <= 0xF3 && Tail(s, 1, 4) then 4
    else if s[0] == 0xF4 && Tail(s, 1, 4) && s[1] <= 0x8F then 4
    else 0
  }

  predicate Valid(s: seq<byte>)
  {
    s == [] || (CharLength(s) > 0 && Valid(s[CharLength(s)..]))
  }

  // ---------------------------------------------------------------- what the strings are

  /** A Unicode scalar value: no surrogates. */
  type CodePoint = n: int | 0 <= n <= 0x10_FFFF && !(0xD800 <= n <= 0xDFFF)

  /** The encoding of one code point: its bits in groups of six from the low end, under the lead byte's marker. */
  function EncodeChar(c: CodePoint): (s: seq<byte>)
    ensures 1 <= |s| <= 4
  {
    if c <= 0x7F then [c]
    else if c <= 0x7FF then [0xC0 + c / 0x40, 0x80 + c % 0x40]
    else if c <= 0xFFFF then [0xE0 + c / 0x40 / 0x40, 0x80 + c / 0x40 % 0x40, 0x80 + c % 0x40]
    else [0xF0 + c / 0x40 / 0x40 / 0x40, 0x80 + c / 0x40 / 0x40 % 0x40, 0x80 + c / 0x40 % 0x40, 0x80 + c % 0x40]
  }

  function EncodeAll(cs: seq<CodePoint>): (s: seq<byte>)
  {
    if cs == [] then [] else EncodeChar(cs[0]) + EncodeAll(cs[1..])
  }

  lemma EncodedLength(c: CodePoint, rest: seq<byte>)
    ensures CharLength(EncodeChar(c) + rest) == |EncodeChar(c)|
  {
    var s := EncodeChar(c) + rest;
    if c <= 0x7F {
    } else if c <= 0x7FF {
      assert Tail(s, 1, 2);
    } else if c <= 0xFFFF {
      assert Tail(s, 1, 3);
      if s[0] == 0xE0 {
        assert c / 0x40 >= 0x20;
      }
      if s[0] == 0xED {
        assert c / 0x40 % 0x40 <= 0x1F;
      }
    } else {
      assert Tail(s, 1, 4);
      if s[0] == 0xF0 {
        assert c / 0x40 / 0x40 >= 0x10;
      }
      if s[0] == 0xF4 {
        assert c / 0x40 / 0x40 % 0x40 <= 0xF;
      }
    }
  }

  /** The payload bits of a byte under its marker. */
  function Bits(b: byte, marker: int): (n: int)
  {
    b - marker
  }

  /** The code point at the front of s. */
  function DecodeChar(s: seq<byte>): (c: CodePoint)
    requires CharLength(s) > 0
  {
    match CharLength(s)
    case 1 => s[0]
    case 2 => 0x40 * Bits(s[0], 0xC0) + Bits(s[1], 0x80)
    case 3 => 0x1000 * Bits(s[0], 0xE0) + 0x40 * Bits(s[1], 0x80) + Bits(s[2], 0x80)
    case _ => 0x4_0000 * Bits(s[0], 0xF0) + 0x1000 * Bits(s[1], 0x80) + 0x40 * Bits(s[2], 0x80) + Bits(s[3], 0x80)
  }

  lemma Group(q: nat, r: nat)
    requires r < 0x40
    ensures (0x40 * q + r) / 0x40 == q && (0x40 * q + r) % 0x40 == r
  {
  }

  lemma ThreeGroups(a: nat, b: nat, d: nat)
    requires b < 0x40 && d < 0x40
    ensures var c := 0x1000 * a + 0x40 * b + d;
            c / 0x40 / 0x40 == a && c / 0x40 % 0x40 == b && c % 0x40 == d
  {
    Group(0x40 * a + b, d);
    Group(a, b);
  }

  lemma FourGroups(a: nat, b: nat, d: nat, e: nat)
    requires b < 0x40 && d < 0x40 && e < 0x40
    ensures var c := 0x4_0000 * a + 0x1000 * b + 0x40 * d + e;
            c / 0x40 / 0x40 / 0x40 == a && c / 0x40 / 0x40 % 0x40 == b && c / 0x40 % 0x40 == d && c % 0x40 == e
  {
    Group(0x1000 * a + 0x40 * b + d, e);
    Group(0x40 * a + b, d);
    Group(a, b);
  }

  lemma DecodedThree(s: seq<byte>)
    requires CharLength(s) == 3
    ensures EncodeChar(DecodeChar(s)) == s[..3]
  {
    ThreeGroups(Bits(s[0], 0xE0), Bits(s[1], 0x80), Bits(s[2], 0x80));
    assert 0x7FF < DecodeChar(s) <= 0xFFFF;
  }

  lemma DecodedFour(s: seq<byte>)
    requires CharLength(s) == 4
    ensures EncodeChar(DecodeChar(s)) == s[..4]
  {
    FourGroups(Bits(s[0], 0xF0), Bits(s[1], 0x80), Bits(s[2], 0x80), Bits(s[3], 0x80));
    assert 0xFFFF < DecodeChar(s);
  }

  lemma DecodedShort(s: seq<byte>)
    requires 1 <= CharLength(s) <= 2
    ensures EncodeChar(DecodeChar(s)) == s[..CharLength(s)]
  {
  }

  lemma DecodedEncodes(s: seq<byte>)
    requires CharLength(s) > 0
    ensures EncodeChar(DecodeChar(s)) == s[..CharLength(s)]
  {
    LengthAtMostFour(s);
    hide CharLength, DecodeChar, EncodeChar;
    match CharLength(s)
    case 3 => DecodedThree(s);
    case 4 => DecodedFour(s);
    case _ => DecodedShort(s);
  }

  lemma LengthAtMostFour(s: seq<byte>)
    ensures CharLength(s) <= 4
  {
  }

  /** The valid strings are exactly the encodings of sequences of code points. */
  lemma {:induction false} ValidIff(s: seq<byte>)
    ensures Valid(s) <==> exists cs :: s == EncodeAll(cs)
  {
    if Valid(s) {
      var cs := Decoded(s);
    }
    if cs :| s == EncodeAll(cs) {
      EncodedValid(cs);
    }
  }

  lemma {:induction false} Decoded(s: seq<byte>) returns (cs: seq<CodePoint>)
    requires Valid(s)
    ensures s == EncodeAll(cs)
  {
    if s == [] {
      cs := [];
    } else {
      var n := CharLength(s);
      var rest := Decoded(s[n..]);
      DecodedEncodes(s);
      cs := [DecodeChar(s)] + rest;
      assert cs[1..] == rest;
      assert s == s[..n] + s[n..];
    }
  }

  lemma {:induction false} EncodedValid(cs: seq<CodePoint>)
    ensures Valid(EncodeAll(cs))
  {
    if cs != [] {
      EncodedLength(cs[0], EncodeAll(cs[1..]));
      EncodedValid(cs[1..]);
      assert EncodeAll(cs)[|EncodeChar(cs[0])|..] == EncodeAll(cs[1..]);
    }
  }

  /** One character of each length. */
  lemma Examples()
    ensures EncodeAll([0x48, 0xE9, 0x4F60, 0x1F600]) == [0x48, 0xC3, 0xA9, 0xE4, 0xBD, 0xA0, 0xF0, 0x9F, 0x98, 0x80]
  {
    var cs: seq<CodePoint> := [0x48, 0xE9, 0x4F60, 0x1F600];
    assert cs[1..][1..][1..][1..] == [];
    assert EncodeAll(cs[1..][1..][1..]) == EncodeChar(0x1F600) + [];
    assert EncodeAll(cs[1..][1..]) == EncodeChar(0x4F60) + EncodeAll(cs[1..][1..][1..]);
    assert EncodeAll(cs[1..]) == EncodeChar(0xE9) + EncodeAll(cs[1..][1..]);
  }
}
