/**
 What the bytes on the wire are, apart from the round trip: concrete encodings of every kind of value,
 and what the reader accepts of booleans, options, integers and strings that no writer of this
 codec produced.
 */
module WireFormat {
  import opened Words
  import opened Results
  import opened Codec
  import Utf8
  import Varint
  import Zigzag

  lemma ShortNumber(le: bool, n: u64)
    requires n <= 0xFC
    ensures Varint.Put(le, n) == [n] && PutLength(le, n) == [n]
  {
    hide PutWord;
  }

  lemma ScalarExamples(le: bool)
    ensures ToBytes(le, VBool(true)) == [1] && ToBytes(le, VBool(false)) == [0]
    ensures ToBytes(le, VUnit) == []
    ensures ToBytes(le, VUnsigned(200)) == [200]
    ensures ToBytes(le, VSigned(1)) == [2] && ToBytes(le, VSigned(-1)) == [1] && ToBytes(le, VSigned(-100)) == [199]
  {
    hide Varint.Put, Zigzag.Encode, PutLength;
    ShortNumber(le, 200);
    Zigzag.EncodeMeaning(1);
    Zigzag.EncodeMeaning(-1);
    Zigzag.EncodeMeaning(-100);
    ShortNumber(le, 2);
    ShortNumber(le, 1);
    ShortNumber(le, 199);
  }

  lemma StringExamples(le: bool)
    ensures ToBytes(le, VBytes([7, 8, 9])) == [3, 7, 8, 9]
    ensures ToBytes(le, VStr([0xE4, 0xBD, 0xA0])) == [3, 0xE4, 0xBD, 0xA0]
  {
    hide Varint.Put, PutLength;
    ShortNumber(le, 3);
  }

  lemma FloatExamples()
    ensures ToBytes(false, VFloat32(0x3F80_0001)) == [0x3F, 0x80, 0x00, 0x01]
    ensures ToBytes(true, VFloat32(0x3F80_0001)) == [0x01, 0x00, 0x80, 0x3F]
  {
    PowersOf256();
    assert BigEndian(0x3F80_0001, 4) == [0x3F, 0x80, 0x00, 0x01];
    assert LittleEndian(0x3F80_0001, 4) == [0x01, 0x00, 0x80, 0x3F] by {
      assert LittleEndian(0x3F, 1) == [0x3F];
      assert LittleEndian(0x3F80, 2) == [0x80, 0x3F];
      assert LittleEndian(0x3F8000, 3) == [0x00, 0x80, 0x3F];
    }
  }

  lemma OptionExamples(le: bool)
    ensures ToBytes(le, VNone) == [0] && ToBytes(le, VSome(VUnsigned(5))) == [1, 5]
    ensures ToBytes(le, VNewtype(VUnsigned(5))) == [5]
  {
    hide Varint.Put, PutLength;
    ShortNumber(le, 5);
  }

  lemma {:induction false} CompositeExamples(le: bool)
    ensures ToBytes(le, VSeq([VUnsigned(5), VUnsigned(6)])) == [2, 5, 6]
    ensures ToBytes(le, VStruct([VUnsigned(5), VUnsigned(6)])) == [5, 6]
    ensures ToBytes(le, VMap([Entry(VUnsigned(5), VUnsigned(6))])) == [1, 5, 6]
  {
    hide Varint.Put, PutLength, EncodeMany, EncodeEntries;
    ShortNumber(le, 1);
    ShortNumber(le, 2);
    TwoElements(le);
    OneEntry(le);
  }

  lemma {:induction false} TwoElements(le: bool)
    ensures EncodeMany(le, [VUnsigned(5), VUnsigned(6)]) == [5, 6]
  {
    hide Varint.Put;
    ShortNumber(le, 5);
    ShortNumber(le, 6);
    var xs := [VUnsigned(5), VUnsigned(6)];
    assert xs[1..] == [VUnsigned(6)] && xs[1..][1..] == [];
    assert EncodeMany(le, xs[1..]) == [6] + EncodeMany(le, xs[1..][1..]);
  }

  lemma {:induction false} OneEntry(le: bool)
    ensures EncodeEntries(le, [Entry(VUnsigned(5), VUnsigned(6))]) == [5, 6]
  {
    hide Varint.Put;
    ShortNumber(le, 5);
    ShortNumber(le, 6);
    var es := [Entry(VUnsigned(5), VUnsigned(6))];
    assert es[1..] == [];
    assert EncodeEntry(le, es[0]) == [5] + [6];
  }

  /** Any non-zero byte is true; nothing at all is an end of file. */
  lemma BoolLanguage(le: bool, b: byte, rest: seq<byte>)
    ensures Decode(le, Bool, [b] + rest) == Done(VBool(b != 0), 1)
    ensures Decode(le, Bool, []) == Fail(Eof)
  {
  }

  /** The presence byte of an option is read as a boolean. */
  lemma OptionLanguage(le: bool, t: Schema, b: byte, rest: seq<byte>)
    ensures b == 0 ==> Decode(le, Opt(t), [b] + rest) == Done(VNone, 1)
    ensures b != 0 ==>
              Decode(le, Opt(t), [b] + rest) ==
              match Decode(le, t, rest)
              case Fail(e) => Fail(e)
              case Done(x, n) => Done(VSome(x), 1 + n)
  {
    hide Decode;
    DecodeOfOpt(le, t, [b] + rest);
    assert ([b] + rest)[1..] == rest;
  }

  lemma DecodeOfOpt(le: bool, t: Schema, inp: seq<byte>)
    ensures Decode(le, Opt(t), inp) == DecodeOpt(le, t, inp)
  {
  }

  /** q times the number of values of the width. */
  function Turns(q: int, w: Width): (n: int)
  {
    q * w.Card()
  }

  /** m is n up to a multiple of the number of values of the width. */
  ghost predicate Congruent(n: int, m: int, w: Width)
  {
    exists q :: n == m + Turns(q, w)
  }

  /** A number too wide for its type is cut to the low bits, not refused and not clamped. */
  lemma NarrowingCasts(le: bool, w: Width, inp: seq<byte>)
    requires Varint.Parse(le, inp).Done?
    ensures var u := Varint.Parse(le, inp).value;
            var Done(v, n) := Decode(le, Unsigned(w), inp);
            && n == Varint.Parse(le, inp).used
            && v.VUnsigned? && v.n < w.Card() && Congruent(u, v.n, w)
    ensures var u := Varint.Parse(le, inp).value;
            var Done(v, n) := Decode(le, Signed(w), inp);
            && n == Varint.Parse(le, inp).used
            && v.VSigned? && -(w.Card() / 2) <= v.i < w.Card() / 2 && Congruent(Zigzag.Zag(u), v.i, w)
  {
    hide Varint.Parse, Zigzag.Decode;
    var u := Varint.Parse(le, inp).value;
    Zigzag.DecodeMeaning(u);
    CutUnsigned(u, w);
    CutSigned(Zigzag.Zag(u), w);
  }

  lemma DivideBy(n: int, c: int)
    requires c > 0
    ensures n == (n / c) * c + n % c && 0 <= n % c < c
  {
  }

  lemma CutUnsigned(n: u64, w: Width)
    ensures n % w.Card() < w.Card() && Congruent(n, n % w.Card(), w)
  {
    DivideBy(n, w.Card());
    assert n == n % w.Card() + Turns(n / w.Card(), w);
  }

  lemma CutSigned(i: i64, w: Width)
    ensures -(w.Card() / 2) <= Wrap(i, w) < w.Card() / 2 && Congruent(i, Wrap(i, w), w)
  {
    var h, c := w.Card() / 2, w.Card();
    HalfWidth(w);
    DivideBy(i + h, c);
    hide Width.Card;
    assert i == Wrap(i, w) + Turns((i + h) / c, w);
  }

  lemma HalfWidth(w: Width)
    ensures w.Card() > 0 && w.Card() == 2 * (w.Card() / 2)
  {
  }

  /** Written text: a length, the encodings of code points, and whatever follows. */
  ghost predicate TextFrom(le: bool, inp: seq<byte>, cs: seq<Utf8.CodePoint>, n: nat, m: nat)
  {
    && n <= m <= |inp|
    && inp[n..m] == Utf8.EncodeAll(cs)
    && m - n < TWO_64
    && Varint.Accepts(le, inp[..n], m - n)
  }

  /**
   Strings are accepted exactly if they are the encodings of code points after their length, and then
   kept as they are.
   */
  lemma StringLanguage(le: bool, inp: seq<byte>)
    ensures ParseString(le, inp).Done? <==> exists cs, n, m :: TextFrom(le, inp, cs, n, m)
    ensures forall cs, n, m :: TextFrom(le, inp, cs, n, m) ==> ParseString(le, inp) == Done(Utf8.EncodeAll(cs), m)
    ensures Varint.Parse(le, inp).Done? && ParseBytes(le, inp).Done? && !ParseString(le, inp).Done? ==>
              ParseString(le, inp) == Fail(Format)
  {
    if ParseString(le, inp).Done? {
      ParsedText(le, inp);
    }
    forall cs, n, m | TextFrom(le, inp, cs, n, m)
      ensures ParseString(le, inp) == Done(Utf8.EncodeAll(cs), m)
    {
      TextParses(le, inp, cs, n, m);
    }
  }

  lemma ParsedText(le: bool, inp: seq<byte>)
    requires ParseString(le, inp).Done?
    ensures exists cs, n, m :: TextFrom(le, inp, cs, n, m)
  {
    hide Varint.Parse;
    var Done(len, n) := Varint.Parse(le, inp);
    var cs := Utf8.Decoded(inp[n..n + len]);
    Varint.Local(le, inp, inp[..n]);
    assert TextFrom(le, inp, cs, n, n + len);
  }

  lemma TextParses(le: bool, inp: seq<byte>, cs: seq<Utf8.CodePoint>, n: nat, m: nat)
    requires TextFrom(le, inp, cs, n, m)
    ensures ParseString(le, inp) == Done(Utf8.EncodeAll(cs), m)
  {
    hide Varint.Parse;
    Varint.Local(le, inp[..n], inp);
    Utf8.EncodedValid(cs);
  }
}
