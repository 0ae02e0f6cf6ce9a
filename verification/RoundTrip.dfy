/** Reading what was written, at every schema and in both modes. */
module RoundTrip {
  import opened Seqs
  import opened Words
  import opened Results
  import opened Codec
  import opened FloatOrder
  import Utf8
  import Varint
  import Zigzag

  lemma ReadsBackLength(le: bool, len: u64, rest: seq<byte>)
    ensures Varint.Parse(le, PutLength(le, len) + rest) == Done(len, |PutLength(le, len)|)
  {
    hide Varint.Put, Varint.Parse;
    Varint.RoundTrip(le, len, rest);
  }

  lemma ReadsBackBytes(le: bool, bs: seq<byte>, rest: seq<byte>)
    requires |bs| < TWO_64
    ensures ParseBytes(le, PutLength(le, |bs|) + bs + rest) == Done(bs, |PutLength(le, |bs|) + bs|)
  {
    hide Varint.Parse, PutLength;
    var p := PutLength(le, |bs|);
    Cut(p, bs, rest);
    ReadsBackLength(le, |bs|, bs + rest);
    assert (p + (bs + rest))[|p|..|p| + |bs|] == bs;
  }

  lemma ReadsBackSigned(le: bool, w: Width, i: i64, rest: seq<byte>)
    requires HasType(Signed(w), VSigned(i))
    ensures DecodeScalar(le, Signed(w), Varint.Put(le, Zigzag.Encode(i)) + rest)
         == Done(VSigned(i), |Varint.Put(le, Zigzag.Encode(i))|)
  {
    hide Varint.Put, Varint.Parse, Zigzag.Encode, Zigzag.Decode;
    var u := Zigzag.Encode(i);
    var inp := Varint.Put(le, u) + rest;
    Varint.RoundTrip(le, u, rest);
    Zigzag.DecodeOfEncode(i);
    assert Wrap(i, w) == i;
    assert Varint.Parse(le, inp) == Done(u, |Varint.Put(le, u)|);
  }

  lemma ReadsBackFloat(le: bool, v: Value, rest: seq<byte>)
    ensures v.VFloat32? ==> ParseFloat32(Encode(le, v) + rest) == Done(Reread32(le, v.bits32), 4)
    ensures v.VFloat64? ==> ParseFloat64(Encode(le, v) + rest) == Done(Reread64(le, v.bits64), 8)
  {
    var s := Encode(le, v);
    if v.VFloat32? {
      assert (s + rest)[..4] == s;
    } else if v.VFloat64? {
      assert (s + rest)[..8] == s;
    }
  }

  lemma ReadsBackScalar(le: bool, s: Schema, v: Value, rest: seq<byte>)
    requires Scalar(s) && HasType(s, v)
    ensures DecodeScalar(le, s, Encode(le, v) + rest) == Done(Readback(le, v), |Encode(le, v)|)
  {
    hide Varint.Put, Varint.Parse, Zigzag.Encode, Zigzag.Decode, Wrap, Utf8.Valid;
    hide ParseBytes, PutLength, PutFloat32, PutFloat64, ParseFloat32, ParseFloat64, Reread32, Reread64;
    match s
    case Bool =>
    case Unsigned(w) => Varint.RoundTrip(le, v.n, rest);
    case Signed(w) => ReadsBackSigned(le, w, v.i, rest);
    case Float32 => ReadsBackFloat(le, v, rest);
    case Float64 => ReadsBackFloat(le, v, rest);
    case Bytes => ReadsBackBytes(le, v.bytes, rest);
    case Str => ReadsBackBytes(le, v.text, rest);
    case Unit =>
  }

  /** Reading an encoding, whatever follows it, stops exactly at its end with the value it stands for. */
  lemma {:induction false} ReadsBack(le: bool, s: Schema, v: Value, rest: seq<byte>)
    requires HasType(s, v)
    ensures Decode(le, s, Encode(le, v) + rest) == Done(Readback(le, v), |Encode(le, v)|)
    decreases v, 1
  {
    hide Varint.Put, Varint.Parse, PutLength;
    match s
    case Opt(t) => ReadsBackOpt(le, t, v, rest);
    case Seq(t) => ReadsBackSeq(le, t, v.elems, rest);
    case Map(_, _) => ReadsBackMap(le, s, v.entries, rest);
    case Struct(ts) => ReadsBackFields(le, ts, v.fields, rest);
    case Newtype(t) => ReadsBack(le, t, v.inner, rest);
    case _ => ReadsBackScalar(le, s, v, rest);
  }

  lemma {:induction false} ReadsBackOpt(le: bool, t: Schema, v: Value, rest: seq<byte>)
    requires HasType(Opt(t), v)
    ensures DecodeOpt(le, t, Encode(le, v) + rest) == Done(Readback(le, v), |Encode(le, v)|)
    decreases v, 0
  {
    if v.VSome? {
      Cut(PutBool(true), Encode(le, v.some), rest);
      ReadsBack(le, t, v.some, rest);
    }
  }

  lemma DecodeSeqParts(le: bool, t: Schema, p: seq<byte>, q: seq<byte>, rest: seq<byte>, xs: seq<Value>)
    requires Varint.Parse(le, p + (q + rest)) == Done(|xs|, |p|)
    requires DecodeMany(le, t, |xs|, q + rest) == Done(xs, |q|)
    ensures DecodeSeq(le, t, p + q + rest) == Done(VSeq(xs), |p + q|)
  {
    Cut(p, q, rest);
  }

  lemma {:induction false} ReadsBackSeq(le: bool, t: Schema, xs: seq<Value>, rest: seq<byte>)
    requires |xs| < TWO_64 && forall x :: x in xs ==> HasType(t, x)
    ensures DecodeSeq(le, t, PutLength(le, |xs|) + EncodeMany(le, xs) + rest)
         == Done(VSeq(ReadbackMany(le, xs)), |PutLength(le, |xs|) + EncodeMany(le, xs)|)
    decreases xs, 1
  {
    hide Varint.Parse, PutLength;
    var q := EncodeMany(le, xs);
    ReadsBackLength(le, |xs|, q + rest);
    ReadsBackMany(le, t, xs, rest);
    DecodeSeqParts(le, t, PutLength(le, |xs|), q, rest, ReadbackMany(le, xs));
  }

  /** The elements of a sequence: none, or the first and then the others. */
  lemma DecodeManyParts(le: bool, t: Schema, count: nat, inp: seq<byte>)
    ensures DecodeMany(le, t, 0, inp) == Done([], 0)
    ensures count > 0 ==>
              DecodeMany(le, t, count, inp) ==
              match Decode(le, t, inp)
              case Fail(e) => Fail(e)
              case Done(x, n) =>
                match DecodeMany(le, t, count - 1, inp[n..])
                case Fail(e) => Fail(e)
                case Done(xs, m) => Done([x] + xs, n + m)
  {
    hide Decode;
  }

  lemma DecodeManyCons(le: bool, t: Schema, count: nat, p: seq<byte>, tail: seq<byte>, x: Value, xs: seq<Value>, m: nat)
    requires count > 0 && Decode(le, t, p + tail) == Done(x, |p|) && DecodeMany(le, t, count - 1, tail) == Done(xs, m)
    ensures DecodeMany(le, t, count, p + tail) == Done([x] + xs, |p| + m)
  {
    DecodeManyParts(le, t, count, p + tail);
    hide Decode, DecodeMany;
    assert (p + tail)[|p|..] == tail;
  }

  lemma {:induction false} ReadsBackMany(le: bool, t: Schema, xs: seq<Value>, rest: seq<byte>)
    requires forall x :: x in xs ==> HasType(t, x)
    ensures DecodeMany(le, t, |xs|, EncodeMany(le, xs) + rest)
         == Done(ReadbackMany(le, xs), |EncodeMany(le, xs)|)
    decreases xs, 0
  {
    hide Encode, Decode, DecodeMany, Readback, HasType;
    if xs == [] {
      DecodeManyParts(le, t, 0, EncodeMany(le, xs) + rest);
    } else {
      var p, q := Encode(le, xs[0]), EncodeMany(le, xs[1..]);
      Cut(p, q, rest);
      assert xs[0] in xs;
      ReadsBack(le, t, xs[0], q + rest);
      ReadsBackMany(le, t, xs[1..], rest);
      DecodeManyCons(le, t, |xs|, p, q + rest, Readback(le, xs[0]), ReadbackMany(le, xs[1..]), |q|);
    }
  }

  lemma DecodeMapParts(le: bool, s: Schema, p: seq<byte>, q: seq<byte>, rest: seq<byte>, es: seq<Entry>)
    requires s.Map?
    requires Varint.Parse(le, p + (q + rest)) == Done(|es|, |p|)
    requires DecodeEntries(le, s, |es|, q + rest) == Done(es, |q|)
    ensures DecodeMap(le, s, p + q + rest) == Done(VMap(es), |p + q|)
  {
    Cut(p, q, rest);
  }

  lemma {:induction false} ReadsBackMap(le: bool, s: Schema, es: seq<Entry>, rest: seq<byte>)
    requires s.Map? && |es| < TWO_64
    requires forall e :: e in es ==> HasType(s.key, e.key) && HasType(s.val, e.val)
    ensures DecodeMap(le, s, PutLength(le, |es|) + EncodeEntries(le, es) + rest)
         == Done(VMap(ReadbackEntries(le, es)), |PutLength(le, |es|) + EncodeEntries(le, es)|)
    decreases es, 1
  {
    hide Varint.Parse, PutLength;
    var q := EncodeEntries(le, es);
    ReadsBackLength(le, |es|, q + rest);
    ReadsBackEntries(le, s, es, rest);
    DecodeMapParts(le, s, PutLength(le, |es|), q, rest, ReadbackEntries(le, es));
  }

  lemma {:induction false} ReadsBackEntries(le: bool, s: Schema, es: seq<Entry>, rest: seq<byte>)
    requires s.Map? && forall e :: e in es ==> HasType(s.key, e.key) && HasType(s.val, e.val)
    ensures DecodeEntries(le, s, |es|, EncodeEntries(le, es) + rest)
         == Done(ReadbackEntries(le, es), |EncodeEntries(le, es)|)
    decreases es, 0
  {
    hide EncodeEntry, DecodeEntry, ReadbackEntry, HasType;
    if es != [] {
      var p, q := EncodeEntry(le, es[0]), EncodeEntries(le, es[1..]);
      Cut(p, q, rest);
      assert es[0] in es;
      ReadsBackEntry(le, s, es[0], q + rest);
      ReadsBackEntries(le, s, es[1..], rest);
    }
  }

  lemma {:induction false} ReadsBackEntry(le: bool, s: Schema, entry: Entry, rest: seq<byte>)
    requires s.Map? && HasType(s.key, entry.key) && HasType(s.val, entry.val)
    ensures DecodeEntry(le, s, EncodeEntry(le, entry) + rest)
         == Done(ReadbackEntry(le, entry), |EncodeEntry(le, entry)|)
    decreases entry, 0
  {
    hide Encode, Decode, Readback, HasType;
    match entry
    case Entry(k, x) =>
      Cut(Encode(le, k), Encode(le, x), rest);
      ReadsBack(le, s.key, k, Encode(le, x) + rest);
      ReadsBack(le, s.val, x, rest);
  }

  lemma {:induction false} ReadsBackFields(le: bool, ts: seq<Schema>, xs: seq<Value>, rest: seq<byte>)
    requires |ts| == |xs| && forall i :: 0 <= i < |ts| ==> HasType(ts[i], xs[i])
    ensures DecodeFields(le, ts, EncodeMany(le, xs) + rest)
         == Done(ReadbackMany(le, xs), |EncodeMany(le, xs)|)
    decreases xs, 0
  {
    hide Encode, Decode, Readback, HasType;
    if xs != [] {
      var p, q := Encode(le, xs[0]), EncodeMany(le, xs[1..]);
      Cut(p, q, rest);
      ReadsBack(le, ts[0], xs[0], q + rest);
      ReadsBackFields(le, ts[1..], xs[1..], rest);
    }
  }

  /** The round trip holds for exactly the float-safe values: all of them in big-endian mode. */
  lemma RoundTrips(le: bool, s: Schema, v: Value)
    requires HasType(s, v)
    ensures FromBytes(le, s, ToBytes(le, v)) == Ok(v) <==> FloatsSafe(le, v)
  {
    ReadsBack(le, s, v, []);
    assert Encode(le, v) + [] == Encode(le, v);
    ReadbackSame(le, v);
  }

  /** Encodings at one schema are prefix-free, hence injective, in either mode. */
  lemma PrefixFree(le: bool, s: Schema, v: Value, w: Value)
    requires HasType(s, v) && HasType(s, w)
    requires Encode(le, v) <= Encode(le, w)
    ensures v == w
  {
    var rest := Encode(le, w)[|Encode(le, v)|..];
    assert Encode(le, v) + rest == Encode(le, w) + [];
    ReadsBack(le, s, v, rest);
    ReadsBack(le, s, w, []);
    ReadbackTwice(le, v);
    ReadbackTwice(le, w);
  }

  /** A float that is not a palindrome: 1.0 comes back as another number in little-endian mode. */
  lemma LittleEndianFloatLost()
    ensures FromBytes(true, Float32, ToBytes(true, VFloat32(0x3F80_0000))) == Ok(VFloat32(0x0000_803F))
  {
    PowersOf256();
    var s := ToBytes(true, VFloat32(0x3F80_0000));
    assert s == [0x00, 0x00, 0x80, 0x3F] by {
      assert LittleEndian(0x3F, 1) == [0x3F];
      assert LittleEndian(0x3F80, 2) == [0x80, 0x3F];
      assert LittleEndian(0x3F8000, 3) == [0x00, 0x80, 0x3F];
    }
    assert s[..4] == s;
    assert FromBigEndian(s[..1]) == 0;
    assert FromBigEndian(s[..2]) == 0 by { assert s[..2][..1] == s[..1]; }
    assert FromBigEndian(s[..3]) == 0x80 by { assert s[..3][..2] == s[..2]; }
  }
}
