/**
 A read is settled by the bytes it uses. This holds for every input, not only for encodings, and it
 is what makes encodings self-delimiting.
 */
module Locality {
  import opened Words
  import opened Results
  import opened Codec
  import opened RoundTrip
  import Utf8
  import Varint
  import Zigzag

  /** What b reads as, once `a` has been read with result r and b begins like a. */
  function Settled<T>(r: Parsed<T>, b: seq<byte>): (q: Parsed<T>)
    requires r.Done?
  {
    if |b| >= r.used then r else Fail(Eof)
  }

  lemma {:induction false} DecodeLocal(le: bool, s: Schema, a: seq<byte>, b: seq<byte>)
    requires Decode(le, s, a).Done? && Varint.Agree(a, b, Decode(le, s, a).used)
    ensures Decode(le, s, b) == Settled(Decode(le, s, a), b)
    decreases s, 3, 0
  {
    hide DecodeOpt, DecodeSeq, DecodeMap, DecodeFields, DecodeScalar, Varint.Agree;
    match s
    case Opt(t) => OptLocal(le, t, a, b);
    case Seq(t) => SeqLocal(le, t, a, b);
    case Map(_, _) => MapLocal(le, s, a, b);
    case Struct(ts) => FieldsLocal(le, ts, a, b);
    case Newtype(t) => DecodeLocal(le, t, a, b);
    case _ => ScalarLocal(le, s, a, b);
  }

  lemma BytesLocal(le: bool, a: seq<byte>, b: seq<byte>)
    requires ParseBytes(le, a).Done? && Varint.Agree(a, b, ParseBytes(le, a).used)
    ensures ParseBytes(le, b) == Settled(ParseBytes(le, a), b)
  {
    hide Varint.Parse;
    Varint.Local(le, a, b);
    var Done(len, n) := Varint.Parse(le, a);
    if |b| >= n + len {
      assert b[n..n + len] == a[n..n + len];
    }
  }

  lemma ScalarLocal(le: bool, s: Schema, a: seq<byte>, b: seq<byte>)
    requires Scalar(s) && DecodeScalar(le, s, a).Done?
    requires Varint.Agree(a, b, DecodeScalar(le, s, a).used)
    ensures DecodeScalar(le, s, b) == Settled(DecodeScalar(le, s, a), b)
  {
    hide Varint.Parse, ParseBytes, Zigzag.Decode, Wrap, Utf8.Valid;
    match s
    case Unsigned(_) => Varint.Local(le, a, b);
    case Signed(_) => Varint.Local(le, a, b);
    case Float32 => if |b| >= 4 { assert b[..4] == a[..4]; }
    case Float64 => if |b| >= 8 { assert b[..8] == a[..8]; }
    case Bytes => BytesLocal(le, a, b);
    case Str => BytesLocal(le, a, b);
    case _ =>
  }

  lemma {:induction false} OptLocal(le: bool, t: Schema, a: seq<byte>, b: seq<byte>)
    requires DecodeOpt(le, t, a).Done? && Varint.Agree(a, b, DecodeOpt(le, t, a).used)
    ensures DecodeOpt(le, t, b) == Settled(DecodeOpt(le, t, a), b)
    decreases t, 4, 0
  {
    hide Decode;
    if b != [] && a[0] != 0 {
      DecodeLocal(le, t, a[1..], b[1..]);
    }
  }

  lemma {:induction false} SeqLocal(le: bool, t: Schema, a: seq<byte>, b: seq<byte>)
    requires DecodeSeq(le, t, a).Done? && Varint.Agree(a, b, DecodeSeq(le, t, a).used)
    ensures DecodeSeq(le, t, b) == Settled(DecodeSeq(le, t, a), b)
    decreases t, 5, 0
  {
    hide Varint.Parse, Varint.Agree, DecodeMany;
    var Done(count, n) := Varint.Parse(le, a);
    Varint.AgreeSplit(a, b, n, DecodeMany(le, t, count, a[n..]).used);
    Varint.Local(le, a, b);
    if |b| >= n {
      ManyLocal(le, t, count, a[n..], b[n..]);
    }
  }

  /** A sequence is settled when its first element and the others are. */
  lemma ManySettles(le: bool, t: Schema, count: nat, a: seq<byte>, b: seq<byte>, n: nat)
    requires count > 0 && Decode(le, t, a).Done? && Decode(le, t, a).used == n
    requires DecodeMany(le, t, count - 1, a[n..]).Done?
    requires Decode(le, t, b) == Settled(Decode(le, t, a), b)
    requires |b| >= n ==> DecodeMany(le, t, count - 1, b[n..]) == Settled(DecodeMany(le, t, count - 1, a[n..]), b[n..])
    ensures DecodeMany(le, t, count, a).Done?
    ensures DecodeMany(le, t, count, b) == Settled(DecodeMany(le, t, count, a), b)
  {
    DecodeManyParts(le, t, count, a);
    DecodeManyParts(le, t, count, b);
    hide Decode, DecodeMany;
  }

  lemma {:induction false} ManyLocal(le: bool, t: Schema, count: nat, a: seq<byte>, b: seq<byte>)
    requires DecodeMany(le, t, count, a).Done? && Varint.Agree(a, b, DecodeMany(le, t, count, a).used)
    ensures DecodeMany(le, t, count, b) == Settled(DecodeMany(le, t, count, a), b)
    decreases t, 4, count
  {
    hide Decode, DecodeMany, Varint.Agree;
    DecodeManyParts(le, t, count, a);
    if count == 0 {
      DecodeManyParts(le, t, count, b);
    } else {
      var n := Decode(le, t, a).used;
      Varint.AgreeSplit(a, b, n, DecodeMany(le, t, count - 1, a[n..]).used);
      DecodeLocal(le, t, a, b);
      if |b| >= n {
        ManyLocal(le, t, count - 1, a[n..], b[n..]);
      }
      ManySettles(le, t, count, a, b, n);
    }
  }

  lemma {:induction false} MapLocal(le: bool, s: Schema, a: seq<byte>, b: seq<byte>)
    requires s.Map? && DecodeMap(le, s, a).Done? && Varint.Agree(a, b, DecodeMap(le, s, a).used)
    ensures DecodeMap(le, s, b) == Settled(DecodeMap(le, s, a), b)
    decreases s, 2, 0
  {
    hide Varint.Parse, Varint.Agree, DecodeEntries;
    var Done(count, n) := Varint.Parse(le, a);
    Varint.AgreeSplit(a, b, n, DecodeEntries(le, s, count, a[n..]).used);
    Varint.Local(le, a, b);
    if |b| >= n {
      EntriesLocal(le, s, count, a[n..], b[n..]);
    }
  }

  lemma {:induction false} EntriesLocal(le: bool, s: Schema, count: nat, a: seq<byte>, b: seq<byte>)
    requires s.Map? && DecodeEntries(le, s, count, a).Done?
    requires Varint.Agree(a, b, DecodeEntries(le, s, count, a).used)
    ensures DecodeEntries(le, s, count, b) == Settled(DecodeEntries(le, s, count, a), b)
    decreases s, 1, count
  {
    hide DecodeEntry, Varint.Agree;
    if count != 0 {
      var n := DecodeEntry(le, s, a).used;
      Varint.AgreeSplit(a, b, n, DecodeEntries(le, s, count - 1, a[n..]).used);
      EntryLocal(le, s, a, b);
      if |b| >= n {
        EntriesLocal(le, s, count - 1, a[n..], b[n..]);
      }
    }
  }

  lemma {:induction false} EntryLocal(le: bool, s: Schema, a: seq<byte>, b: seq<byte>)
    requires s.Map? && DecodeEntry(le, s, a).Done? && Varint.Agree(a, b, DecodeEntry(le, s, a).used)
    ensures DecodeEntry(le, s, b) == Settled(DecodeEntry(le, s, a), b)
    decreases s, 0, 0
  {
    hide Decode, Varint.Agree;
    var n := Decode(le, s.key, a).used;
    Varint.AgreeSplit(a, b, n, Decode(le, s.val, a[n..]).used);
    DecodeLocal(le, s.key, a, b);
    if |b| >= n {
      DecodeLocal(le, s.val, a[n..], b[n..]);
    }
  }

  lemma {:induction false} FieldsLocal(le: bool, ts: seq<Schema>, a: seq<byte>, b: seq<byte>)
    requires DecodeFields(le, ts, a).Done? && Varint.Agree(a, b, DecodeFields(le, ts, a).used)
    ensures DecodeFields(le, ts, b) == Settled(DecodeFields(le, ts, a), b)
    decreases ts, 4, 0
  {
    hide Decode, Varint.Agree;
    if ts != [] {
      var n := Decode(le, ts[0], a).used;
      Varint.AgreeSplit(a, b, n, DecodeFields(le, ts[1..], a[n..]).used);
      DecodeLocal(le, ts[0], a, b);
      if |b| >= n {
        FieldsLocal(le, ts[1..], a[n..], b[n..]);
      }
    }
  }

  /** Strict prefixes of an encoding are an end of file; anything after it is trailing bytes. */
  lemma SelfDelimiting(le: bool, s: Schema, v: Value, rest: seq<byte>, k: nat)
    requires HasType(s, v)
    ensures k < |Encode(le, v)| ==> FromBytes(le, s, Encode(le, v)[..k]) == Err(Eof)
    ensures rest != [] ==> FromBytes(le, s, Encode(le, v) + rest) == Err(TrailingBytes)
  {
    hide Decode, Encode;
    ReadsBack(le, s, v, rest);
    if k < |Encode(le, v)| {
      DecodeLocal(le, s, Encode(le, v) + rest, Encode(le, v)[..k]);
    }
  }
}
