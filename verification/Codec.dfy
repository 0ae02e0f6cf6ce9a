/**
 The schema-driven codec as functions: what the writer appends for a value, and what the reader
 makes of a byte string at a schema. The classes in Serializer.dfy and Deserializer.dfy are proved
 against these.
 */
module Codec {
  import opened Words
  import opened Results
  import Utf8
  import Varint
  import Zigzag

  datatype Width = W8 | W16 | W32 | W64
  {
    /** Number of values of this width. */
    function Card(): (c: nat)
    {
      match this
      case W8 => TWO_8
      case W16 => TWO_16
      case W32 => TWO_32
      case W64 => TWO_64
    }
  }

  datatype Schema =
    | Bool
    | Unsigned(width: Width)
    | Signed(width: Width)
    | Float32
    | Float64
    | Bytes
    | Str
    | Unit
    | Opt(some: Schema)
    | Seq(elem: Schema)
    | Map(key: Schema, val: Schema)
    | Struct(fields: seq<Schema>)
    | Newtype(inner: Schema)

  datatype Entry = Entry(key: Value, val: Value)

  /** A value in the order it is written: a map is the sequence its iterator yields. Floats are bit patterns. */
  datatype Value =
    | VBool(b: bool)
    | VUnsigned(n: u64)
    | VSigned(i: i64)
    | VFloat32(bits32: u32)
    | VFloat64(bits64: u64)
    | VBytes(bytes: seq<byte>)
    | VStr(text: seq<byte>)
    | VUnit
    | VNone
    | VSome(some: Value)
    | VSeq(elems: seq<Value>)
    | VMap(entries: seq<Entry>)
    | VStruct(fields: seq<Value>)
    | VNewtype(inner: Value)

  predicate HasType(s: Schema, v: Value)
    decreases s
  {
    match (s, v)
    case (Bool, VBool(_)) => true
    case (Unsigned(w), VUnsigned(n)) => n < w.Card()
    case (Signed(w), VSigned(i)) => -(w.Card() / 2) <= i < w.Card() / 2
    case (Float32, VFloat32(_)) => true
    case (Float64, VFloat64(_)) => true
    case (Bytes, VBytes(bs)) => |bs| < TWO_64
    case (Str, VStr(bs)) => |bs| < TWO_64 && Utf8.Valid(bs)
    case (Unit, VUnit) => true
    case (Opt(_), VNone) => true
    case (Opt(t), VSome(x)) => HasType(t, x)
    case (Seq(t), VSeq(xs)) => |xs| < TWO_64 && forall x :: x in xs ==> HasType(t, x)
    case (Map(k, t), VMap(es)) =>
      |es| < TWO_64 && forall e :: e in es ==> HasType(k, e.key) && HasType(t, e.val)
    case (Struct(ts), VStruct(xs)) => |ts| == |xs| && forall i :: 0 <= i < |ts| ==> HasType(ts[i], xs[i])
    case (Newtype(t), VNewtype(x)) => HasType(t, x)
    case _ => false
  }

  // ---------------------------------------------------------------- writing

  /** `len as u64`, then as an unsigned integer. */
  function PutLength(le: bool, len: nat): (s: seq<byte>)
  {
    Varint.Put(le, len % TWO_64)
  }

  function PutFloat32(le: bool, bits: u32): (s: seq<byte>)
    ensures |s| == 4
  {
    PowersOf256();
    PutWord(le, bits, 4)
  }

  function PutFloat64(le: bool, bits: u64): (s: seq<byte>)
    ensures |s| == 8
  {
    PowersOf256();
    PutWord(le, bits, 8)
  }

  function PutBool(b: bool): (s: seq<byte>)
  {
    [if b then 1 else 0]
  }

  function Encode(le: bool, v: Value): (s: seq<byte>)
    decreases v
  {
    match v
    case VBool(b) => PutBool(b)
    case VUnsigned(n) => Varint.Put(le, n)
    case VSigned(i) => Varint.Put(le, Zigzag.Encode(i))
    case VFloat32(bits) => PutFloat32(le, bits)
    case VFloat64(bits) => PutFloat64(le, bits)
    case VBytes(bs) => PutLength(le, |bs|) + bs
    case VStr(bs) => PutLength(le, |bs|) + bs
    case VUnit => []
    case VNone => PutBool(false)
    case VSome(x) => PutBool(true) + Encode(le, x)
    case VSeq(xs) => PutLength(le, |xs|) + EncodeMany(le, xs)
    case VMap(es) => PutLength(le, |es|) + EncodeEntries(le, es)
    case VStruct(xs) => EncodeMany(le, xs)
    case VNewtype(x) => Encode(le, x)
  }

  function EncodeMany(le: bool, xs: seq<Value>): (s: seq<byte>)
    decreases xs
  {
    if xs == [] then [] else Encode(le, xs[0]) + EncodeMany(le, xs[1..])
  }

  function EncodeEntry(le: bool, entry: Entry): (s: seq<byte>)
    decreases entry
  {
    match entry
    case Entry(k, x) => Encode(le, k) + Encode(le, x)
  }

  function EncodeEntries(le: bool, es: seq<Entry>): (s: seq<byte>)
    decreases es
  {
    if es == [] then [] else EncodeEntry(le, es[0]) + EncodeEntries(le, es[1..])
  }

  // ---------------------------------------------------------------- reading

  /** Fewest bytes any value of the schema takes. */
  function MinSize(s: Schema): (n: nat)
  {
    match s
    case Float32 => 4
    case Float64 => 8
    case Unit => 0
    case Struct(ts) => MinSizes(ts)
    case Newtype(t) => MinSize(t)
    case _ => 1
  }

  function MinSizes(ts: seq<Schema>): (n: nat)
  {
    if ts == [] then 0 else MinSize(ts[0]) + MinSizes(ts[1..])
  }

  /** `as i8` and so on: keep the low bits, read them as two's complement. */
  function Wrap(i: i64, w: Width): (r: i64)
  {
    (i + w.Card() / 2) % w.Card() - w.Card() / 2
  }

  function ParseBool(inp: seq<byte>): (r: Parsed<bool>)
    ensures r.Done? ==> r.used <= |inp|
  {
    if inp == [] then Fail(Eof) else Done(inp[0] != 0, 1)
  }

  function ParseBytes(le: bool, inp: seq<byte>): (r: Parsed<seq<byte>>)
    ensures r.Done? ==> 1 <= r.used <= |inp| && |r.value| < TWO_64
  {
    match Varint.Parse(le, inp)
    case Fail(e) => Fail(e)
    case Done(len, n) => if |inp| - n < len then Fail(Eof) else Done(inp[n..n + len], n + len)
  }

  function ParseString(le: bool, inp: seq<byte>): (r: Parsed<seq<byte>>)
    ensures r.Done? ==> 1 <= r.used <= |inp| && |r.value| < TWO_64
  {
    match ParseBytes(le, inp)
    case Fail(e) => Fail(e)
    case Done(bs, n) => if Utf8.Valid(bs) then Done(bs, n) else Fail(Format)
  }

  /** Floats are read big-endian in either mode. */
  function ParseFloat32(inp: seq<byte>): (r: Parsed<u32>)
    ensures r.Done? ==> r.used <= |inp|
  {
    PowersOf256();
    if |inp| < 4 then Fail(Eof) else Done(FromBigEndian(inp[..4]), 4)
  }

  function ParseFloat64(inp: seq<byte>): (r: Parsed<u64>)
    ensures r.Done? ==> r.used <= |inp|
  {
    PowersOf256();
    if |inp| < 8 then Fail(Eof) else Done(FromBigEndian(inp[..8]), 8)
  }

  /** Schemas without parts; every other schema is left to Decode. */
  predicate Scalar(s: Schema)
  {
    !s.Opt? && !s.Seq? && !s.Map? && !s.Struct? && !s.Newtype?
  }

  function DecodeScalar(le: bool, s: Schema, inp: seq<byte>): (r: Parsed<Value>)
    requires Scalar(s)
    ensures r.Done? ==> r.used <= |inp|
  {
    match s
    case Bool =>
      (match ParseBool(inp) case Fail(e) => Fail(e) case Done(b, n) => Done(VBool(b), n))
    case Unsigned(w) =>
      (match Varint.Parse(le, inp) case Fail(e) => Fail(e) case Done(u, n) => Done(VUnsigned(u % w.Card()), n))
    case Signed(w) =>
      (match Varint.Parse(le, inp)
       case Fail(e) => Fail(e)
       case Done(u, n) => Done(VSigned(Wrap(Zigzag.Decode(u), w)), n))
    case Float32 =>
      (match ParseFloat32(inp) case Fail(e) => Fail(e) case Done(bits, n) => Done(VFloat32(bits), n))
    case Float64 =>
      (match ParseFloat64(inp) case Fail(e) => Fail(e) case Done(bits, n) => Done(VFloat64(bits), n))
    case Bytes =>
      (match ParseBytes(le, inp) case Fail(e) => Fail(e) case Done(bs, n) => Done(VBytes(bs), n))
    case Str =>
      (match ParseString(le, inp) case Fail(e) => Fail(e) case Done(bs, n) => Done(VStr(bs), n))
    case Unit => Done(VUnit, 0)
  }

  function Decode(le: bool, s: Schema, inp: seq<byte>): (r: Parsed<Value>)
    ensures r.Done? ==> r.used <= |inp|
    decreases s, 3, 0
  {
    match s
    case Opt(t) => DecodeOpt(le, t, inp)
    case Seq(t) => DecodeSeq(le, t, inp)
    case Map(_, _) => DecodeMap(le, s, inp)
    case Struct(ts) => DecodeStruct(le, ts, inp)
    case Newtype(t) => DecodeNewtype(le, t, inp)
    case _ => DecodeScalar(le, s, inp)
  }

  function DecodeNewtype(le: bool, t: Schema, inp: seq<byte>): (r: Parsed<Value>)
    ensures r.Done? ==> r.used <= |inp|
    decreases t, 4, 0
  {
    match Decode(le, t, inp)
    case Fail(e) => Fail(e)
    case Done(x, n) => Done(VNewtype(x), n)
  }

  function DecodeOpt(le: bool, t: Schema, inp: seq<byte>): (r: Parsed<Value>)
    ensures r.Done? ==> r.used <= |inp|
    decreases t, 4, 0
  {
    match ParseBool(inp)
    case Fail(e) => Fail(e)
    case Done(present, n) =>
      if !present then Done(VNone, n) else
      match Decode(le, t, inp[n..])
      case Fail(e) => Fail(e)
      case Done(x, m) => Done(VSome(x), n + m)
  }

  function DecodeSeq(le: bool, t: Schema, inp: seq<byte>): (r: Parsed<Value>)
    ensures r.Done? ==> r.used <= |inp|
    decreases t, 5, 0
  {
    match Varint.Parse(le, inp)
    case Fail(e) => Fail(e)
    case Done(count, n) =>
      match DecodeMany(le, t, count, inp[n..])
      case Fail(e) => Fail(e)
      case Done(xs, m) => Done(VSeq(xs), n + m)
  }

  function DecodeMany(le: bool, t: Schema, count: nat, inp: seq<byte>): (r: Parsed<seq<Value>>)
    ensures r.Done? ==> r.used <= |inp| && |r.value| == count
    decreases t, 4, count
  {
    if count == 0 then Done([], 0) else
    match Decode(le, t, inp)
    case Fail(e) => Fail(e)
    case Done(x, n) =>
      match DecodeMany(le, t, count - 1, inp[n..])
      case Fail(e) => Fail(e)
      case Done(xs, m) => Done([x] + xs, n + m)
  }

  function DecodeMap(le: bool, s: Schema, inp: seq<byte>): (r: Parsed<Value>)
    requires s.Map?
    ensures r.Done? ==> r.used <= |inp|
    decreases s, 2, 0
  {
    match Varint.Parse(le, inp)
    case Fail(e) => Fail(e)
    case Done(count, n) =>
      match DecodeEntries(le, s, count, inp[n..])
      case Fail(e) => Fail(e)
      case Done(es, m) => Done(VMap(es), n + m)
  }

  function DecodeEntries(le: bool, s: Schema, count: nat, inp: seq<byte>): (r: Parsed<seq<Entry>>)
    requires s.Map?
    ensures r.Done? ==> r.used <= |inp| && |r.value| == count
    decreases s, 1, count
  {
    if count == 0 then Done([], 0) else
    match DecodeEntry(le, s, inp)
    case Fail(e) => Fail(e)
    case Done(entry, n) =>
      match DecodeEntries(le, s, count - 1, inp[n..])
      case Fail(e) => Fail(e)
      case Done(es, m) => Done([entry] + es, n + m)
  }

  /** A key, then its value. */
  function DecodeEntry(le: bool, s: Schema, inp: seq<byte>): (r: Parsed<Entry>)
    requires s.Map?
    ensures r.Done? ==> r.used <= |inp|
    decreases s, 0, 0
  {
    match Decode(le, s.key, inp)
    case Fail(e) => Fail(e)
    case Done(k, n) =>
      match Decode(le, s.val, inp[n..])
      case Fail(e) => Fail(e)
      case Done(x, m) => Done(Entry(k, x), n + m)
  }

  function DecodeStruct(le: bool, ts: seq<Schema>, inp: seq<byte>): (r: Parsed<Value>)
    ensures r.Done? ==> r.used <= |inp|
    decreases ts, 5, 0
  {
    match DecodeFields(le, ts, inp)
    case Fail(e) => Fail(e)
    case Done(xs, n) => Done(VStruct(xs), n)
  }

  function DecodeFields(le: bool, ts: seq<Schema>, inp: seq<byte>): (r: Parsed<seq<Value>>)
    ensures r.Done? ==> r.used <= |inp| && |r.value| == |ts|
    decreases ts, 4, 0
  {
    if ts == [] then Done([], 0) else
    match Decode(le, ts[0], inp)
    case Fail(e) => Fail(e)
    case Done(x, n) =>
      match DecodeFields(le, ts[1..], inp[n..])
      case Fail(e) => Fail(e)
      case Done(xs, m) => Done([x] + xs, n + m)
  }

  /** The two public entry points, `to_bytes`/`to_bytes_le` and `from_bytes`/`from_bytes_le`. */
  function ToBytes(le: bool, v: Value): (s: seq<byte>)
  {
    Encode(le, v)
  }

  function FromBytes(le: bool, s: Schema, inp: seq<byte>): (r: Result<Value>)
  {
    match Decode(le, s, inp)
    case Fail(e) => Err(e)
    case Done(v, n) => if n < |inp| then Err(TrailingBytes) else Ok(v)
  }
}
