/** The writer: a buffer that every method appends to, proved against Codec.Encode. */
module Serializer {
  import opened Words
  import opened Codec
  import Varint
  import Zigzag

  class Serializer {
    const le: bool
    var output: seq<byte>

    constructor (le: bool)
      ensures this.le == le && output == []
    {
      this.le := le;
      output := [];
    }

    method SerializeUnsigned(val: u64)
      modifies this
      ensures output == old(output) + Varint.Put(le, val)
    {
      PowersOf256();
      if val <= 0xFC {
        output := output + [val];
      } else if val <= 0xFFFF {
        output := output + [0xFD];
        output := output + PutWord(le, val, 2);
      } else if 0xFFFF01 <= val <= 0xFFFF_FFFF {
        output := output + [0xFE];
        output := output + PutWord(le, val, 4);
      } else {
        output := output + [0xFF];
        output := output + PutWord(le, val, 8);
      }
    }

    method SerializeSigned(val: i64)
      modifies this
      ensures output == old(output) + Varint.Put(le, Zigzag.Encode(val))
    {
      SerializeUnsigned(Zigzag.Encode(val));
    }

    method SerializeBool(v: bool)
      modifies this
      ensures output == old(output) + PutBool(v)
    {
      output := output + [if v then 1 else 0];
    }

    method SerializeBytes(v: seq<byte>)
      modifies this
      ensures output == old(output) + (PutLength(le, |v|) + v)
    {
      SerializeUnsigned(|v| % TWO_64);
      output := output + v;
    }

    method SerializeSome(v: Value)
      modifies this
      ensures output == old(output) + (PutBool(true) + Encode(le, v))
      decreases v, 2
    {
      SerializeBool(true);
      Serialize(v);
    }

    method SerializeElements(vs: seq<Value>)
      modifies this
      ensures output == old(output) + EncodeMany(le, vs)
      decreases vs, 2
    {
      hide Encode;
      var i := 0;
      while i < |vs|
        invariant 0 <= i <= |vs|
        invariant output + EncodeMany(le, vs[i..]) == old(output) + EncodeMany(le, vs)
      {
        assert vs[i..][1..] == vs[i + 1..];
        Serialize(vs[i]);
        i := i + 1;
      }
    }

    method SerializeEntry(entry: Entry)
      modifies this
      ensures output == old(output) + EncodeEntry(le, entry)
      decreases entry, 2
    {
      match entry
      case Entry(k, v) =>
        Serialize(k);
        Serialize(v);
    }

    method SerializeEntries(entries: seq<Entry>)
      modifies this
      ensures output == old(output) + EncodeEntries(le, entries)
      decreases entries, 3
    {
      hide EncodeEntry;
      var i := 0;
      while i < |entries|
        invariant 0 <= i <= |entries|
        invariant output + EncodeEntries(le, entries[i..]) == old(output) + EncodeEntries(le, entries)
      {
        assert entries[i..][1..] == entries[i + 1..];
        SerializeEntry(entries[i]);
        i := i + 1;
      }
    }

    /** Double dispatch on the value, as its derived `serialize` would do. */
    method Serialize(v: Value)
      modifies this
      ensures output == old(output) + Encode(le, v)
      decreases v, 1
    {
      hide Varint.Put, Zigzag.Encode, PutLength, PutBool, PutFloat32, PutFloat64;
      match v
      case VBool(b) => SerializeBool(b);
      case VUnsigned(n) => SerializeUnsigned(n);
      case VSigned(i) => SerializeSigned(i);
      case VFloat32(bits) => output := output + PutFloat32(le, bits);
      case VFloat64(bits) => output := output + PutFloat64(le, bits);
      case VBytes(bs) => SerializeBytes(bs);
      case VStr(bs) => SerializeBytes(bs);
      case VUnit =>
      case VNone => SerializeBool(false);
      case VSome(x) => SerializeSome(x);
      case VSeq(xs) =>
        SerializeLength(|xs|);
        SerializeElements(xs);
      case VMap(es) =>
        SerializeLength(|es|);
        SerializeEntries(es);
      case VStruct(xs) => SerializeElements(xs);
      case VNewtype(x) => Serialize(x);
    }

    method SerializeLength(len: nat)
      modifies this
      ensures output == old(output) + PutLength(le, len)
    {
      SerializeUnsigned(len % TWO_64);
    }
  }

  method ToBytes(v: Value) returns (bytes: seq<byte>)
    ensures bytes == Codec.ToBytes(false, v)
  {
    var serializer := new Serializer(false);
    serializer.Serialize(v);
    bytes := serializer.output;
  }

  method ToBytesLe(v: Value) returns (bytes: seq<byte>)
    ensures bytes == Codec.ToBytes(true, v)
  {
    var serializer := new Serializer(true);
    serializer.Serialize(v);
    bytes := serializer.output;
  }
}
