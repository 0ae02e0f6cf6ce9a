/** The reader: a cursor over the input and the element counter over it, proved against Codec.Decode. */
module Deserializer {
  import opened Words
  import opened Results
  import opened Codec
  import Utf8
  import Varint
  import Zigzag

  /** A method that moved the cursor from `start` to `pos` returned what the specification says. */
  ghost predicate Matches<T>(spec: Parsed<T>, r: Result<T>, start: nat, pos: nat)
  {
    match spec
    case Done(v, n) => r == Ok(v) && pos == start + n
    case Fail(e) => r == Err(e)
  }

  /** Items already read, taking n bytes, in front of those still to come. */
  function Following<T>(items: seq<T>, n: nat, rest: Parsed<seq<T>>): (r: Parsed<seq<T>>)
  {
    match rest
    case Fail(e) => Fail(e)
    case Done(xs, m) => Done(items + xs, n + m)
  }

  lemma FollowingAll<T>(items: seq<T>, n: nat, rest: Parsed<seq<T>>)
    ensures Following([], 0, rest) == rest
    ensures Following(items, n, Done([], 0)) == Done(items, n)
  {
    if rest.Done? {
      assert [] + rest.value == rest.value;
    }
    assert items + [] == items;
  }

  lemma FollowingMore<T>(items: seq<T>, n: nat, x: T, k: nat, rest: Parsed<seq<T>>)
    ensures Following(items, n, Following([x], k, rest)) == Following(items + [x], n + k, rest)
  {
    if rest.Done? {
      assert items + ([x] + rest.value) == items + [x] + rest.value;
    }
  }

  /** One more element, after those already read. */
  lemma ManyStep(le: bool, t: Schema, count: nat, inp: seq<byte>, items: seq<Value>, n: nat)
    requires count > 0
    ensures var all, one := Following(items, n, DecodeMany(le, t, count, inp)), Decode(le, t, inp);
            if one.Fail? then all == Fail(one.error)
            else all == Following(items + [one.value], n + one.used, DecodeMany(le, t, count - 1, inp[one.used..]))
  {
    hide Decode;
    var one := Decode(le, t, inp);
    if one.Done? {
      var rest := DecodeMany(le, t, count - 1, inp[one.used..]);
      assert DecodeMany(le, t, count, inp) == Following([one.value], one.used, rest);
      FollowingMore(items, n, one.value, one.used, rest);
    }
  }

  lemma EntriesStep(le: bool, s: Schema, count: nat, inp: seq<byte>, items: seq<Entry>, n: nat)
    requires s.Map? && count > 0
    ensures var all, one := Following(items, n, DecodeEntries(le, s, count, inp)), DecodeEntry(le, s, inp);
            if one.Fail? then all == Fail(one.error)
            else all == Following(items + [one.value], n + one.used, DecodeEntries(le, s, count - 1, inp[one.used..]))
  {
    hide DecodeEntry;
    var one := DecodeEntry(le, s, inp);
    if one.Done? {
      var rest := DecodeEntries(le, s, count - 1, inp[one.used..]);
      assert DecodeEntries(le, s, count, inp) == Following([one.value], one.used, rest);
      FollowingMore(items, n, one.value, one.used, rest);
    }
  }

  lemma NoneLeft(le: bool, t: Schema, inp: seq<byte>, items: seq<Value>, n: nat)
    ensures Following(items, n, DecodeMany(le, t, 0, inp)) == Done(items, n)
  {
    FollowingAll(items, n, Done([], 0));
  }

  lemma NoEntriesLeft(le: bool, s: Schema, inp: seq<byte>, items: seq<Entry>, n: nat)
    requires s.Map?
    ensures Following(items, n, DecodeEntries(le, s, 0, inp)) == Done(items, n)
  {
    FollowingAll(items, n, Done([], 0));
  }

  lemma NoFieldsLeft(le: bool, inp: seq<byte>, items: seq<Value>, n: nat)
    ensures Following(items, n, DecodeFields(le, [], inp)) == Done(items, n)
  {
    FollowingAll(items, n, Done([], 0));
  }

  lemma FieldsStep(le: bool, ts: seq<Schema>, inp: seq<byte>, items: seq<Value>, n: nat)
    requires ts != []
    ensures var all, one := Following(items, n, DecodeFields(le, ts, inp)), Decode(le, ts[0], inp);
            if one.Fail? then all == Fail(one.error)
            else all == Following(items + [one.value], n + one.used, DecodeFields(le, ts[1..], inp[one.used..]))
  {
    hide Decode;
    var one := Decode(le, ts[0], inp);
    if one.Done? {
      var rest := DecodeFields(le, ts[1..], inp[one.used..]);
      assert DecodeFields(le, ts, inp) == Following([one.value], one.used, rest);
      FollowingMore(items, n, one.value, one.used, rest);
    }
  }

  class Deserializer {
    const input: seq<byte>
    const le: bool
    var pos: nat

    constructor (input: seq<byte>, le: bool)
      ensures this.input == input && this.le == le && pos == 0 && Valid()
    {
      this.input := input;
      this.le := le;
      pos := 0;
    }

    ghost predicate Valid()
      reads this
    {
      pos <= |input|
    }

    method ParseBool() returns (r: Result<bool>)
      requires Valid()
      modifies this
      ensures Valid() && Matches(Codec.ParseBool(input[old(pos)..]), r, old(pos), pos)
    {
      if |input| - pos == 0 {
        return Err(Eof);
      }
      var b := input[pos];
      pos := pos + 1;
      return Ok(b != 0);
    }

    /** `get_u16`, `get_u32`, `get_u64` or a little-endian form: the cursor passes k bytes. */
    method GetWord(k: nat) returns (n: nat)
      requires Valid() && pos + k <= |input|
      modifies this
      ensures Valid() && pos == old(pos) + k
      ensures n == Words.GetWord(le, input[old(pos)..old(pos) + k]) && n < Pow256(k)
    {
      n := Words.GetWord(le, input[pos..pos + k]);
      pos := pos + k;
    }

    method ParseUnsigned() returns (r: Result<u64>)
      requires Valid()
      modifies this
      ensures Valid() && Matches(Varint.Parse(le, input[old(pos)..]), r, old(pos), pos)
    {
      hide Words.GetWord;
      PowersOf256();
      if |input| - pos == 0 {
        return Err(Eof);
      }
      ghost var rest := input[pos..];
      var tag := input[pos];
      assert rest[0] == tag;
      pos := pos + 1;
      var val;
      if tag == 0xFF {
        if |input| - pos < 8 {
          return Err(Eof);
        }
        assert rest[1..9] == input[pos..pos + 8];
        val := GetWord(8);
      } else if tag == 0xFE {
        if |input| - pos < 4 {
          return Err(Eof);
        }
        assert rest[1..5] == input[pos..pos + 4];
        val := GetWord(4);
      } else if tag == 0xFD {
        if |input| - pos < 2 {
          return Err(Eof);
        }
        assert rest[1..3] == input[pos..pos + 2];
        val := GetWord(2);
      } else {
        val := tag;
      }
      return Ok(val);
    }

    method ParseSigned() returns (r: Result<i64>)
      requires Valid()
      modifies this
      ensures Valid()
      ensures match Varint.Parse(le, input[old(pos)..])
              case Done(u, n) => r == Ok(Zigzag.Decode(u)) && pos == old(pos) + n
              case Fail(e) => r == Err(e)
    {
      hide Varint.Parse;
      var unsigned := ParseUnsigned();
      match unsigned
      case Err(e) => return Err(e);
      case Ok(u) => return Ok(Zigzag.Decode(u));
    }

    method ParseBytes() returns (r: Result<seq<byte>>)
      requires Valid()
      modifies this
      ensures Valid() && Matches(Codec.ParseBytes(le, input[old(pos)..]), r, old(pos), pos)
    {
      hide Varint.Parse;
      var unsigned := ParseUnsigned();
      match unsigned
      case Err(e) => return Err(e);
      case Ok(len) =>
        if |input| - pos < len {
          return Err(Eof);
        }
        var bytes := input[pos..pos + len];
        assert bytes == input[old(pos)..][pos - old(pos)..pos - old(pos) + len];
        pos := pos + len;
        return Ok(bytes);
    }

    method ParseString() returns (r: Result<seq<byte>>)
      requires Valid()
      modifies this
      ensures Valid() && Matches(Codec.ParseString(le, input[old(pos)..]), r, old(pos), pos)
    {
      hide Codec.ParseBytes;
      var bytes := ParseBytes();
      match bytes
      case Err(e) => return Err(e);
      case Ok(bs) => return if Utf8.Valid(bs) then Ok(bs) else Err(Format);
    }

    /** Floats ignore the mode: `get_f32` and `get_f64` are big-endian. */
    method ParseFloat32() returns (r: Result<u32>)
      requires Valid()
      modifies this
      ensures Valid() && Matches(Codec.ParseFloat32(input[old(pos)..]), r, old(pos), pos)
    {
      if |input| - pos < 4 {
        return Err(Eof);
      }
      PowersOf256();
      var bits := FromBigEndian(input[pos..pos + 4]);
      assert input[pos..][..4] == input[pos..pos + 4];
      pos := pos + 4;
      return Ok(bits);
    }

    method ParseFloat64() returns (r: Result<u64>)
      requires Valid()
      modifies this
      ensures Valid() && Matches(Codec.ParseFloat64(input[old(pos)..]), r, old(pos), pos)
    {
      if |input| - pos < 8 {
        return Err(Eof);
      }
      PowersOf256();
      var bits := FromBigEndian(input[pos..pos + 8]);
      assert input[pos..][..8] == input[pos..pos + 8];
      pos := pos + 8;
      return Ok(bits);
    }

    method DeserializeInteger(s: Schema) returns (r: Result<Value>)
      requires s.Unsigned? || s.Signed?
      requires Valid()
      modifies this
      ensures Valid() && Matches(DecodeScalar(le, s, input[old(pos)..]), r, old(pos), pos)
    {
      hide Varint.Parse, Zigzag.Decode, Wrap;
      match s
      case Unsigned(w) =>
        var unsigned := ParseUnsigned();
        match unsigned {
          case Err(e) => return Err(e);
          case Ok(n) => return Ok(VUnsigned(n % w.Card()));
        }
      case Signed(w) =>
        var signed := ParseSigned();
        match signed {
          case Err(e) => return Err(e);
          case Ok(i) => return Ok(VSigned(Wrap(i, w)));
        }
    }

    method DeserializeScalar(s: Schema) returns (r: Result<Value>)
      requires Scalar(s)
      requires Valid()
      modifies this
      ensures Valid() && Matches(DecodeScalar(le, s, input[old(pos)..]), r, old(pos), pos)
    {
      hide Varint.Parse, Codec.ParseBool, Codec.ParseBytes, Codec.ParseString, Codec.ParseFloat32, Codec.ParseFloat64;
      match s
      case Bool =>
        var b := ParseBool();
        match b { case Err(e) => return Err(e); case Ok(x) => return Ok(VBool(x)); }
      case Unsigned(_) => r := DeserializeInteger(s);
      case Signed(_) => r := DeserializeInteger(s);
      case Float32 =>
        var f := ParseFloat32();
        match f { case Err(e) => return Err(e); case Ok(x) => return Ok(VFloat32(x)); }
      case Float64 =>
        var f := ParseFloat64();
        match f { case Err(e) => return Err(e); case Ok(x) => return Ok(VFloat64(x)); }
      case Bytes =>
        var b := ParseBytes();
        match b { case Err(e) => return Err(e); case Ok(x) => return Ok(VBytes(x)); }
      case Str =>
        var t := ParseString();
        match t { case Err(e) => return Err(e); case Ok(x) => return Ok(VStr(x)); }
      case Unit => return Ok(VUnit);
    }

    method Deserialize(s: Schema) returns (r: Result<Value>)
      requires Valid()
      modifies this
      ensures Valid() && Matches(Decode(le, s, input[old(pos)..]), r, old(pos), pos)
      decreases s, 3, 0
    {
      hide DecodeOpt, DecodeSeq, DecodeMap, DecodeStruct, DecodeScalar;
      match s
      case Opt(t) => r := DeserializeOption(t);
      case Seq(t) => r := DeserializeSeq(t);
      case Map(_, _) => r := DeserializeMap(s);
      case Struct(ts) => r := DeserializeStruct(ts);
      case Newtype(t) =>
        var inner := Deserialize(t);
        match inner { case Err(e) => return Err(e); case Ok(x) => return Ok(VNewtype(x)); }
      case _ => r := DeserializeScalar(s);
    }

    method DeserializeOption(t: Schema) returns (r: Result<Value>)
      requires Valid()
      modifies this
      ensures Valid() && Matches(DecodeOpt(le, t, input[old(pos)..]), r, old(pos), pos)
      decreases t, 4, 0
    {
      hide Decode;
      var present := ParseBool();
      match present
      case Err(e) => return Err(e);
      case Ok(b) =>
        if !b {
          return Ok(VNone);
        }
        assert input[pos..] == input[old(pos)..][pos - old(pos)..];
        var inner := Deserialize(t);
        match inner { case Err(e) => return Err(e); case Ok(x) => return Ok(VSome(x)); }
    }

    method DeserializeSeq(t: Schema) returns (r: Result<Value>)
      requires Valid()
      modifies this
      ensures Valid() && Matches(DecodeSeq(le, t, input[old(pos)..]), r, old(pos), pos)
      decreases t, 5, 0
    {
      hide Varint.Parse, Decode, DecodeMany, Following;
      var unsigned := ParseUnsigned();
      if unsigned.Err? {
        return Err(unsigned.error);
      }
      assert input[pos..] == input[old(pos)..][pos - old(pos)..];
      var size := unsigned.value;
      ghost var start := pos;
      ghost var all := DecodeMany(le, t, size, input[start..]);
      FollowingAll([], 0, all);
      var access := new TypeSeparated(this, size);
      var elems := [];
      while true
        invariant Valid() && access.pos <= size && start <= pos
        invariant all == Following(elems, pos - start, DecodeMany(le, t, size - access.pos, input[pos..]))
        decreases size - access.pos
      {
        if access.pos < size {
          ManyStep(le, t, size - access.pos, input[pos..], elems, pos - start);
        } else {
          NoneLeft(le, t, input[pos..], elems, pos - start);
        }
        ghost var before := pos;
        var next := access.NextElement(t);
        match next {
          case Err(e) => return Err(e);
          case Ok(None) => return Ok(VSeq(elems));
          case Ok(Some(x)) =>
            assert input[pos..] == input[before..][pos - before..];
            elems := elems + [x];
        }
      }
    }

    method DeserializeMap(s: Schema) returns (r: Result<Value>)
      requires Valid() && s.Map?
      modifies this
      ensures Valid() && Matches(DecodeMap(le, s, input[old(pos)..]), r, old(pos), pos)
      decreases s, 2, 0
    {
      hide Varint.Parse, Decode, DecodeEntry, DecodeEntries, Following;
      var unsigned := ParseUnsigned();
      if unsigned.Err? {
        return Err(unsigned.error);
      }
      assert input[pos..] == input[old(pos)..][pos - old(pos)..];
      var size := unsigned.value;
      ghost var start := pos;
      ghost var all := DecodeEntries(le, s, size, input[start..]);
      FollowingAll([], 0, all);
      var access := new TypeSeparated(this, size);
      var entries := [];
      while true
        invariant Valid() && access.pos <= size && start <= pos
        invariant all == Following(entries, pos - start, DecodeEntries(le, s, size - access.pos, input[pos..]))
        decreases size - access.pos
      {
        if access.pos < size {
          EntriesStep(le, s, size - access.pos, input[pos..], entries, pos - start);
        } else {
          NoEntriesLeft(le, s, input[pos..], entries, pos - start);
        }
        ghost var before := pos;
        var next := access.NextEntry(s);
        match next {
          case Err(e) => return Err(e);
          case Ok(None) => return Ok(VMap(entries));
          case Ok(Some(entry)) =>
            assert input[pos..] == input[before..][pos - before..];
            entries := entries + [entry];
        }
      }
    }

    /** A struct is read as a tuple of as many elements as it has fields. */
    method DeserializeStruct(ts: seq<Schema>) returns (r: Result<Value>)
      requires Valid()
      modifies this
      ensures Valid() && Matches(DecodeStruct(le, ts, input[old(pos)..]), r, old(pos), pos)
      decreases ts, 5, 0
    {
      hide Decode, DecodeFields, Following;
      ghost var start := pos;
      ghost var all := DecodeFields(le, ts, input[start..]);
      FollowingAll([], 0, all);
      assert ts[0..] == ts;
      var access := new TypeSeparated(this, |ts|);
      var fields := [];
      for i := 0 to |ts|
        invariant Valid() && access.pos == i && start <= pos
        invariant all == Following(fields, pos - start, DecodeFields(le, ts[i..], input[pos..]))
      {
        FieldsStep(le, ts[i..], input[pos..], fields, pos - start);
        ghost var before := pos;
        assert ts[i..][1..] == ts[i + 1..];
        var next := access.NextElement(ts[i]);
        if next.Err? {
          return Err(next.error);
        }
        assert input[pos..] == input[before..][pos - before..];
        fields := fields + [next.value.value];
      }
      assert ts[|ts|..] == [];
      NoFieldsLeft(le, input[pos..], fields, pos - start);
      return Ok(VStruct(fields));
    }
  }

  /** Counts the elements handed to a visitor, out of the number announced. */
  class TypeSeparated {
    const de: Deserializer
    const len: nat
    var pos: nat

    constructor (de: Deserializer, len: nat)
      ensures this.de == de && this.len == len && pos == 0
    {
      this.de := de;
      this.len := len;
      pos := 0;
    }

    method NextElement(t: Schema) returns (r: Result<Option<Value>>)
      requires de.Valid()
      modifies this, de
      ensures de.Valid()
      ensures old(pos) >= len ==> r == Ok(None) && pos == old(pos) && de.pos == old(de.pos)
      ensures old(pos) < len ==>
                && pos == old(pos) + 1
                && match Decode(de.le, t, de.input[old(de.pos)..])
                   case Done(v, n) => r == Ok(Some(v)) && de.pos == old(de.pos) + n
                   case Fail(e) => r == Err(e)
      decreases t, 4, 0
    {
      if pos < len {
        pos := pos + 1;
        var v := de.Deserialize(t);
        match v { case Err(e) => return Err(e); case Ok(x) => return Ok(Some(x)); }
      } else {
        return Ok(None);
      }
    }

    /** A key does not count: the position moves with the value. */
    method NextKey(k: Schema) returns (r: Result<Option<Value>>)
      requires de.Valid()
      modifies this, de
      ensures de.Valid() && pos == old(pos)
      ensures old(pos) >= len ==> r == Ok(None) && de.pos == old(de.pos)
      ensures old(pos) < len ==>
                match Decode(de.le, k, de.input[old(de.pos)..])
                case Done(v, n) => r == Ok(Some(v)) && de.pos == old(de.pos) + n
                case Fail(e) => r == Err(e)
      decreases k, 4, 0
    {
      if pos < len {
        var v := de.Deserialize(k);
        match v { case Err(e) => return Err(e); case Ok(x) => return Ok(Some(x)); }
      } else {
        return Ok(None);
      }
    }

    method NextValue(t: Schema) returns (r: Result<Value>)
      requires de.Valid()
      modifies this, de
      ensures de.Valid() && pos == old(pos) + 1
      ensures Matches(Decode(de.le, t, de.input[old(de.pos)..]), r, old(de.pos), de.pos)
      decreases t, 4, 0
    {
      pos := pos + 1;
      r := de.Deserialize(t);
    }

    /** What a map visitor asks for: a key, then its value. */
    method NextEntry(s: Schema) returns (r: Result<Option<Entry>>)
      requires de.Valid() && s.Map?
      modifies this, de
      ensures de.Valid()
      ensures old(pos) >= len ==> r == Ok(None) && pos == old(pos) && de.pos == old(de.pos)
      ensures old(pos) < len ==>
                match DecodeEntry(de.le, s, de.input[old(de.pos)..])
                case Done(e, n) => r == Ok(Some(e)) && pos == old(pos) + 1 && de.pos == old(de.pos) + n
                case Fail(e) => r == Err(e)
      decreases s, 1, 0
    {
      hide Decode;
      ghost var start := de.pos;
      var key := NextKey(s.key);
      match key
      case Err(e) => return Err(e);
      case Ok(None) => return Ok(None);
      case Ok(Some(k)) =>
        assert de.input[de.pos..] == de.input[start..][de.pos - start..];
        var val := NextValue(s.val);
        match val { case Err(e) => return Err(e); case Ok(x) => return Ok(Some(Entry(k, x))); }
    }
  }

  method FromInput(input: seq<byte>, le: bool, s: Schema) returns (r: Result<Value>)
    ensures r == Codec.FromBytes(le, s, input)
  {
    hide Decode;
    var deserializer := new Deserializer(input, le);
    assert input[0..] == input;
    r := deserializer.Deserialize(s);
    if r.Ok? && deserializer.pos < |input| {
      r := Err(TrailingBytes);
    }
  }

  method FromBytes(input: seq<byte>, s: Schema) returns (r: Result<Value>)
    ensures r == Codec.FromBytes(false, s, input)
  {
    r := FromInput(input, false, s);
  }

  method FromBytesLe(input: seq<byte>, s: Schema) returns (r: Result<Value>)
    ensures r == Codec.FromBytes(true, s, input)
  {
    r := FromInput(input, true, s);
  }
}
