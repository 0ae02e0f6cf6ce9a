/** What every successful read guarantees, whatever bytes it is given. */
module Progress {
  import opened Words
  import opened Results
  import opened Codec
  import opened FloatOrder
  import opened RoundTrip
  import Varint
  import Zigzag

  /** A read takes at least the schema's smallest size, and never more than there is. */
  lemma {:induction false} UsesMinSize(le: bool, s: Schema, inp: seq<byte>)
    requires Decode(le, s, inp).Done?
    ensures MinSize(s) <= Decode(le, s, inp).used <= |inp|
    decreases s, 1
  {
    hide Varint.Parse;
    match s
    case Struct(ts) => FieldsUseMinSizes(le, ts, inp);
    case Newtype(t) => UsesMinSize(le, t, inp);
    case _ =>
  }

  lemma {:induction false} FieldsUseMinSizes(le: bool, ts: seq<Schema>, inp: seq<byte>)
    requires DecodeFields(le, ts, inp).Done?
    ensures MinSizes(ts) <= DecodeFields(le, ts, inp).used
    decreases ts, 0
  {
    if ts != [] {
      UsesMinSize(le, ts[0], inp);
      FieldsUseMinSizes(le, ts[1..], inp[Decode(le, ts[0], inp).used..]);
    }
  }

  /** A sequence whose elements need a byte each never has more elements than there were bytes. */
  lemma SequenceBounded(le: bool, t: Schema, inp: seq<byte>)
    requires MinSize(t) >= 1 && Decode(le, Seq(t), inp).Done?
    ensures var v := Decode(le, Seq(t), inp).value; v.VSeq? && |v.elems| < |inp|
  {
    hide Varint.Parse;
    var Done(count, n) := Varint.Parse(le, inp);
    ManyUseBytes(le, t, count, inp[n..]);
  }

  lemma {:induction false} ManyUseBytes(le: bool, t: Schema, count: nat, inp: seq<byte>)
    requires MinSize(t) >= 1 && DecodeMany(le, t, count, inp).Done?
    ensures count <= DecodeMany(le, t, count, inp).used
    decreases count
  {
    if count != 0 {
      UsesMinSize(le, t, inp);
      ManyUseBytes(le, t, count - 1, inp[Decode(le, t, inp).used..]);
    }
  }

  lemma WrapInRange(i: i64, w: Width)
    ensures -(w.Card() / 2) <= Wrap(i, w) < w.Card() / 2
  {
  }

  /** What is read belongs to the schema: narrowing casts and UTF-8 checks included. */
  lemma {:induction false} ReadsTyped(le: bool, s: Schema, inp: seq<byte>)
    requires Decode(le, s, inp).Done?
    ensures HasType(s, Decode(le, s, inp).value)
    decreases s, 3, 0
  {
    hide DecodeSeq, DecodeMap, DecodeFields, DecodeScalar;
    match s
    case Opt(t) => if inp[0] != 0 { ReadsTyped(le, t, inp[1..]); }
    case Seq(t) => SeqTyped(le, t, inp);
    case Map(_, _) => MapTyped(le, s, inp);
    case Struct(ts) => FieldsTyped(le, ts, inp);
    case Newtype(t) => ReadsTyped(le, t, inp);
    case _ => ScalarTyped(le, s, inp);
  }

  lemma ScalarTyped(le: bool, s: Schema, inp: seq<byte>)
    requires Scalar(s) && DecodeScalar(le, s, inp).Done?
    ensures HasType(s, DecodeScalar(le, s, inp).value)
  {
    hide Varint.Parse, Zigzag.Decode, Wrap;
    match s
    case Signed(w) => WrapInRange(Zigzag.Decode(Varint.Parse(le, inp).value), w);
    case _ =>
  }

  lemma {:induction false} SeqTyped(le: bool, t: Schema, inp: seq<byte>)
    requires DecodeSeq(le, t, inp).Done?
    ensures HasType(Seq(t), DecodeSeq(le, t, inp).value)
    decreases t, 5, 0
  {
    hide Varint.Parse, DecodeMany;
    var Done(count, n) := Varint.Parse(le, inp);
    ManyTyped(le, t, count, inp[n..]);
  }

  lemma {:induction false} ManyTyped(le: bool, t: Schema, count: nat, inp: seq<byte>)
    requires DecodeMany(le, t, count, inp).Done?
    ensures forall x :: x in DecodeMany(le, t, count, inp).value ==> HasType(t, x)
    decreases t, 4, count
  {
    if count != 0 {
      hide Decode, HasType, DecodeScalar;
      ReadsTyped(le, t, inp);
      ManyTyped(le, t, count - 1, inp[Decode(le, t, inp).used..]);
    }
  }

  lemma {:induction false} MapTyped(le: bool, s: Schema, inp: seq<byte>)
    requires s.Map? && DecodeMap(le, s, inp).Done?
    ensures HasType(s, DecodeMap(le, s, inp).value)
    decreases s, 2, 0
  {
    hide Varint.Parse;
    var Done(count, n) := Varint.Parse(le, inp);
    EntriesTyped(le, s, count, inp[n..]);
  }

  lemma {:induction false} EntriesTyped(le: bool, s: Schema, count: nat, inp: seq<byte>)
    requires s.Map? && DecodeEntries(le, s, count, inp).Done?
    ensures forall e :: e in DecodeEntries(le, s, count, inp).value ==> HasType(s.key, e.key) && HasType(s.val, e.val)
    decreases s, 1, count
  {
    if count != 0 {
      hide Decode, HasType;
      ReadsTyped(le, s.key, inp);
      ReadsTyped(le, s.val, inp[Decode(le, s.key, inp).used..]);
      EntriesTyped(le, s, count - 1, inp[DecodeEntry(le, s, inp).used..]);
    }
  }

  lemma {:induction false} FieldsTyped(le: bool, ts: seq<Schema>, inp: seq<byte>)
    requires DecodeFields(le, ts, inp).Done?
    ensures forall i :: 0 <= i < |ts| ==> HasType(ts[i], DecodeFields(le, ts, inp).value[i])
    decreases ts, 4, 0
  {
    if ts != [] {
      hide Decode, HasType;
      ReadsTyped(le, ts[0], inp);
      FieldsTyped(le, ts[1..], inp[Decode(le, ts[0], inp).used..]);
    }
  }

  /** Writing out what any accepted input means gives an input that is accepted with the same meaning. */
  lemma Reencode(s: Schema, inp: seq<byte>)
    requires FromBytes(false, s, inp).Ok?
    ensures FromBytes(false, s, ToBytes(false, FromBytes(false, s, inp).value)) == FromBytes(false, s, inp)
  {
    hide Decode, Encode;
    ReadsTyped(false, s, inp);
    RoundTrips(false, s, Decode(false, s, inp).value);
  }
}
