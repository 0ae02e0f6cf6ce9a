/**
 Floats are written in the mode's byte order but always read big-endian. This module says what that
 does to a whole value, and exactly which values it leaves alone.
 */
module FloatOrder {
  import opened Seqs
  import opened Words
  import opened Codec

  /** The bit pattern a k-byte float comes back as. */
  function Reread(le: bool, bits: nat, k: nat): (r: nat)
    requires bits < Pow256(k)
    ensures r < Pow256(k)
  {
    FromBigEndian(PutWord(le, bits, k))
  }

  function Reread32(le: bool, bits: u32): (r: u32)
  {
    PowersOf256();
    Reread(le, bits, 4)
  }

  function Reread64(le: bool, bits: u64): (r: u64)
  {
    PowersOf256();
    Reread(le, bits, 8)
  }

  /** What a value comes back as. */
  function Readback(le: bool, v: Value): (r: Value)
    decreases v
  {
    match v
    case VFloat32(bits) => VFloat32(Reread32(le, bits))
    case VFloat64(bits) => VFloat64(Reread64(le, bits))
    case VSome(x) => VSome(Readback(le, x))
    case VSeq(xs) => VSeq(ReadbackMany(le, xs))
    case VMap(es) => VMap(ReadbackEntries(le, es))
    case VStruct(xs) => VStruct(ReadbackMany(le, xs))
    case VNewtype(x) => VNewtype(Readback(le, x))
    case _ => v
  }

  function ReadbackMany(le: bool, xs: seq<Value>): (r: seq<Value>)
    ensures |r| == |xs|
    decreases xs
  {
    if xs == [] then [] else [Readback(le, xs[0])] + ReadbackMany(le, xs[1..])
  }

  function ReadbackEntry(le: bool, entry: Entry): (r: Entry)
    decreases entry
  {
    match entry
    case Entry(k, x) => Entry(Readback(le, k), Readback(le, x))
  }

  function ReadbackEntries(le: bool, es: seq<Entry>): (r: seq<Entry>)
    ensures |r| == |es|
    decreases es
  {
    if es == [] then [] else [ReadbackEntry(le, es[0])] + ReadbackEntries(le, es[1..])
  }

  /** The bytes of a k-byte float read the same from either end. */
  predicate Palindrome(bits: nat, k: nat)
    requires bits < Pow256(k)
  {
    LittleEndian(bits, k) == BigEndian(bits, k)
  }

  predicate Palindromes(v: Value)
    decreases v
  {
    match v
    case VFloat32(bits) => PowersOf256(); Palindrome(bits, 4)
    case VFloat64(bits) => PowersOf256(); Palindrome(bits, 8)
    case VSome(x) => Palindromes(x)
    case VSeq(xs) => PalindromesAll(xs)
    case VMap(es) => PalindromesEntries(es)
    case VStruct(xs) => PalindromesAll(xs)
    case VNewtype(x) => Palindromes(x)
    case _ => true
  }

  predicate PalindromesAll(xs: seq<Value>)
    decreases xs
  {
    xs == [] || (Palindromes(xs[0]) && PalindromesAll(xs[1..]))
  }

  predicate PalindromesEntry(entry: Entry)
    decreases entry
  {
    match entry
    case Entry(k, x) => Palindromes(k) && Palindromes(x)
  }

  predicate PalindromesEntries(es: seq<Entry>)
    decreases es
  {
    es == [] || (PalindromesEntry(es[0]) && PalindromesEntries(es[1..]))
  }

  /** In little-endian mode every float in the value is a byte palindrome. Checkable before writing. */
  predicate FloatsSafe(le: bool, v: Value)
  {
    le ==> Palindromes(v)
  }

  lemma RereadSame(le: bool, bits: nat, k: nat)
    requires bits < Pow256(k)
    ensures Reread(le, bits, k) == bits <==> (le ==> Palindrome(bits, k))
  {
    GetPut(false, bits, k);
    PutGet(false, PutWord(le, bits, k));
  }

  lemma RereadTwice(le: bool, bits: nat, k: nat)
    requires bits < Pow256(k)
    ensures Reread(le, Reread(le, bits, k), k) == bits
  {
    GetPut(false, bits, k);
    var w := PutWord(le, bits, k);
    PutGet(false, w);
    if le {
      LittleIsReversedBig(bits, k);
      LittleIsReversedBig(Reread(le, bits, k), k);
      ReverseTwice(LittleEndian(Reread(le, bits, k), k));
    }
  }

  /** A value comes back unchanged exactly when it is float-safe. */
  lemma {:induction false} ReadbackSame(le: bool, v: Value)
    ensures Readback(le, v) == v <==> FloatsSafe(le, v)
    decreases v
  {
    PowersOf256();
    match v
    case VFloat32(bits) => RereadSame(le, bits, 4);
    case VFloat64(bits) => RereadSame(le, bits, 8);
    case VSome(x) => ReadbackSame(le, x);
    case VSeq(xs) => ReadbackSameMany(le, xs);
    case VMap(es) => ReadbackSameEntries(le, es);
    case VStruct(xs) => ReadbackSameMany(le, xs);
    case VNewtype(x) => ReadbackSame(le, x);
    case _ =>
  }

  lemma {:induction false} ReadbackSameMany(le: bool, xs: seq<Value>)
    ensures ReadbackMany(le, xs) == xs <==> (le ==> PalindromesAll(xs))
    decreases xs
  {
    if xs != [] {
      ReadbackSame(le, xs[0]);
      ReadbackSameMany(le, xs[1..]);
      assert xs == [xs[0]] + xs[1..];
      assert ReadbackMany(le, xs)[1..] == ReadbackMany(le, xs[1..]);
    }
  }

  lemma {:induction false} ReadbackSameEntry(le: bool, entry: Entry)
    ensures ReadbackEntry(le, entry) == entry <==> (le ==> PalindromesEntry(entry))
    decreases entry
  {
    match entry
    case Entry(k, x) =>
      ReadbackSame(le, k);
      ReadbackSame(le, x);
  }

  lemma {:induction false} ReadbackSameEntries(le: bool, es: seq<Entry>)
    ensures ReadbackEntries(le, es) == es <==> (le ==> PalindromesEntries(es))
    decreases es
  {
    if es != [] {
      ReadbackSameEntry(le, es[0]);
      ReadbackSameEntries(le, es[1..]);
      assert es == [es[0]] + es[1..];
      assert ReadbackEntries(le, es)[1..] == ReadbackEntries(le, es[1..]);
    }
  }

  lemma Reread32Twice(le: bool, bits: u32)
    ensures Reread32(le, Reread32(le, bits)) == bits
  {
    PowersOf256();
    RereadTwice(le, bits, 4);
  }

  lemma Reread64Twice(le: bool, bits: u64)
    ensures Reread64(le, Reread64(le, bits)) == bits
  {
    PowersOf256();
    RereadTwice(le, bits, 8);
  }

  /** Reading back twice restores any value, so reading back loses nothing. */
  lemma {:induction false} ReadbackTwice(le: bool, v: Value)
    ensures Readback(le, Readback(le, v)) == v
    decreases v
  {
    hide Reread32, Reread64, ReadbackMany, ReadbackEntries;
    match v
    case VFloat32(bits) => Reread32Twice(le, bits);
    case VFloat64(bits) => Reread64Twice(le, bits);
    case VSome(x) => ReadbackTwice(le, x);
    case VSeq(xs) => ReadbackTwiceMany(le, xs);
    case VMap(es) => ReadbackTwiceEntries(le, es);
    case VStruct(xs) => ReadbackTwiceMany(le, xs);
    case VNewtype(x) => ReadbackTwice(le, x);
    case _ =>
  }

  lemma {:induction false} ReadbackTwiceMany(le: bool, xs: seq<Value>)
    ensures ReadbackMany(le, ReadbackMany(le, xs)) == xs
    decreases xs
  {
    if xs != [] {
      ReadbackTwice(le, xs[0]);
      ReadbackTwiceMany(le, xs[1..]);
      assert ReadbackMany(le, xs)[1..] == ReadbackMany(le, xs[1..]);
    }
  }

  lemma {:induction false} ReadbackTwiceEntry(le: bool, entry: Entry)
    ensures ReadbackEntry(le, ReadbackEntry(le, entry)) == entry
    decreases entry
  {
    match entry
    case Entry(k, x) =>
      ReadbackTwice(le, k);
      ReadbackTwice(le, x);
  }

  lemma {:induction false} ReadbackTwiceEntries(le: bool, es: seq<Entry>)
    ensures ReadbackEntries(le, ReadbackEntries(le, es)) == es
    decreases es
  {
    if es != [] {
      ReadbackTwiceEntry(le, es[0]);
      ReadbackTwiceEntries(le, es[1..]);
      assert ReadbackEntries(le, es)[1..] == ReadbackEntries(le, es[1..]);
    }
  }
}
