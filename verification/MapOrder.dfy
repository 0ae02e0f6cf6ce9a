/**
 A hash map is written in whatever order its iterator yields. The order changes neither the length
 of the encoding nor what it is read back as.
 */
module MapOrder {
  import opened Words
  import opened Results
  import opened Codec
  import opened FloatOrder
  import opened RoundTrip

  /** What a value denotes once its maps are collected: iteration order is gone. */
  datatype Meaning =
    | Atom(v: Value)
    | MSome(some: Meaning)
    | MSeq(elems: seq<Meaning>)
    | MMap(entries: map<Meaning, Meaning>)
    | MStruct(fields: seq<Meaning>)
    | MNewtype(inner: Meaning)

  function MeaningOf(v: Value): (m: Meaning)
    decreases v
  {
    match v
    case VSome(x) => MSome(MeaningOf(x))
    case VSeq(xs) => MSeq(MeaningMany(xs))
    case VMap(es) => MMap(Collect(es))
    case VStruct(xs) => MStruct(MeaningMany(xs))
    case VNewtype(x) => MNewtype(MeaningOf(x))
    case _ => Atom(v)
  }

  function MeaningMany(xs: seq<Value>): (ms: seq<Meaning>)
    ensures |ms| == |xs|
    decreases xs
  {
    if xs == [] then [] else [MeaningOf(xs[0])] + MeaningMany(xs[1..])
  }

  function KeyOf(entry: Entry): (m: Meaning)
    decreases entry
  {
    match entry
    case Entry(k, _) => MeaningOf(k)
  }

  function ValOf(entry: Entry): (m: Meaning)
    decreases entry
  {
    match entry
    case Entry(_, x) => MeaningOf(x)
  }

  /** Insert the entries in order, a later entry replacing an earlier one with the same key. */
  function Collect(es: seq<Entry>): (m: map<Meaning, Meaning>)
    decreases es
  {
    if es == [] then map[] else map[KeyOf(es[0]) := ValOf(es[0])] + Collect(es[1..])
  }

  ghost predicate DistinctKeys(es: seq<Entry>)
  {
    forall i, j :: 0 <= i < j < |es| ==> KeyOf(es[i]) != KeyOf(es[j])
  }

  /** The entry lists a map iterator can yield: distinct keys, at every depth. */
  ghost predicate Genuine(v: Value)
    decreases v
  {
    match v
    case VSome(x) => Genuine(x)
    case VSeq(xs) => forall x :: x in xs ==> Genuine(x)
    case VMap(es) => DistinctKeys(es) && forall e :: e in es ==> GenuineEntry(e)
    case VStruct(xs) => forall x :: x in xs ==> Genuine(x)
    case VNewtype(x) => Genuine(x)
    case _ => true
  }

  ghost predicate GenuineEntry(entry: Entry)
    decreases entry
  {
    match entry
    case Entry(k, x) => Genuine(k) && Genuine(x)
  }

  lemma {:induction false} CollectKeys(es: seq<Entry>, k: Meaning)
    ensures k in Collect(es) <==> exists i :: 0 <= i < |es| && KeyOf(es[i]) == k
  {
    if es != [] {
      CollectKeys(es[1..], k);
      if k in Collect(es[1..]) {
        var i :| 0 <= i < |es[1..]| && KeyOf(es[1..][i]) == k;
        assert KeyOf(es[i + 1]) == k;
      } else if i :| 0 <= i < |es| && KeyOf(es[i]) == k {
        if i != 0 {
          assert KeyOf(es[1..][i - 1]) == k;
        }
      }
    }
  }

  lemma {:induction false} CollectAt(es: seq<Entry>, i: nat)
    requires DistinctKeys(es) && i < |es|
    ensures KeyOf(es[i]) in Collect(es) && Collect(es)[KeyOf(es[i])] == ValOf(es[i])
  {
    CollectKeys(es[1..], KeyOf(es[0]));
    if i != 0 {
      CollectAt(es[1..], i - 1);
    }
  }

  function Remove<T>(s: seq<T>, j: nat): (r: seq<T>)
    requires j < |s|
    ensures |r| == |s| - 1
  {
    s[..j] + s[j + 1..]
  }

  lemma DistinctRemove(es: seq<Entry>, j: nat)
    requires DistinctKeys(es) && j < |es|
    ensures DistinctKeys(Remove(es, j))
  {
    var r := Remove(es, j);
    forall a, b | 0 <= a < b < |r|
      ensures KeyOf(r[a]) != KeyOf(r[b])
    {
      assert r[a] == es[if a < j then a else a + 1];
      assert r[b] == es[if b < j then b else b + 1];
    }
  }

  lemma InsertThenRemove(m: map<Meaning, Meaning>, k: Meaning, v: Meaning, gone: Meaning)
    requires k != gone
    ensures map[k := v] + (m - {gone}) == (map[k := v] + m) - {gone}
  {
  }

  lemma {:induction false} CollectRemove(es: seq<Entry>, j: nat)
    requires DistinctKeys(es) && j < |es|
    ensures Collect(Remove(es, j)) == Collect(es) - {KeyOf(es[j])}
  {
    hide KeyOf, ValOf;
    CollectKeys(es[1..], KeyOf(es[0]));
    var r := Remove(es, j);
    if j == 0 {
      assert r == es[1..];
    } else {
      CollectRemove(es[1..], j - 1);
      assert r[0] == es[0] && r[1..] == Remove(es[1..], j - 1);
      InsertThenRemove(Collect(es[1..]), KeyOf(es[0]), ValOf(es[0]), KeyOf(es[j]));
    }
  }

  lemma {:induction false} EncodeRemove(le: bool, es: seq<Entry>, j: nat)
    requires j < |es|
    ensures |EncodeEntries(le, es)| == |EncodeEntry(le, es[j])| + |EncodeEntries(le, Remove(es, j))|
  {
    if j == 0 {
      assert Remove(es, j) == es[1..];
    } else {
      EncodeRemove(le, es[1..], j - 1);
      assert Remove(es, j)[0] == es[0] && Remove(es, j)[1..] == Remove(es[1..], j - 1);
    }
  }

  /** Two values that mean the same are encoded at the same length, whatever their map orders. */
  lemma {:induction false} SameLength(le: bool, v: Value, w: Value)
    requires Genuine(v) && Genuine(w) && MeaningOf(v) == MeaningOf(w)
    ensures |Encode(le, v)| == |Encode(le, w)|
    decreases v, 1
  {
    hide PutLength, PutBool;
    match v
    case VSome(x) => SameLength(le, x, w.some);
    case VSeq(xs) => SameLengthMany(le, xs, w.elems);
    case VMap(es) => SameLengthEntries(le, es, w.entries);
    case VStruct(xs) => SameLengthMany(le, xs, w.fields);
    case VNewtype(x) => SameLength(le, x, w.inner);
    case _ =>
  }

  lemma {:induction false} SameLengthMany(le: bool, xs: seq<Value>, ys: seq<Value>)
    requires forall x :: x in xs ==> Genuine(x)
    requires forall y :: y in ys ==> Genuine(y)
    requires MeaningMany(xs) == MeaningMany(ys)
    ensures |xs| == |ys| && |EncodeMany(le, xs)| == |EncodeMany(le, ys)|
    decreases xs, 0
  {
    var a, b := MeaningMany(xs), MeaningMany(ys);
    assert |a| == |xs| && |b| == |ys|;
    if xs != [] {
      assert a[0] == b[0] && a[1..] == b[1..];
      assert a[1..] == MeaningMany(xs[1..]) && b[1..] == MeaningMany(ys[1..]);
      SameLength(le, xs[0], ys[0]);
      SameLengthMany(le, xs[1..], ys[1..]);
    }
  }

  lemma {:induction false} SameLengthEntry(le: bool, e: Entry, f: Entry)
    requires GenuineEntry(e) && GenuineEntry(f) && KeyOf(e) == KeyOf(f) && ValOf(e) == ValOf(f)
    ensures |EncodeEntry(le, e)| == |EncodeEntry(le, f)|
    decreases e, 0
  {
    match (e, f)
    case (Entry(k, x), Entry(l, y)) =>
      SameLength(le, k, l);
      SameLength(le, x, y);
  }

  lemma {:induction false} SameLengthEntries(le: bool, es: seq<Entry>, fs: seq<Entry>)
    requires DistinctKeys(es) && DistinctKeys(fs)
    requires forall e :: e in es ==> GenuineEntry(e)
    requires forall f :: f in fs ==> GenuineEntry(f)
    requires Collect(es) == Collect(fs)
    ensures |es| == |fs| && |EncodeEntries(le, es)| == |EncodeEntries(le, fs)|
    decreases es, 0
  {
    if es == [] {
      if fs != [] {
        CollectAt(fs, 0);
        assert false;
      }
    } else {
      var k := KeyOf(es[0]);
      CollectAt(es, 0);
      CollectKeys(fs, k);
      var j :| 0 <= j < |fs| && KeyOf(fs[j]) == k;
      CollectAt(fs, j);
      CollectRemove(es, 0);
      CollectRemove(fs, j);
      DistinctRemove(fs, j);
      EncodeRemove(le, fs, j);
      assert Remove(es, 0) == es[1..];
      SameLengthEntry(le, es[0], fs[j]);
      SameLengthEntries(le, es[1..], Remove(fs, j));
    }
  }

  ghost predicate SameEntry(e: Entry, f: Entry)
  {
    KeyOf(e) == KeyOf(f) && ValOf(e) == ValOf(f)
  }

  ghost predicate Has(fs: seq<Entry>, e: Entry)
  {
    exists j :: 0 <= j < |fs| && SameEntry(e, fs[j])
  }

  ghost predicate Within(es: seq<Entry>, fs: seq<Entry>)
  {
    forall i :: 0 <= i < |es| ==> Has(fs, es[i])
  }

  ghost predicate Part(m: map<Meaning, Meaning>, n: map<Meaning, Meaning>)
  {
    forall k :: k in m ==> k in n && n[k] == m[k]
  }

  lemma HasIsIn(fs: seq<Entry>, e: Entry)
    requires DistinctKeys(fs)
    ensures Has(fs, e) <==> KeyOf(e) in Collect(fs) && Collect(fs)[KeyOf(e)] == ValOf(e)
  {
    CollectKeys(fs, KeyOf(e));
    if Has(fs, e) {
      var j :| 0 <= j < |fs| && SameEntry(e, fs[j]);
      CollectAt(fs, j);
    } else if KeyOf(e) in Collect(fs) {
      var j :| 0 <= j < |fs| && KeyOf(fs[j]) == KeyOf(e);
      CollectAt(fs, j);
      assert !SameEntry(e, fs[j]);
    }
  }

  lemma WithinIsPart(es: seq<Entry>, fs: seq<Entry>)
    requires DistinctKeys(es) && DistinctKeys(fs)
    ensures Within(es, fs) <==> Part(Collect(es), Collect(fs))
  {
    forall i | 0 <= i < |es|
      ensures Has(fs, es[i]) <==> KeyOf(es[i]) in Collect(fs) && Collect(fs)[KeyOf(es[i])] == ValOf(es[i])
      ensures KeyOf(es[i]) in Collect(es) && Collect(es)[KeyOf(es[i])] == ValOf(es[i])
    {
      HasIsIn(fs, es[i]);
      CollectAt(es, i);
    }
    hide Has, Collect, KeyOf, ValOf;
    if Within(es, fs) {
      forall k | k in Collect(es)
        ensures k in Collect(fs) && Collect(fs)[k] == Collect(es)[k]
      {
        CollectKeys(es, k);
      }
    }
  }

  /** With distinct keys, two entry lists collect to one map exactly if each holds the other's entries. */
  lemma CollectSame(es: seq<Entry>, fs: seq<Entry>)
    requires DistinctKeys(es) && DistinctKeys(fs)
    ensures Collect(es) == Collect(fs) <==> Within(es, fs) && Within(fs, es)
  {
    hide Collect, Within, KeyOf, ValOf;
    WithinIsPart(es, fs);
    WithinIsPart(fs, es);
    PartBothWays(Collect(es), Collect(fs));
  }

  lemma PartBothWays(m: map<Meaning, Meaning>, n: map<Meaning, Meaning>)
    ensures m == n <==> Part(m, n) && Part(n, m)
  {
    if Part(m, n) && Part(n, m) {
      assert m.Keys == n.Keys;
    }
  }

  lemma PermutedWithin(es: seq<Entry>, fs: seq<Entry>)
    requires multiset(es) == multiset(fs)
    ensures Within(es, fs)
  {
    forall i | 0 <= i < |es|
      ensures Has(fs, es[i])
    {
      assert es[i] in multiset(fs);
      var j :| 0 <= j < |fs| && fs[j] == es[i];
      assert SameEntry(es[i], fs[j]);
    }
  }

  /** Every order of the same entries denotes the same map. */
  lemma PermutedEntries(es: seq<Entry>, fs: seq<Entry>)
    requires DistinctKeys(es) && DistinctKeys(fs) && multiset(es) == multiset(fs)
    ensures MeaningOf(VMap(es)) == MeaningOf(VMap(fs))
  {
    PermutedWithin(es, fs);
    PermutedWithin(fs, es);
    CollectSame(es, fs);
  }

  // ---------------------------------------------------------------- with floats read back in the other order

  /** rs and gs are es and fs with every key and value replaced, equal ones by equal ones. */
  ghost predicate Mirrors(es: seq<Entry>, fs: seq<Entry>, rs: seq<Entry>, gs: seq<Entry>)
  {
    && |rs| == |es| && |gs| == |fs|
    && (forall i, j :: 0 <= i < |es| && 0 <= j < |fs| ==>
          (KeyOf(es[i]) == KeyOf(fs[j]) <==> KeyOf(rs[i]) == KeyOf(gs[j])))
    && (forall i, j :: 0 <= i < |es| && 0 <= j < |fs| ==> (SameEntry(es[i], fs[j]) <==> SameEntry(rs[i], gs[j])))
  }

  lemma MirroredWithin(es: seq<Entry>, fs: seq<Entry>, rs: seq<Entry>, gs: seq<Entry>)
    requires Mirrors(es, fs, rs, gs)
    ensures Within(es, fs) <==> Within(rs, gs)
    ensures Within(fs, es) <==> Within(gs, rs)
  {
    forall i | 0 <= i < |es|
      ensures Has(fs, es[i]) <==> Has(gs, rs[i])
    {
      MirroredHas(es[i], fs, rs[i], gs);
    }
    forall j | 0 <= j < |fs|
      ensures Has(es, fs[j]) <==> Has(rs, gs[j])
    {
      forall i | 0 <= i < |es|
        ensures SameEntry(fs[j], es[i]) <==> SameEntry(gs[j], rs[i])
      {
        assert SameEntry(es[i], fs[j]) <==> SameEntry(rs[i], gs[j]);
      }
      MirroredHas(fs[j], es, gs[j], rs);
    }
    hide Has;
  }

  lemma MirroredHas(e: Entry, fs: seq<Entry>, r: Entry, gs: seq<Entry>)
    requires |fs| == |gs|
    requires forall j :: 0 <= j < |fs| ==> (SameEntry(e, fs[j]) <==> SameEntry(r, gs[j]))
    ensures Has(fs, e) <==> Has(gs, r)
  {
    hide SameEntry;
    if j :| 0 <= j < |fs| && SameEntry(e, fs[j]) {
      assert SameEntry(r, gs[j]);
    }
    if j :| 0 <= j < |gs| && SameEntry(r, gs[j]) {
      assert SameEntry(e, fs[j]);
    }
  }

  /** If each key of gs is one of rs, the keys of gs are distinct too. */
  lemma MirroredDistinct(es: seq<Entry>, fs: seq<Entry>, rs: seq<Entry>, gs: seq<Entry>)
    requires Mirrors(es, fs, rs, gs) && DistinctKeys(fs)
    requires forall j :: 0 <= j < |gs| ==> exists i :: 0 <= i < |rs| && KeyOf(rs[i]) == KeyOf(gs[j])
    ensures DistinctKeys(gs)
  {
    forall j, l | 0 <= j < l < |gs|
      ensures KeyOf(gs[j]) != KeyOf(gs[l])
    {
      var i :| 0 <= i < |rs| && KeyOf(rs[i]) == KeyOf(gs[j]);
      assert KeyOf(es[i]) == KeyOf(fs[j]);
    }
  }

  lemma MirroredCollect(es: seq<Entry>, fs: seq<Entry>, rs: seq<Entry>, gs: seq<Entry>)
    requires Mirrors(es, fs, rs, gs) && DistinctKeys(es) && DistinctKeys(fs) && DistinctKeys(rs)
    ensures Collect(es) == Collect(fs) <==> Collect(rs) == Collect(gs)
  {
    CollectSame(es, fs);
    MirroredWithin(es, fs, rs, gs);
    if Within(gs, rs) {
      forall j | 0 <= j < |gs|
        ensures exists i :: 0 <= i < |rs| && KeyOf(rs[i]) == KeyOf(gs[j])
      {
        var i :| 0 <= i < |rs| && SameEntry(gs[j], rs[i]);
        assert KeyOf(rs[i]) == KeyOf(gs[j]);
      }
      MirroredDistinct(es, fs, rs, gs);
      CollectSame(rs, gs);
    } else if Collect(rs) == Collect(gs) {
      forall j | 0 <= j < |gs|
        ensures exists i :: 0 <= i < |rs| && KeyOf(rs[i]) == KeyOf(gs[j])
      {
        CollectKeys(gs, KeyOf(gs[j]));
        CollectKeys(rs, KeyOf(gs[j]));
      }
      MirroredDistinct(es, fs, rs, gs);
      CollectSame(rs, gs);
    }
  }

  /** Which kind of composite a value is; 0 for the others. */
  function Shape(v: Value): (n: nat)
  {
    match v
    case VSome(_) => 1
    case VSeq(_) => 2
    case VMap(_) => 3
    case VStruct(_) => 4
    case VNewtype(_) => 5
    case _ => 0
  }

  lemma ShapeKept(le: bool, v: Value)
    ensures Shape(Readback(le, v)) == Shape(v)
  {
  }

  lemma ShapeShows(v: Value, w: Value)
    requires MeaningOf(v) == MeaningOf(w)
    ensures Shape(v) == Shape(w)
  {
  }

  lemma AtomMeaning(v: Value)
    requires Shape(v) == 0
    ensures MeaningOf(v) == Atom(v)
  {
  }

  lemma SameReadbackAtom(le: bool, v: Value, w: Value)
    requires Shape(v) == 0 == Shape(w)
    ensures MeaningOf(v) == MeaningOf(w) <==> MeaningOf(Readback(le, v)) == MeaningOf(Readback(le, w))
  {
    ShapeKept(le, v);
    ShapeKept(le, w);
    ReadbackTwice(le, v);
    ReadbackTwice(le, w);
    AtomMeaning(v);
    AtomMeaning(w);
    AtomMeaning(Readback(le, v));
    AtomMeaning(Readback(le, w));
    hide MeaningOf, Readback;
  }

  /** What comes back keeps meanings together and apart: equal if and only if they were. */
  lemma {:induction false} SameReadback(le: bool, v: Value, w: Value)
    requires Genuine(v) && Genuine(w)
    ensures MeaningOf(v) == MeaningOf(w) <==> MeaningOf(Readback(le, v)) == MeaningOf(Readback(le, w))
    decreases v, 2
  {
    if Shape(v) == Shape(w) {
      SameReadbackInside(le, v, w);
    } else {
      ShapeKept(le, v);
      ShapeKept(le, w);
      if MeaningOf(v) == MeaningOf(w) {
        ShapeShows(v, w);
      }
      if MeaningOf(Readback(le, v)) == MeaningOf(Readback(le, w)) {
        ShapeShows(Readback(le, v), Readback(le, w));
      }
    }
    hide MeaningOf, Readback, Genuine, Shape;
  }

  /** The meaning of a composite and of what it comes back as, by its parts. */
  lemma InsideMeaning(le: bool, v: Value)
    ensures v.VSome? ==>
              && MeaningOf(v) == MSome(MeaningOf(v.some))
              && MeaningOf(Readback(le, v)) == MSome(MeaningOf(Readback(le, v.some)))
    ensures v.VSeq? ==>
              && MeaningOf(v) == MSeq(MeaningMany(v.elems))
              && MeaningOf(Readback(le, v)) == MSeq(MeaningMany(ReadbackMany(le, v.elems)))
    ensures v.VMap? ==>
              && MeaningOf(v) == MMap(Collect(v.entries))
              && MeaningOf(Readback(le, v)) == MMap(Collect(ReadbackEntries(le, v.entries)))
    ensures v.VStruct? ==>
              && MeaningOf(v) == MStruct(MeaningMany(v.fields))
              && MeaningOf(Readback(le, v)) == MStruct(MeaningMany(ReadbackMany(le, v.fields)))
    ensures v.VNewtype? ==>
              && MeaningOf(v) == MNewtype(MeaningOf(v.inner))
              && MeaningOf(Readback(le, v)) == MNewtype(MeaningOf(Readback(le, v.inner)))
  {
    hide MeaningMany, Collect, ReadbackMany, ReadbackEntries, Reread32, Reread64;
  }

  lemma {:induction false} SameReadbackInside(le: bool, v: Value, w: Value)
    requires Genuine(v) && Genuine(w) && Shape(v) == Shape(w)
    ensures MeaningOf(v) == MeaningOf(w) <==> MeaningOf(Readback(le, v)) == MeaningOf(Readback(le, w))
    decreases v, 1
  {
    hide MeaningOf, MeaningMany, Collect, Readback, ReadbackMany, ReadbackEntries;
    InsideMeaning(le, v);
    InsideMeaning(le, w);
    match v
    case VSome(x) => SameReadback(le, x, w.some);
    case VSeq(xs) => SameReadbackMany(le, xs, w.elems);
    case VMap(es) => SameReadbackEntries(le, es, w.entries);
    case VStruct(xs) => SameReadbackMany(le, xs, w.fields);
    case VNewtype(x) => SameReadback(le, x, w.inner);
    case _ => SameReadbackAtom(le, v, w);
  }

  lemma ConsSame<T>(x: T, xs: seq<T>, y: T, ys: seq<T>)
    ensures [x] + xs == [y] + ys <==> x == y && xs == ys
  {
    if [x] + xs == [y] + ys {
      assert x == ([x] + xs)[0] && xs == ([x] + xs)[1..];
    }
  }

  lemma {:induction false} SameReadbackMany(le: bool, xs: seq<Value>, ys: seq<Value>)
    requires forall x :: x in xs ==> Genuine(x)
    requires forall y :: y in ys ==> Genuine(y)
    ensures MeaningMany(xs) == MeaningMany(ys)
            <==> MeaningMany(ReadbackMany(le, xs)) == MeaningMany(ReadbackMany(le, ys))
    decreases xs, 0
  {
    hide Genuine, MeaningOf, Readback;
    if xs != [] && ys != [] {
      SameReadback(le, xs[0], ys[0]);
      SameReadbackMany(le, xs[1..], ys[1..]);
      var rs, qs := ReadbackMany(le, xs), ReadbackMany(le, ys);
      assert rs[0] == Readback(le, xs[0]) && rs[1..] == ReadbackMany(le, xs[1..]);
      assert qs[0] == Readback(le, ys[0]) && qs[1..] == ReadbackMany(le, ys[1..]);
      ConsSame(MeaningOf(xs[0]), MeaningMany(xs[1..]), MeaningOf(ys[0]), MeaningMany(ys[1..]));
      ConsSame(MeaningOf(rs[0]), MeaningMany(rs[1..]), MeaningOf(qs[0]), MeaningMany(qs[1..]));
    } else {
      assert |MeaningMany(xs)| == |xs| && |MeaningMany(ys)| == |ys|;
      assert |MeaningMany(ReadbackMany(le, xs))| == |xs| && |MeaningMany(ReadbackMany(le, ys))| == |ys|;
    }
  }

  lemma {:induction false} SameReadbackEntry(le: bool, e: Entry, f: Entry)
    requires GenuineEntry(e) && GenuineEntry(f)
    ensures KeyOf(e) == KeyOf(f) <==> KeyOf(ReadbackEntry(le, e)) == KeyOf(ReadbackEntry(le, f))
    ensures SameEntry(e, f) <==> SameEntry(ReadbackEntry(le, e), ReadbackEntry(le, f))
    decreases e, 0
  {
    match (e, f)
    case (Entry(k, x), Entry(l, y)) =>
      SameReadback(le, k, l);
      SameReadback(le, x, y);
      hide MeaningOf, Readback, Genuine;
  }

  lemma {:induction false} ReadbackAt(le: bool, es: seq<Entry>, i: nat)
    requires i < |es|
    ensures ReadbackEntries(le, es)[i] == ReadbackEntry(le, es[i])
  {
    if i > 0 {
      ReadbackAt(le, es[1..], i - 1);
    }
  }

  lemma {:induction false} SameReadbackEntries(le: bool, es: seq<Entry>, fs: seq<Entry>)
    requires DistinctKeys(es) && DistinctKeys(fs)
    requires forall e :: e in es ==> GenuineEntry(e)
    requires forall f :: f in fs ==> GenuineEntry(f)
    ensures Collect(es) == Collect(fs) <==> Collect(ReadbackEntries(le, es)) == Collect(ReadbackEntries(le, fs))
    decreases es, 1
  {
    hide GenuineEntry, KeyOf, ValOf, SameEntry, ReadbackEntry, ReadbackEntries, Collect;
    var rs, gs := ReadbackEntries(le, es), ReadbackEntries(le, fs);
    forall i, j | 0 <= i < |es| && 0 <= j < |fs|
      ensures KeyOf(es[i]) == KeyOf(fs[j]) <==> KeyOf(rs[i]) == KeyOf(gs[j])
      ensures SameEntry(es[i], fs[j]) <==> SameEntry(rs[i], gs[j])
    {
      ReadbackAt(le, es, i);
      ReadbackAt(le, fs, j);
      assert es[i] in es && fs[j] in fs;
      SameReadbackEntry(le, es[i], fs[j]);
    }
    forall i, j | 0 <= i < j < |es|
      ensures KeyOf(rs[i]) != KeyOf(rs[j])
    {
      ReadbackAt(le, es, i);
      ReadbackAt(le, es, j);
      assert es[i] in es && es[j] in es;
      SameReadbackEntry(le, es[i], es[j]);
    }
    MirroredCollect(es, fs, rs, gs);
  }

  /**
   Whatever orders the two sides iterate in, in either mode and with any floats: equal lengths, and one
   meaning comes back, which is the one that was written if the floats are safe.
   */
  lemma OrderIndependent(le: bool, s: Schema, v: Value, w: Value)
    requires HasType(s, v) && HasType(s, w)
    requires Genuine(v) && Genuine(w) && MeaningOf(v) == MeaningOf(w)
    ensures |ToBytes(le, v)| == |ToBytes(le, w)|
    ensures var r, q := FromBytes(le, s, ToBytes(le, v)), FromBytes(le, s, ToBytes(le, w));
            && r.Ok? && q.Ok? && MeaningOf(r.value) == MeaningOf(q.value)
            && (FloatsSafe(le, v) ==> MeaningOf(r.value) == MeaningOf(w))
  {
    SameLength(le, v, w);
    SameReadback(le, v, w);
    ReadsBack(le, s, v, []);
    ReadsBack(le, s, w, []);
    assert Encode(le, v) + [] == Encode(le, v) && Encode(le, w) + [] == Encode(le, w);
    ReadbackSame(le, v);
    hide Encode, Decode, MeaningOf, Readback, Genuine, HasType, FloatsSafe;
  }
}
