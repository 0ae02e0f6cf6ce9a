/** The tagged 1/3/5/9-byte unsigned integer. */
module Varint {
  import opened Words
  import opened Results

  const TAG16: byte := 0xFD
  const TAG32: byte := 0xFE
  const TAG64: byte := 0xFF

  /** The writer. Its four-byte arm starts at 0xFFFF01, so 0x10000..=0xFFFF00 take nine bytes. */
  function Put(le: bool, n: u64): (s: seq<byte>)
    ensures s != []
  {
    PowersOf256();
    if n <= 0xFC then [n]
    else if n <= 0xFFFF then [TAG16] + PutWord(le, n, 2)
    else if 0xFFFF01 <= n <= 0xFFFF_FFFF then [TAG32] + PutWord(le, n, 4)
    else [TAG64] + PutWord(le, n, 8)
  }

  /** How many bytes follow a first byte. */
  function TailSize(tag: byte): (k: nat)
    ensures k == 0 || k == 2 || k == 4 || k == 8
  {
    if tag == TAG64 then 8 else if tag == TAG32 then 4 else if tag == TAG16 then 2 else 0
  }

  /** The reader. */
  function Parse(le: bool, inp: seq<byte>): (r: Parsed<u64>)
    ensures r.Done? ==> 1 <= r.used <= |inp|
    ensures r.Fail? ==> r.error == Eof
  {
    if inp == [] then Fail(Eof) else
    var k := TailSize(inp[0]);
    if |inp| - 1 < k then Fail(Eof) else
    PowersOf256();
    Done(if k == 0 then inp[0] else GetWord(le, inp[1..1 + k]), 1 + k)
  }

  /** The k-byte-payload form of n, the four shapes a reader may meet. */
  function Form(le: bool, n: u64, k: nat): (s: seq<byte>)
    requires Fits(n, k)
    ensures |s| == 1 + k
  {
    PowersOf256();
    if k == 0 then [n]
    else [if k == 2 then TAG16 else if k == 4 then TAG32 else TAG64] + PutWord(le, n, k)
  }

  predicate Fits(n: u64, k: nat)
  {
    (k == 0 && n <= 0xFC) || (k == 2 && n < TWO_16) || (k == 4 && n < TWO_32) || k == 8
  }

  /** Every accepted encoding of n, as a whole input. */
  ghost predicate Accepts(le: bool, s: seq<byte>, n: u64)
  {
    Parse(le, s) == Done(n, |s|)
  }

  function Forms(le: bool, n: u64): (r: set<seq<byte>>)
  {
    (if Fits(n, 0) then {Form(le, n, 0)} else {}) + LongForms(le, n)
  }

  function LongForms(le: bool, n: u64): (r: set<seq<byte>>)
  {
    (if Fits(n, 2) then {Form(le, n, 2)} else {}) + WideForms(le, n)
  }

  function WideForms(le: bool, n: u64): (r: set<seq<byte>>)
  {
    (if Fits(n, 4) then {Form(le, n, 4)} else {}) + {Form(le, n, 8)}
  }

  lemma FormParses(le: bool, n: u64, k: nat, rest: seq<byte>)
    requires Fits(n, k)
    ensures Parse(le, Form(le, n, k) + rest) == Done(n, 1 + k)
  {
    PowersOf256();
    var s := Form(le, n, k) + rest;
    if k != 0 {
      GetPut(le, n, k);
      assert s[1..1 + k] == PutWord(le, n, k);
    }
  }

  lemma ParsedIsForm(le: bool, s: seq<byte>, n: u64)
    requires Accepts(le, s, n)
    ensures Fits(n, |s| - 1) && s == Form(le, n, |s| - 1)
  {
    PowersOf256();
    var k := |s| - 1;
    assert k == TailSize(s[0]);
    if k != 0 {
      PutGet(le, s[1..1 + k]);
      assert s == [s[0]] + s[1..1 + k];
    }
  }

  lemma CountWide(le: bool, n: u64)
    ensures |WideForms(le, n)| == if n <= 0xFFFF_FFFF then 2 else 1
    ensures forall y :: y in WideForms(le, n) ==> |y| >= 5
  {
    if Fits(n, 4) {
      AddLength(Form(le, n, 4), {Form(le, n, 8)});
    } else {
      assert WideForms(le, n) == {Form(le, n, 8)};
    }
  }

  lemma CountLong(le: bool, n: u64)
    ensures |LongForms(le, n)| == if n <= 0xFFFF then 3 else if n <= 0xFFFF_FFFF then 2 else 1
    ensures forall y :: y in LongForms(le, n) ==> |y| >= 3
  {
    CountWide(le, n);
    if Fits(n, 2) {
      AddLength(Form(le, n, 2), WideForms(le, n));
    } else {
      assert LongForms(le, n) == WideForms(le, n);
    }
  }

  lemma CountForms(le: bool, n: u64)
    ensures |Forms(le, n)| ==
            if n <= 0xFC then 4 else if n <= 0xFFFF then 3 else if n <= 0xFFFF_FFFF then 2 else 1
  {
    CountLong(le, n);
    if Fits(n, 0) {
      AddLength(Form(le, n, 0), LongForms(le, n));
    } else {
      assert Forms(le, n) == LongForms(le, n);
    }
  }

  lemma AddLength(x: seq<byte>, s: set<seq<byte>>)
    requires forall y :: y in s ==> |y| != |x|
    ensures |{x} + s| == 1 + |s|
  {
    assert x !in s;
    assert ({x} + s) - {x} == s;
  }

  lemma AcceptsForm(le: bool, s: seq<byte>, n: u64)
    ensures Accepts(le, s, n) <==> s in Forms(le, n)
    ensures Accepts(le, s, n) ==> |s| in {1, 3, 5, 9}
  {
    hide Parse, Form;
    if Accepts(le, s, n) {
      ParsedIsForm(le, s, n);
    }
    if s in Forms(le, n) {
      var k :| Fits(n, k) && s == Form(le, n, k);
      FormParses(le, n, k, []);
      assert s + [] == s;
    }
  }

  /** The accepted language: one, three, five or nine bytes, and exactly 4, 3, 2 or 1 encodings by magnitude. */
  lemma Language(le: bool, n: u64)
    ensures forall s :: Accepts(le, s, n) <==> s in Forms(le, n)
    ensures forall s :: Accepts(le, s, n) ==> |s| in {1, 3, 5, 9}
    ensures |Forms(le, n)| ==
            if n <= 0xFC then 4 else if n <= 0xFFFF then 3 else if n <= 0xFFFF_FFFF then 2 else 1
  {
    CountForms(le, n);
    hide Accepts, Forms;
    forall s
      ensures Accepts(le, s, n) <==> s in Forms(le, n)
      ensures Accepts(le, s, n) ==> |s| in {1, 3, 5, 9}
    {
      AcceptsForm(le, s, n);
    }
  }

  /** The writer always picks an accepted encoding, and a shortest one except on one range. */
  lemma WriterPicks(le: bool, n: u64)
    ensures Put(le, n) in Forms(le, n)
    ensures (forall s :: s in Forms(le, n) ==> |Put(le, n)| <= |s|) <==> !(0x1_0000 <= n <= 0xFFFF00)
  {
    if 0x1_0000 <= n <= 0xFFFF00 {
      assert Form(le, n, 4) in Forms(le, n);
    }
  }

  lemma RoundTrip(le: bool, n: u64, rest: seq<byte>)
    ensures Parse(le, Put(le, n) + rest) == Done(n, |Put(le, n)|)
  {
    var k := |Put(le, n)| - 1;
    assert Fits(n, k) && Put(le, n) == Form(le, n, k);
    FormParses(le, n, k, rest);
  }

  /** A parse is settled by the bytes it uses: more input changes nothing, less is an end of file. */
  lemma Local(le: bool, a: seq<byte>, b: seq<byte>)
    requires Parse(le, a).Done?
    requires Agree(a, b, Parse(le, a).used)
    ensures Parse(le, b) == if |b| >= Parse(le, a).used then Parse(le, a) else Fail(Eof)
  {
    if b != [] {
      assert b[0] == a[0];
      var k := TailSize(a[0]);
      if |b| >= 1 + k {
        assert b[1..1 + k] == a[1..1 + k];
      }
    }
  }

  /** a and b have the same first n bytes, as far as b has them. */
  ghost predicate Agree(a: seq<byte>, b: seq<byte>, n: nat)
  {
    n <= |a| && forall i :: 0 <= i < n && i < |b| ==> a[i] == b[i]
  }

  lemma AgreeSplit(a: seq<byte>, b: seq<byte>, n: nat, m: nat)
    requires Agree(a, b, n + m)
    ensures Agree(a, b, n)
    ensures n <= |b| ==> Agree(a[n..], b[n..], m)
  {
  }

  /** The wire format pinned down on concrete values, either side of each boundary. */
  lemma ShortExamples()
    ensures Put(false, 0xFC) == [0xFC]
    ensures Put(false, 0xFD) == [0xFD, 0x00, 0xFD]
    ensures Put(true, 0x1234) == [0xFD, 0x34, 0x12]
  {
    PowersOf256();
    assert BigEndian(0xFD, 2) == [0x00, 0xFD];
    assert LittleEndian(0x1234, 2) == [0x34, 0x12];
  }

  lemma NineByteExample()
    ensures Put(false, 0x1_0000) == [0xFF, 0, 0, 0, 0, 0, 1, 0, 0]
  {
    PowersOf256();
    assert BigEndian(0x1_0000, 8) == [0, 0, 0, 0, 0, 1, 0, 0];
  }

  lemma FiveByteExamples()
    ensures Put(false, 0xFFFF01) == [0xFE, 0x00, 0xFF, 0xFF, 0x01]
    ensures Put(true, 0xFFFF01) == [0xFE, 0x01, 0xFF, 0xFF, 0x00]
  {
    PowersOf256();
    assert BigEndian(0xFFFF01, 4) == [0x00, 0xFF, 0xFF, 0x01];
    assert LittleEndian(0xFFFF01, 4) == [0x01, 0xFF, 0xFF, 0x00];
  }
}
