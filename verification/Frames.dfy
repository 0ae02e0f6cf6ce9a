/**
 Length-prefixed frames on a byte stream, and the reassembly loop as a state machine: one transition
 per socket read. The connection class is proved against OnRead and Feed.
 */
module Frames {
  import opened Seqs
  import opened Words
  import opened Results
  import opened Codec

  type Body = seq<byte>

  /** `(len as u32).to_be_bytes()`: lengths wrap at 2^32. */
  function Header(len: nat): (h: seq<byte>)
    ensures |h| == 4
  {
    PowersOf256();
    BigEndian(len % TWO_32, 4)
  }

  function Frame(p: Body): (f: seq<byte>)
    ensures |f| == 4 + |p|
  {
    Header(|p|) + p
  }

  function Stream(ps: seq<Body>): (s: seq<byte>)
  {
    if ps == [] then [] else Frame(ps[0]) + Stream(ps[1..])
  }

  /**
   The test made after each read. The length word is already taken off when the rest is compared
   with `total_len + 4`, so a frame is let go only once four bytes past its end have arrived.
   */
  function TryFrame(buffer: seq<byte>): (p: Option<Body>)
    ensures p.Some? ==> 8 + |p.value| <= |buffer|
  {
    if |buffer| <= 4 then None else
    var total := FromBigEndian(buffer[..4]);
    if |buffer| - 4 < total + 4 then None else Some(buffer[4..4 + total])
  }

  datatype Status = Open | Disconnected | Malformed(error: Error)

  /** The receiving side of a connection, with the history of what it took in and gave out. */
  datatype Reader = Reader(
    received: seq<byte>,
    buffer: seq<byte>,
    frames: seq<Body>,
    packets: seq<Value>,
    status: Status)

  const NEW_READER: Reader := Reader([], [], [], [], Open)

  /** One completed socket read while `next` is polled. An empty read means the peer is gone. */
  function OnRead(s: Schema, r: Reader, chunk: seq<byte>): (r': Reader)
  {
    if r.status != Open then r
    else if chunk == [] then r.(status := Disconnected)
    else Attempt(s, Absorb(r, chunk))
  }

  function Absorb(r: Reader, chunk: seq<byte>): (r': Reader)
  {
    r.(received := r.received + chunk, buffer := r.buffer + chunk)
  }

  function Attempt(s: Schema, r: Reader): (r': Reader)
  {
    match TryFrame(r.buffer)
    case None => r
    case Some(p) => Release(s, r, p)
  }

  function Release(s: Schema, r: Reader, p: Body): (r': Reader)
    requires 4 + |p| <= |r.buffer|
  {
    match FromBytes(false, s, p)
    case Err(e) => r.(status := Malformed(e))
    case Ok(v) => r.(buffer := r.buffer[4 + |p|..], frames := r.frames + [p], packets := r.packets + [v])
  }

  function Feed(s: Schema, r: Reader, chunks: seq<seq<byte>>): (r': Reader)
  {
    if chunks == [] then r else OnRead(s, Feed(s, r, chunks[..|chunks| - 1]), chunks[|chunks| - 1])
  }

  function Concat(chunks: seq<seq<byte>>): (s: seq<byte>)
  {
    if chunks == [] then [] else Concat(chunks[..|chunks| - 1]) + chunks[|chunks| - 1]
  }

  lemma FeedSnoc(s: Schema, r: Reader, chunks: seq<seq<byte>>, chunk: seq<byte>)
    ensures Feed(s, r, chunks + [chunk]) == OnRead(s, Feed(s, r, chunks), chunk)
  {
    hide OnRead;
    assert (chunks + [chunk])[..|chunks|] == chunks;
  }

  lemma ConcatSnoc(chunks: seq<seq<byte>>, chunk: seq<byte>)
    ensures Concat(chunks + [chunk]) == Concat(chunks) + chunk
  {
    assert (chunks + [chunk])[..|chunks|] == chunks;
  }

  // ---------------------------------------------------------------- streams and single frames

  lemma {:induction false} StreamConcat(a: seq<Body>, b: seq<Body>)
    ensures Stream(a + b) == Stream(a) + Stream(b)
  {
    hide Frame;
    if a == [] {
      assert a + b == b;
    } else {
      var f, x, y := Frame(a[0]), Stream(a[1..]), Stream(b);
      StreamConcat(a[1..], b);
      assert (a + b)[0] == a[0] && (a + b)[1..] == a[1..] + b;
      assert Stream(a + b) == f + (x + y);
      Assoc(f, x, y);
    }
  }

  lemma StreamSnoc(ps: seq<Body>, p: Body)
    ensures Stream(ps + [p]) == Stream(ps) + Frame(p)
  {
    StreamConcat(ps, [p]);
    assert Stream([p]) == Frame(p) + Stream([p][1..]);
  }

  lemma HeaderValue(len: nat)
    ensures FromBigEndian(Header(len)) == len % TWO_32
  {
    PowersOf256();
    GetPut(false, len % TWO_32, 4);
  }

  /** On a stream that continues with p's frame, p is let go exactly when four bytes past it are in. */
  lemma TryFrameOnStream(p: Body, tail: seq<byte>, buffer: seq<byte>)
    requires |p| < TWO_32 && buffer <= Frame(p) + tail
    ensures TryFrame(buffer) == if |buffer| >= 8 + |p| then Some(p) else None
  {
    if |buffer| > 4 {
      assert buffer[..4] == Header(|p|);
      HeaderValue(|p|);
      if |buffer| >= 8 + |p| {
        assert buffer[4..4 + |p|] == p;
      }
    }
  }

  /** A payload survives framing exactly when its length fits the 32-bit header. */
  lemma FrameReadsBack(p: Body, tail: seq<byte>)
    requires |tail| >= 4
    ensures TryFrame(Frame(p) + tail) == Some(p) <==> |p| < TWO_32
  {
    if |p| < TWO_32 {
      TryFrameOnStream(p, tail, Frame(p) + tail);
    } else {
      HeaderValue(|p|);
      assert (Frame(p) + tail)[..4] == Header(|p|);
    }
  }

  /** What was let go, framed again, is what left the buffer. */
  lemma TryFrameTakesFrame(buffer: seq<byte>)
    requires TryFrame(buffer).Some?
    ensures var p := TryFrame(buffer).value; |p| < TWO_32 && buffer[..4 + |p|] == Frame(p)
  {
    PowersOf256();
    var p := TryFrame(buffer).value;
    PutGet(false, buffer[..4]);
    assert buffer[..4 + |p|] == buffer[..4] + buffer[4..4 + |p|];
  }

  /** A read that completes a frame which does not decode ends the connection, and hands nothing over. */
  lemma BadFrameFails(s: Schema, r: Reader, chunk: seq<byte>, p: Body, tail: seq<byte>, e: Error)
    requires r.status == Open && chunk != []
    requires |p| < TWO_32 && FromBytes(false, s, p) == Err(e)
    requires r.buffer + chunk <= Frame(p) + tail && |r.buffer + chunk| >= 8 + |p|
    ensures OnRead(s, r, chunk) == Absorb(r, chunk).(status := Malformed(e))
  {
    hide FromBytes;
    TryFrameOnStream(p, tail, r.buffer + chunk);
    hide TryFrame, Frame;
  }

  /** Nothing more is read after a failure, and an empty read is one. */
  lemma AfterFailure(s: Schema, r: Reader, chunk: seq<byte>)
    ensures r.status != Open ==> OnRead(s, r, chunk) == r
    ensures r.status == Open && chunk == [] ==> OnRead(s, r, chunk) == r.(status := Disconnected)
  {
  }

  // ---------------------------------------------------------------- any bytes at all

  /** A frame body short enough for its header, with the packet it decodes to. */
  predicate Carries(s: Schema, body: Body, packet: Value)
  {
    |body| < TWO_32 && FromBytes(false, s, body) == Ok(packet)
  }

  /** Consumed bytes then buffer are the bytes received; consumed bytes are whole frames, each decoded. */
  ghost predicate Coherent(s: Schema, r: Reader)
  {
    && r.received == Stream(r.frames) + r.buffer
    && |r.packets| == |r.frames|
    && forall i :: 0 <= i < |r.frames| ==> Carries(s, r.frames[i], r.packets[i])
  }

  lemma AbsorbCoherent(s: Schema, r: Reader, chunk: seq<byte>)
    requires Coherent(s, r)
    ensures Coherent(s, Absorb(r, chunk))
  {
    hide FromBytes;
    assert r.received + chunk == Stream(r.frames) + (r.buffer + chunk);
  }

  lemma ReleaseCoherent(s: Schema, r: Reader, p: Body)
    requires Coherent(s, r) && TryFrame(r.buffer) == Some(p)
    ensures Coherent(s, Release(s, r, p))
  {
    hide FromBytes;
    TryFrameTakesFrame(r.buffer);
    hide TryFrame, Frame;
    StreamSnoc(r.frames, p);
    var rest := r.buffer[4 + |p|..];
    assert r.buffer == Frame(p) + rest;
    assert r.received == Stream(r.frames + [p]) + rest;
  }

  lemma OnReadCoherent(s: Schema, r: Reader, chunk: seq<byte>)
    requires Coherent(s, r)
    ensures Coherent(s, OnRead(s, r, chunk))
  {
    hide Coherent, FromBytes, TryFrame, Release, Absorb;
    if r.status == Open && chunk != [] {
      AbsorbCoherent(s, r, chunk);
      var got := Absorb(r, chunk);
      if TryFrame(got.buffer).Some? {
        ReleaseCoherent(s, got, TryFrame(got.buffer).value);
      }
    } else {
      StatusCoherent(s, r);
    }
  }

  lemma StatusCoherent(s: Schema, r: Reader)
    requires Coherent(s, r)
    ensures Coherent(s, r.(status := Disconnected))
  {
  }

  lemma {:induction false} FeedCoherent(s: Schema, r: Reader, chunks: seq<seq<byte>>)
    requires Coherent(s, r)
    ensures Coherent(s, Feed(s, r, chunks))
  {
    if chunks != [] {
      FeedCoherent(s, r, chunks[..|chunks| - 1]);
      OnReadCoherent(s, Feed(s, r, chunks[..|chunks| - 1]), chunks[|chunks| - 1]);
    }
  }

  lemma {:induction false} FeedConcat(s: Schema, r: Reader, a: seq<seq<byte>>, b: seq<seq<byte>>)
    ensures Feed(s, r, a + b) == Feed(s, Feed(s, r, a), b)
  {
    hide OnRead;
    if b == [] {
      assert a + b == a;
    } else {
      FeedConcat(s, r, a, b[..|b| - 1]);
      assert (a + b)[..|a + b| - 1] == a + b[..|b| - 1];
    }
  }

  lemma NoReads(s: Schema, r: Reader, chunks: seq<seq<byte>>)
    ensures Feed(s, r, chunks[..0]) == r
  {
    assert chunks[..0] == [];
  }

  // ---------------------------------------------------------------- the delivery law

  /** How many leading frames end at least four bytes before position len of the stream. */
  function Released(ps: seq<Body>, len: int): (n: nat)
    ensures n <= |ps|
  {
    if ps == [] || |Frame(ps[0])| + 4 > len then 0 else 1 + Released(ps[1..], len - |Frame(ps[0])|)
  }

  lemma {:induction false} ReleasedIff(ps: seq<Body>, len: int, n: nat)
    requires n < |ps|
    ensures Released(ps, len) > n <==> |Stream(ps[..n + 1])| + 4 <= len
  {
    var rest := len - |Frame(ps[0])|;
    assert ps[..n + 1][1..] == ps[1..][..n];
    if n > 0 {
      ReleasedIff(ps[1..], rest, n - 1);
    }
  }

  lemma {:induction false} ReleasedMonotone(ps: seq<Body>, a: int, b: int)
    requires a <= b
    ensures Released(ps, a) <= Released(ps, b)
  {
    if ps != [] {
      ReleasedMonotone(ps[1..], a - |Frame(ps[0])|, b - |Frame(ps[0])|);
    }
  }

  /** A stream that ends at a frame boundary never lets its last frame go, but lets go all others. */
  lemma {:induction false} LastFrameHeldBack(ps: seq<Body>)
    requires ps != []
    ensures Released(ps, |Stream(ps)|) == |ps| - 1
  {
    if |ps| == 1 {
      assert Stream(ps) == Frame(ps[0]) + [];
    } else {
      LastFrameHeldBack(ps[1..]);
      assert |Stream(ps[1..])| >= 4 by {
        assert Stream(ps[1..]) == Frame(ps[1]) + Stream(ps[1..][1..]);
      }
    }
  }

  /** The peer's payloads: short enough for the header, and readable at the schema. */
  ghost predicate Sendable(s: Schema, ps: seq<Body>)
  {
    forall p :: p in ps ==> |p| < TWO_32 && FromBytes(false, s, p).Ok?
  }

  /** The reads so far: none empty, together a prefix of the peer's stream. */
  ghost predicate ReadsOf(ps: seq<Body>, chunks: seq<seq<byte>>)
  {
    && (forall i :: 0 <= i < |chunks| ==> chunks[i] != [])
    && Concat(chunks) <= Stream(ps)
  }

  /** Frames delivered by the first n reads. */
  function Delivered(s: Schema, chunks: seq<seq<byte>>, n: nat): (d: nat)
    requires n <= |chunks|
  {
    |Feed(s, NEW_READER, chunks[..n]).frames|
  }

  /** Leading frames whose end plus four bytes lies within the bytes of the first n reads. */
  function Available(ps: seq<Body>, chunks: seq<seq<byte>>, n: nat): (a: nat)
    requires n <= |chunks|
  {
    Released(ps, |Concat(chunks[..n])|)
  }

  lemma {:induction false} ConcatPrefix(chunks: seq<seq<byte>>, n: nat)
    requires n <= |chunks|
    ensures Concat(chunks[..n]) <= Concat(chunks)
    decreases |chunks| - n
  {
    if n == |chunks| {
      assert chunks[..n] == chunks;
    } else {
      ConcatPrefix(chunks, n + 1);
      TakeTake(chunks, n + 1, n);
      PrefixTransitive(Concat(chunks[..n]), Concat(chunks[..n + 1]), Concat(chunks));
    }
  }

  lemma ReadsOfPrefix(ps: seq<Body>, chunks: seq<seq<byte>>, n: nat)
    requires ReadsOf(ps, chunks) && n <= |chunks|
    ensures ReadsOf(ps, chunks[..n])
  {
    hide Stream, Concat;
    ConcatPrefix(chunks, n);
    PrefixTransitive(Concat(chunks[..n]), Concat(chunks), Stream(ps));
  }

  /** The reader holds the frames delivered and, in the buffer, the rest of what it received. */
  ghost predicate Tracks(s: Schema, ps: seq<Body>, chunks: seq<seq<byte>>, r: Reader)
  {
    && r.status == Open
    && r.received == Concat(chunks)
    && |r.frames| <= |ps|
    && r.frames == ps[..|r.frames|]
  }

  /** After n whole frames of the stream and some of the rest, the test finds frame n or nothing. */
  lemma NextFrame(ps: seq<Body>, n: nat, b: seq<byte>)
    requires forall p :: p in ps ==> |p| < TWO_32
    requires n <= |ps| && Stream(ps[..n]) + b <= Stream(ps)
    ensures TryFrame(b) == if Released(ps, |Stream(ps[..n]) + b|) > n then Some(ps[n]) else None
  {
    hide TryFrame, Frame;
    StreamConcat(ps[..n], ps[n..]);
    SplitAt(ps, n);
    var m := |Stream(ps[..n])|;
    assert b == (Stream(ps[..n]) + b)[m..];
    assert Stream(ps)[m..] == Stream(ps[n..]);
    assert b <= Stream(ps[n..]);
    if n == |ps| {
      NothingInNothing();
    } else {
      assert ps[n] in ps;
      TakeMore(ps, n);
      TryFrameOnStream(ps[n], Stream(ps[n + 1..]), b);
      StreamSnoc(ps[..n], ps[n]);
      ReleasedIff(ps, m + |b|, n);
    }
  }

  lemma NothingInNothing()
    ensures TryFrame([]) == None
  {
  }

  lemma OneAttempt(s: Schema, ps: seq<Body>, n: nat, r: Reader)
    requires Sendable(s, ps) && n <= |ps| && r.frames == ps[..n]
    requires r.received == Stream(ps[..n]) + r.buffer && r.received <= Stream(ps)
    ensures Attempt(s, r).status == r.status
    ensures Attempt(s, r).received == r.received
    ensures Attempt(s, r).frames == if Released(ps, |r.received|) > n then ps[..n + 1] else ps[..n]
  {
    hide FromBytes, TryFrame, Stream, Released;
    NextFrame(ps, n, r.buffer);
    if TryFrame(r.buffer).Some? {
      assert ps[n] in ps;
      TakeMore(ps, n);
    }
  }

  /** One read hands over at most one frame: the next one, if it is available. */
  lemma OneRead(s: Schema, ps: seq<Body>, n: nat, r: Reader, chunk: seq<byte>)
    requires Sendable(s, ps) && Coherent(s, r) && r.status == Open && chunk != []
    requires n <= |ps| && r.frames == ps[..n]
    requires r.received + chunk <= Stream(ps)
    ensures var r' := OnRead(s, r, chunk);
            && r'.status == Open
            && r'.received == r.received + chunk
            && r'.frames == (if Released(ps, |r'.received|) > n then ps[..n + 1] else ps[..n])
  {
    hide Attempt, Released, Stream;
    AbsorbCoherent(s, r, chunk);
    OneAttempt(s, ps, n, Absorb(r, chunk));
  }

  lemma {:induction false} FeedTracks(s: Schema, ps: seq<Body>, chunks: seq<seq<byte>>)
    requires Sendable(s, ps) && ReadsOf(ps, chunks)
    ensures Tracks(s, ps, chunks, Feed(s, NEW_READER, chunks)) && Coherent(s, Feed(s, NEW_READER, chunks))
  {
    if chunks != [] {
      var before := chunks[..|chunks| - 1];
      ReadsOfPrefix(ps, chunks, |chunks| - 1);
      FeedTracks(s, ps, before);
      hide Stream, Released, Coherent, OnRead;
      var r := Feed(s, NEW_READER, before);
      OneRead(s, ps, |r.frames|, r, chunks[|chunks| - 1]);
      OnReadCoherent(s, r, chunks[|chunks| - 1]);
    }
  }

  /** One more read: one more frame if one is available that was not yet delivered, else none. */
  lemma DeliveredStep(s: Schema, ps: seq<Body>, chunks: seq<seq<byte>>, n: nat)
    requires Sendable(s, ps) && ReadsOf(ps, chunks) && n < |chunks|
    ensures Delivered(s, chunks, n + 1)
         == Delivered(s, chunks, n) + (if Available(ps, chunks, n + 1) > Delivered(s, chunks, n) then 1 else 0)
  {
    var before, after := chunks[..n], chunks[..n + 1];
    ReadsOfPrefix(ps, chunks, n);
    ReadsOfPrefix(ps, chunks, n + 1);
    FeedTracks(s, ps, before);
    hide Stream, Released, Coherent, OnRead;
    assert after[..|after| - 1] == before && after[|after| - 1] == chunks[n];
    assert Concat(after) == Concat(before) + chunks[n];
    var r := Feed(s, NEW_READER, before);
    OneRead(s, ps, |r.frames|, r, chunks[n]);
  }

  lemma AvailableGrows(ps: seq<Body>, chunks: seq<seq<byte>>, n: nat)
    requires n < |chunks|
    ensures Available(ps, chunks, n) <= Available(ps, chunks, n + 1)
  {
    assert chunks[..n + 1][..n] == chunks[..n];
    ReleasedMonotone(ps, |Concat(chunks[..n])|, |Concat(chunks[..n + 1])|);
  }

  lemma StartsAtNothing(s: Schema, ps: seq<Body>, chunks: seq<seq<byte>>)
    ensures Delivered(s, chunks, 0) == 0 == Available(ps, chunks, 0)
  {
    assert chunks[..0] == [];
  }

  /**
   With `next` polled throughout, the number of frames delivered after n reads is the least of
   Available(k) + (n - k) over 0 <= k <= n: a frame waits for its bytes and for its turn, one per read.
   */
  lemma {:induction false} DeliveryLaw(s: Schema, ps: seq<Body>, chunks: seq<seq<byte>>, n: nat)
    requires Sendable(s, ps) && ReadsOf(ps, chunks) && n <= |chunks|
    ensures forall k :: 0 <= k <= n ==> Delivered(s, chunks, n) <= Available(ps, chunks, k) + (n - k)
    ensures exists k :: 0 <= k <= n && Delivered(s, chunks, n) == Available(ps, chunks, k) + (n - k)
  {
    hide Delivered, Available, Sendable, ReadsOf;
    if n == 0 {
      StartsAtNothing(s, ps, chunks);
    } else {
      DeliveryLaw(s, ps, chunks, n - 1);
      DeliveredStep(s, ps, chunks, n - 1);
      AvailableGrows(ps, chunks, n - 1);
      var d, d' := Delivered(s, chunks, n - 1), Delivered(s, chunks, n);
      assert d <= Available(ps, chunks, n - 1);
      if d' == d {
        assert d' == Available(ps, chunks, n) + (n - n);
      } else {
        var k :| 0 <= k <= n - 1 && d == Available(ps, chunks, k) + (n - 1 - k);
        assert d' == Available(ps, chunks, k) + (n - k);
      }
    }
  }

  /** So the last frame of a stream is never delivered while nothing follows it. */
  lemma LastFrameUndelivered(s: Schema, ps: seq<Body>, chunks: seq<seq<byte>>)
    requires ps != [] && Sendable(s, ps) && ReadsOf(ps, chunks)
    ensures Delivered(s, chunks, |chunks|) < |ps|
  {
    DeliveryLaw(s, ps, chunks, |chunks|);
    assert Delivered(s, chunks, |chunks|) <= Available(ps, chunks, |chunks|) + (|chunks| - |chunks|);
    assert chunks[..|chunks|] == chunks;
    LastFrameHeldBack(ps);
    ReleasedMonotone(ps, |Concat(chunks)|, |Stream(ps)|);
  }

  /** A frame on the wire: the length in big-endian order, then the payload. */
  lemma FrameExample()
    ensures Frame([7, 8, 9]) == [0, 0, 0, 3, 7, 8, 9]
  {
    PowersOf256();
    assert BigEndian(3, 4) == [0, 0, 0, 3];
  }
}
