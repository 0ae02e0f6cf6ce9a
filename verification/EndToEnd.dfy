/**
 One direction of a connection, end to end: senders enqueue on a bounded channel, the event loop
 writes one frame at a time, the peer reassembles. A run is any sequence of enabled events, so any
 interleaving of sends, any chunking and any cancellation of the peer's `next`.
 */
module EndToEnd {
  import opened Words
  import opened Results
  import opened Seqs
  import opened Codec
  import opened Frames
  import FloatOrder
  import RoundTrip

  const CAPACITY: nat := 256

  /** Where the `select!` loop is; Stopped means it returned and its channel receiver is gone. */
  datatype Phase = Selecting | Writing | Stopped

  datatype Link = Link(
    schema: Schema,
    accepted: seq<Value>,         // sends that returned Ok, in order
    refused: seq<Value>,          // packets handed back by send
    queue: seq<Value>,            // in the channel
    taken: seq<Value>,            // received from the channel by the loop
    phase: Phase,
    unsent: seq<byte>,            // of the frame being written
    wire: seq<byte>,              // bytes the socket took
    spawned: seq<Value>,          // packets this side's own `next` returned, each given to a task
    arrivals: seq<seq<byte>>,     // the peer's completed reads
    reader: Reader)

  datatype Event =
    | Send(packet: Value)
    | Recv
    | WriteSome(n: nat)
    | WriteDone
    | WriteFails
    | Shutdown
    | NextReturns(packet: Value)
    | NextFails
    | PeerReads(n: nat)
    | PeerDropsNext

  function Start(s: Schema): (l: Link)
  {
    Link(s, [], [], [], [], Selecting, [], [], [], [], NEW_READER)
  }

  /** The bytes `write` puts out for a packet. */
  function Bytes(p: Value): (b: Body)
  {
    ToBytes(false, p)
  }

  function Bodies(ps: seq<Value>): (bs: seq<Body>)
    ensures |bs| == |ps|
    ensures forall i :: 0 <= i < |ps| ==> bs[i] == Bytes(ps[i])
  {
    seq(|ps|, i requires 0 <= i < |ps| => Bytes(ps[i]))
  }

  /** A full channel makes a sender wait. The handler of a `select!` arm runs to its end before the next choice. */
  predicate Enabled(l: Link, e: Event)
  {
    match e
    case Send(_) => l.phase == Stopped || |l.queue| < CAPACITY
    case Recv => l.phase == Selecting && l.queue != []
    case WriteSome(n) => l.phase == Writing && 1 <= n <= |l.unsent|
    case WriteDone => l.phase == Writing && l.unsent == []
    case WriteFails => l.phase == Writing
    case Shutdown => l.phase == Selecting
    case NextReturns(_) => l.phase == Selecting
    case NextFails => l.phase == Selecting
    case PeerReads(n) => l.reader.status == Open && 1 <= n && |l.reader.received| + n <= |l.wire|
    case PeerDropsNext => true
  }

  function Apply(l: Link, e: Event): (l': Link)
    requires Enabled(l, e)
  {
    match e
    case Send(p) =>
      if l.phase == Stopped then l.(refused := l.refused + [p])
      else l.(accepted := l.accepted + [p], queue := l.queue + [p])
    case Recv =>
      l.(taken := l.taken + [l.queue[0]], queue := l.queue[1..], unsent := Frame(Bytes(l.queue[0])), phase := Writing)
    case WriteSome(n) => l.(wire := l.wire + l.unsent[..n], unsent := l.unsent[n..])
    case WriteDone => l.(phase := Selecting)
    case WriteFails => l.(phase := Stopped)
    case Shutdown => l.(phase := Stopped)
    case NextReturns(p) => l.(spawned := l.spawned + [p])
    case NextFails => l.(phase := Stopped)
    case PeerReads(n) =>
      var from := |l.reader.received|;
      var chunk := l.wire[from..from + n];
      l.(arrivals := l.arrivals + [chunk], reader := OnRead(l.schema, l.reader, chunk))
    case PeerDropsNext => l
  }

  predicate Runs(l: Link, es: seq<Event>)
    decreases es
  {
    es == [] || (Enabled(l, es[0]) && Runs(Apply(l, es[0]), es[1..]))
  }

  function Exec(l: Link, es: seq<Event>): (l': Link)
    requires Runs(l, es)
    decreases es
  {
    if es == [] then l else Exec(Apply(l, es[0]), es[1..])
  }

  /** A run cut short, and its next event. */
  lemma {:induction false} ExecStep(l: Link, es: seq<Event>, n: nat)
    requires Runs(l, es) && n < |es|
    ensures Runs(l, es[..n]) && Runs(l, es[..n + 1])
    ensures Enabled(Exec(l, es[..n]), es[n])
    ensures Exec(l, es[..n + 1]) == Apply(Exec(l, es[..n]), es[n])
    decreases n
  {
    hide Enabled, Apply;
    assert es[..n + 1][0] == es[0];
    if n == 0 {
      assert es[..0] == [] && es[..1][1..] == [];
    } else {
      assert es[..n][1..] == es[1..][..n - 1] && es[..n + 1][1..] == es[1..][..n];
      ExecStep(Apply(l, es[0]), es[1..], n - 1);
    }
  }

  // ---------------------------------------------------------------- the invariant

  /** Accepted packets are those taken and those still queued; frames go out whole and in order. */
  ghost predicate Outbound(l: Link)
  {
    && l.accepted == l.taken + l.queue
    && |l.queue| <= CAPACITY
    && l.wire + l.unsent == Stream(Bodies(l.taken))
    && (l.phase == Selecting ==> l.unsent == [])
    && (l.unsent != [] ==> l.taken != [] && |l.unsent| <= |Frame(Bytes(l.taken[|l.taken| - 1]))|)
  }

  /** The peer has read a prefix of the wire, and lost none of it. */
  ghost predicate Inbound(l: Link)
  {
    && Coherent(l.schema, l.reader)
    && l.reader == Feed(l.schema, NEW_READER, l.arrivals)
    && l.reader.received == Concat(l.arrivals)
    && l.reader.received <= l.wire
    && forall i :: 0 <= i < |l.arrivals| ==> l.arrivals[i] != []
  }

  lemma BodiesSnoc(ps: seq<Value>, p: Value)
    ensures Bodies(ps + [p]) == Bodies(ps) + [Bytes(p)]
  {
  }

  lemma RecvKeepsOutbound(l: Link)
    requires Outbound(l) && Enabled(l, Recv)
    ensures Outbound(Apply(l, Recv))
  {
    hide Frame, Bytes;
    var p := l.queue[0];
    BodiesSnoc(l.taken, p);
    StreamSnoc(Bodies(l.taken), Bytes(p));
    assert l.queue == [p] + l.queue[1..];
    Assoc(l.taken, [p], l.queue[1..]);
  }

  lemma StepKeepsOutbound(l: Link, e: Event)
    requires Outbound(l) && Enabled(l, e)
    ensures Outbound(Apply(l, e))
  {
    hide Frame, Bytes, Stream, Bodies;
    match e
    case Send(p) => Assoc(l.taken, l.queue, [p]);
    case Recv => RecvKeepsOutbound(l);
    case WriteSome(n) =>
      SplitAt(l.unsent, n);
      Assoc(l.wire, l.unsent[..n], l.unsent[n..]);
    case _ =>
  }

  lemma OnReadReceives(s: Schema, r: Reader, chunk: seq<byte>)
    requires r.status == Open && chunk != []
    ensures OnRead(s, r, chunk).received == r.received + chunk
  {
    hide FromBytes, TryFrame;
  }

  lemma GrowsByRead(received: seq<byte>, wire: seq<byte>, n: nat)
    requires received <= wire && |received| + n <= |wire|
    ensures received + wire[|received|..|received| + n] <= wire
  {
  }

  /** The peer reads one more chunk off the wire. */
  lemma ReadKeepsInbound(l: Link, chunk: seq<byte>)
    requires Inbound(l) && l.reader.status == Open && chunk != [] && l.reader.received + chunk <= l.wire
    ensures Inbound(l.(arrivals := l.arrivals + [chunk], reader := OnRead(l.schema, l.reader, chunk)))
  {
    hide OnRead, Coherent, Feed, Concat;
    FeedSnoc(l.schema, NEW_READER, l.arrivals, chunk);
    ConcatSnoc(l.arrivals, chunk);
    OnReadCoherent(l.schema, l.reader, chunk);
    OnReadReceives(l.schema, l.reader, chunk);
  }

  lemma StepKeepsInbound(l: Link, e: Event)
    requires Inbound(l) && Enabled(l, e)
    ensures Inbound(Apply(l, e))
  {
    hide OnRead, Coherent, Bytes, Frame, Feed, Concat;
    match e
    case PeerReads(n) =>
      var from := |l.reader.received|;
      GrowsByRead(l.reader.received, l.wire, n);
      ReadKeepsInbound(l, l.wire[from..from + n]);
    case _ =>
  }

  lemma {:induction false} RunKeeps(l: Link, es: seq<Event>)
    requires Outbound(l) && Inbound(l) && Runs(l, es)
    ensures Outbound(Exec(l, es)) && Inbound(Exec(l, es)) && Exec(l, es).schema == l.schema
    decreases es
  {
    if es != [] {
      hide Outbound, Inbound, Enabled, Apply;
      SchemaFixed(l, es[0]);
      StepKeepsOutbound(l, es[0]);
      StepKeepsInbound(l, es[0]);
      RunKeeps(Apply(l, es[0]), es[1..]);
    }
  }

  lemma SchemaFixed(l: Link, e: Event)
    requires Enabled(l, e)
    ensures Apply(l, e).schema == l.schema
  {
    hide Bytes, Frame, OnRead;
  }

  lemma StartHolds(s: Schema)
    ensures Outbound(Start(s)) && Inbound(Start(s))
  {
    assert Bodies([]) == [];
  }

  // ---------------------------------------------------------------- first in, first out

  /** One frame stream inside another starts with the same frames. */
  lemma {:induction false} FramesArePrefix(fs: seq<Body>, ps: seq<Body>)
    requires forall f :: f in fs ==> |f| < TWO_32
    requires forall p :: p in ps ==> |p| < TWO_32
    requires Stream(fs) <= Stream(ps)
    ensures fs <= ps
  {
    if fs != [] {
      assert |Stream(fs)| >= 4;
      assert ps != [];
      SameFirstFrame(fs[0], Stream(fs[1..]), ps[0], Stream(ps[1..]));
      FramesArePrefix(fs[1..], ps[1..]);
      assert fs == [fs[0]] + fs[1..] && ps == [ps[0]] + ps[1..];
    }
  }

  lemma SameFirstFrame(f: Body, s: seq<byte>, p: Body, t: seq<byte>)
    requires |f| < TWO_32 && |p| < TWO_32
    requires Frame(f) + s <= Frame(p) + t
    ensures f == p && s <= t
  {
    HeaderValue(|f|);
    HeaderValue(|p|);
    var a, b := Frame(f) + s, Frame(p) + t;
    assert a[..4] == Header(|f|) && b[..4] == Header(|p|) && a[..4] == b[..4];
    assert a[4..4 + |f|] == f && b[4..4 + |f|] == p;
    assert a[4 + |f|..] == s && b[4 + |f|..] == t;
  }

  /** A packet of the connection's type whose encoding fits the frame header. */
  ghost predicate Transmissible(s: Schema, p: Value)
  {
    HasType(s, p) && |Bytes(p)| < TWO_32
  }

  ghost predicate AllTransmissible(l: Link)
  {
    forall p :: p in l.accepted ==> Transmissible(l.schema, p)
  }

  lemma TakenReadBack(l: Link, i: nat)
    requires Outbound(l) && AllTransmissible(l) && i < |l.taken|
    ensures |Bodies(l.taken)[i]| < TWO_32
    ensures FromBytes(false, l.schema, Bodies(l.taken)[i]) == Ok(l.taken[i])
  {
    hide FromBytes, Stream, Frame;
    assert l.accepted[i] == l.taken[i];
    assert Transmissible(l.schema, l.taken[i]);
    RoundTrip.RoundTrips(false, l.schema, l.taken[i]);
  }

  lemma StatePrefix(l: Link)
    requires Outbound(l) && Inbound(l) && AllTransmissible(l)
    ensures l.reader.packets <= l.taken <= l.accepted
    ensures l.reader.frames <= Bodies(l.taken)
  {
    hide FromBytes, Bytes, Frame;
    var fs, ps := l.reader.frames, Bodies(l.taken);
    forall p | p in ps
      ensures |p| < TWO_32
    {
      var i :| 0 <= i < |ps| && ps[i] == p;
      TakenReadBack(l, i);
    }
    assert Stream(fs) <= Stream(ps) by {
      PrefixTransitive(Stream(fs), l.reader.received, l.wire);
      PrefixTransitive(Stream(fs), l.wire, Stream(ps));
    }
    FramesArePrefix(fs, ps);
    forall i | 0 <= i < |fs|
      ensures l.reader.packets[i] == l.taken[i]
    {
      TakenReadBack(l, i);
    }
  }

  /**
   First in, first out: in every run, the packets the peer's `next` has returned are a prefix, in
   acceptance order, of the packets whose send was accepted.
   */
  lemma Fifo(s: Schema, es: seq<Event>)
    requires Runs(Start(s), es)
    requires AllTransmissible(Exec(Start(s), es))
    ensures var l := Exec(Start(s), es); l.reader.packets <= l.accepted
  {
    hide Outbound, Inbound;
    StartHolds(s);
    RunKeeps(Start(s), es);
    StatePrefix(Exec(Start(s), es));
  }

  /**
   The exact end-to-end count: after all the peer's reads, it has the least of (frames available by
   read k) + (reads since k); in particular never the newest packet the loop took up.
   */
  lemma EndToEndDelivery(s: Schema, es: seq<Event>)
    requires Runs(Start(s), es)
    requires AllTransmissible(Exec(Start(s), es))
    ensures var l := Exec(Start(s), es);
            var n := |l.arrivals|;
            && (forall k :: 0 <= k <= n ==>
                  |l.reader.packets| <= Available(Bodies(l.taken), l.arrivals, k) + (n - k))
            && (exists k :: 0 <= k <= n &&
                  |l.reader.packets| == Available(Bodies(l.taken), l.arrivals, k) + (n - k))
            && (l.taken != [] ==> |l.reader.packets| < |l.taken|)
  {
    StartHolds(s);
    RunKeeps(Start(s), es);
    DeliveryOf(Exec(Start(s), es));
  }

  lemma DeliveryOf(l: Link)
    requires Outbound(l) && Inbound(l) && AllTransmissible(l)
    ensures var n := |l.arrivals|;
            && (forall k :: 0 <= k <= n ==>
                  |l.reader.packets| <= Available(Bodies(l.taken), l.arrivals, k) + (n - k))
            && (exists k :: 0 <= k <= n &&
                  |l.reader.packets| == Available(Bodies(l.taken), l.arrivals, k) + (n - k))
            && (l.taken != [] ==> |l.reader.packets| < |l.taken|)
  {
    hide FromBytes, Bytes, Frame, Available;
    var ps, n := Bodies(l.taken), |l.arrivals|;
    forall p | p in ps
      ensures |p| < TWO_32 && FromBytes(false, l.schema, p).Ok?
    {
      var i :| 0 <= i < |ps| && ps[i] == p;
      TakenReadBack(l, i);
    }
    assert Sendable(l.schema, ps);
    PrefixTransitive(Concat(l.arrivals), l.wire, Stream(ps));
    assert ReadsOf(ps, l.arrivals);
    assert l.arrivals[..n] == l.arrivals;
    assert |l.reader.packets| == Delivered(l.schema, l.arrivals, n);
    hide Delivered, Outbound, Inbound, Sendable, ReadsOf;
    DeliveryLaw(l.schema, ps, l.arrivals, n);
    if l.taken != [] {
      LastFrameUndelivered(l.schema, ps, l.arrivals);
    }
  }

  // ---------------------------------------------------------------- conservation on the sending side

  /** Packets whose frame is on the wire in full. */
  function Written(l: Link): (ps: seq<Value>)
  {
    if l.unsent == [] || l.taken == [] then l.taken else l.taken[..|l.taken| - 1]
  }

  /**
   Nothing accepted is lost or reordered: it is written, or the one being written, or queued; the
   wire holds the written frames whole, then the beginning of at most one more.
   */
  lemma Conservation(s: Schema, es: seq<Event>)
    requires Runs(Start(s), es)
    ensures var l := Exec(Start(s), es);
            var rest := l.taken[|Written(l)|..];
            && l.accepted == Written(l) + rest + l.queue
            && |rest| <= 1 && |l.queue| <= CAPACITY
            && Stream(Bodies(Written(l))) <= l.wire
            && (rest == [] ==> l.wire == Stream(Bodies(Written(l))))
            && (rest != [] ==> l.wire + l.unsent == Stream(Bodies(Written(l))) + Frame(Bytes(rest[0])))
  {
    StartHolds(s);
    RunKeeps(Start(s), es);
    ConservationOf(Exec(Start(s), es));
  }

  lemma ConservationOf(l: Link)
    requires Outbound(l)
    ensures var rest := l.taken[|Written(l)|..];
            && l.accepted == Written(l) + rest + l.queue
            && |rest| <= 1 && |l.queue| <= CAPACITY
            && Stream(Bodies(Written(l))) <= l.wire
            && (rest == [] ==> l.wire == Stream(Bodies(Written(l))))
            && (rest != [] ==> l.wire + l.unsent == Stream(Bodies(Written(l))) + Frame(Bytes(rest[0])))
  {
    hide Bytes, Frame, Stream, Bodies;
    var w := Written(l);
    SplitAt(l.taken, |w|);
    assert l.taken[..|w|] == w;
    if l.unsent == [] {
      assert l.wire + [] == l.wire;
    } else {
      var p := l.taken[|w|];
      assert l.taken == w + [p];
      BodiesSnoc(w, p);
      StreamSnoc(Bodies(w), Bytes(p));
      PrefixBySize(Stream(Bodies(w)), Frame(Bytes(p)), l.wire, l.unsent);
    }
  }

  lemma PrefixBySize(a: seq<byte>, b: seq<byte>, c: seq<byte>, d: seq<byte>)
    requires a + b == c + d && |d| <= |b|
    ensures a <= c
  {
    assert |a| <= |c|;
    assert a == (a + b)[..|a|] == (c + d)[..|a|] == c[..|a|];
  }

  /** The packets a run tries to send. */
  function Sends(es: seq<Event>): (ps: seq<Value>)
  {
    if es == [] then []
    else (if es[0].Send? then [es[0].packet] else []) + Sends(es[1..])
  }

  /** Once the loop has returned nothing is written and no task spawned, and every send hands its own packet back. */
  lemma {:induction false} AfterStop(l: Link, es: seq<Event>)
    requires l.phase == Stopped && Runs(l, es)
    ensures var l' := Exec(l, es);
            && l'.phase == Stopped
            && l'.wire == l.wire && l'.accepted == l.accepted && l'.taken == l.taken && l'.spawned == l.spawned
            && l'.refused == l.refused + Sends(es)
    decreases es
  {
    hide Enabled, Apply;
    if es == [] {
      assert l.refused + [] == l.refused;
    } else {
      StoppedStep(l, es[0]);
      AfterStop(Apply(l, es[0]), es[1..]);
      if es[0].Send? {
        Assoc(l.refused, [es[0].packet], Sends(es[1..]));
      } else {
        assert [] + Sends(es[1..]) == Sends(es[1..]);
      }
    }
  }

  lemma StoppedStep(l: Link, e: Event)
    requires l.phase == Stopped && Enabled(l, e)
    ensures var l' := Apply(l, e);
            && l'.phase == Stopped
            && l'.wire == l.wire && l'.accepted == l.accepted && l'.taken == l.taken && l'.spawned == l.spawned
            && l'.refused == if e.Send? then l.refused + [e.packet] else l.refused
  {
    hide Bytes, Frame, OnRead;
  }

  // ---------------------------------------------------------------- what the loop does with what happens to it

  /** The packets this side's own `next` returned in a run. */
  function Returned(es: seq<Event>): (ps: seq<Value>)
  {
    if es == [] then []
    else (if es[0].NextReturns? then [es[0].packet] else []) + Returned(es[1..])
  }

  /** What makes the loop return. */
  predicate Ends(e: Event)
  {
    e.WriteFails? || e.Shutdown? || e.NextFails?
  }

  lemma LoopStep(l: Link, e: Event)
    requires Enabled(l, e)
    ensures Apply(l, e).spawned == l.spawned + if e.NextReturns? then [e.packet] else []
    ensures Apply(l, e).phase == Stopped <==> l.phase == Stopped || Ends(e)
    ensures l.phase == Stopped ==> !Ends(e) && !e.NextReturns?
  {
    hide Bytes, Frame, OnRead;
  }

  /**
   In every run each packet `next` returned was given to a task, once and in order, and the loop has
   returned if and only if a write or a read failed or a shutdown was signalled.
   */
  lemma {:induction false} LoopLaw(l: Link, es: seq<Event>)
    requires Runs(l, es)
    ensures Exec(l, es).spawned == l.spawned + Returned(es)
    ensures Exec(l, es).phase == Stopped <==> l.phase == Stopped || exists e :: e in es && Ends(e)
    decreases es
  {
    if es != [] {
      LoopStep(l, es[0]);
      hide Enabled, Apply;
      LoopLaw(Apply(l, es[0]), es[1..]);
      Assoc(l.spawned, if es[0].NextReturns? then [es[0].packet] else [], Returned(es[1..]));
      if e :| e in es && Ends(e) {
        assert e == es[0] || e in es[1..];
      }
    } else {
      assert l.spawned + [] == l.spawned;
    }
  }

  /** Packets taken up in a run, and writes finished. */
  function TakenUp(es: seq<Event>): (n: nat)
  {
    if es == [] then 0 else (if es[0] == Recv then 1 else 0) + TakenUp(es[1..])
  }

  function Finished(es: seq<Event>): (n: nat)
  {
    if es == [] then 0 else (if es[0] == WriteDone then 1 else 0) + Finished(es[1..])
  }

  /** 1 while a packet is being written. */
  function Busy(l: Link): (n: nat)
  {
    if l.phase == Writing then 1 else 0
  }

  lemma BusyStep(l: Link, e: Event)
    requires Enabled(l, e) && Apply(l, e).phase != Stopped
    ensures l.phase != Stopped
    ensures Busy(Apply(l, e)) + (if e == WriteDone then 1 else 0) == Busy(l) + if e == Recv then 1 else 0
    ensures |Apply(l, e).taken| == |l.taken| + if e == Recv then 1 else 0
  {
    hide Bytes, Frame, OnRead;
  }

  /** While the loop runs it is writing exactly when it has taken up one packet more than it finished. */
  lemma {:induction false} OneAtATime(l: Link, es: seq<Event>)
    requires Runs(l, es) && Exec(l, es).phase != Stopped
    ensures l.phase != Stopped
    ensures Busy(Exec(l, es)) + Finished(es) == Busy(l) + TakenUp(es)
    ensures |Exec(l, es).taken| == |l.taken| + TakenUp(es)
    decreases es
  {
    if es != [] {
      hide Enabled, Apply;
      OneAtATime(Apply(l, es[0]), es[1..]);
      BusyStep(l, es[0]);
    }
  }

  lemma UnsentStep(l: Link, e: Event)
    requires Outbound(l) && Enabled(l, e) && (l.phase == Stopped ==> l.unsent == []) && !e.WriteFails?
    ensures Apply(l, e).phase == Stopped ==> Apply(l, e).unsent == []
  {
    hide Bytes, Frame, OnRead, Stream, Bodies;
  }

  /** A shutdown or a failed read never cuts a frame short: unless a write failed, all that was taken up is written. */
  lemma {:induction false} EndsBetweenFrames(l: Link, es: seq<Event>)
    requires Outbound(l) && Runs(l, es) && (l.phase == Stopped ==> l.unsent == [])
    requires forall e :: e in es ==> !e.WriteFails?
    ensures var l' := Exec(l, es);
            l'.phase == Stopped ==> l'.unsent == [] && l'.wire == Stream(Bodies(l'.taken))
    decreases es
  {
    if es != [] {
      StepKeepsOutbound(l, es[0]);
      UnsentStep(l, es[0]);
      hide Outbound, Enabled, Apply, Stream, Bodies;
      EndsBetweenFrames(Apply(l, es[0]), es[1..]);
    } else {
      hide Stream, Bodies;
      assert l.wire + [] == l.wire;
    }
  }

  lemma RunsCons(l: Link, e: Event, es: seq<Event>)
    requires Enabled(l, e) && Runs(Apply(l, e), es)
    ensures Runs(l, [e] + es) && Exec(l, [e] + es) == Exec(Apply(l, e), es)
  {
    hide Enabled, Apply;
    assert ([e] + es)[1..] == es;
  }

  /** What the loop does next with the packets it has. */
  function NextMove(l: Link): (e: Event)
    requires l.phase == Writing || (l.phase == Selecting && l.queue != [])
  {
    if l.phase == Selecting then Recv
    else if l.unsent == [] then WriteDone
    else WriteSome(|l.unsent|)
  }

  lemma MoveOn(l: Link)
    requires Outbound(l) && (l.phase == Writing || (l.phase == Selecting && l.queue != []))
    ensures Enabled(l, NextMove(l))
    ensures var l' := Apply(l, NextMove(l));
            && l'.phase != Stopped && l'.accepted == l.accepted
            && (l.phase == Selecting ==> |l'.queue| < |l.queue|)
            && (l.phase == Writing ==>
                  l'.queue == l.queue && (l'.phase == Selecting || (l.unsent != [] && l'.unsent == [])))
  {
    hide Bytes, Frame, OnRead, Stream, Bodies;
  }

  /** From every state of the running loop all accepted packets can be written out, by the loop alone. */
  lemma {:induction false} CanDrain(l: Link) returns (es: seq<Event>)
    requires Outbound(l) && l.phase != Stopped
    ensures Runs(l, es)
    ensures var l' := Exec(l, es);
            && l'.accepted == l.accepted && l'.phase == Selecting && l'.queue == []
            && l'.wire == Stream(Bodies(l.accepted))
    decreases |l.queue|, if l.phase == Selecting then 0 else if l.unsent == [] then 1 else 2
  {
    if l.phase == Selecting && l.queue == [] {
      es := [];
      assert l.taken + [] == l.taken && l.wire + [] == l.wire;
    } else {
      MoveOn(l);
      StepKeepsOutbound(l, NextMove(l));
      hide Outbound, Stream, Bodies, Apply, Enabled, NextMove;
      var rest := CanDrain(Apply(l, NextMove(l)));
      RunsCons(l, NextMove(l), rest);
      es := [NextMove(l)] + rest;
    }
  }

  /** Any number of the bytes waiting on the wire may arrive in the peer's next read, and then has. */
  lemma ReadsAnyChunk(l: Link, n: nat)
    requires Inbound(l) && l.reader.status == Open && 1 <= n <= |l.wire| - |l.reader.received|
    ensures Enabled(l, PeerReads(n))
    ensures Apply(l, PeerReads(n)).reader.received == l.wire[..|l.reader.received| + n]
  {
    hide OnRead, Coherent, Feed, Concat;
    var from := |l.reader.received|;
    OnReadReceives(l.schema, l.reader, l.wire[from..from + n]);
  }

  /** Between frames the loop can be stopped or get a packet at any time; within one only a failing write stops it. */
  lemma StopsWhen(l: Link)
    ensures l.phase == Selecting ==>
              && Enabled(l, Shutdown) && Enabled(l, NextFails)
              && (forall p :: Enabled(l, NextReturns(p)))
    ensures l.phase == Writing ==>
              && Enabled(l, WriteFails)
              && forall e :: Enabled(l, e) && Ends(e) ==> e == WriteFails
  {
  }

  function Repeated(e: Event, n: nat): (es: seq<Event>)
  {
    if n == 0 then [] else [e] + Repeated(e, n - 1)
  }

  /** With nothing taken from the channel, exactly 256 sends go through; the next one waits. */
  lemma {:induction false} ChannelHolds(l: Link, p: Value, n: nat)
    requires l.phase == Selecting && |l.queue| <= 256
    ensures Runs(l, Repeated(Event.Send(p), n)) <==> |l.queue| + n <= 256
    decreases n
  {
    if n != 0 && |l.queue| < 256 {
      hide Bytes, Frame, OnRead;
      var rest := Repeated(Event.Send(p), n - 1);
      assert ([Event.Send(p)] + rest)[1..] == rest;
      ChannelHolds(Apply(l, Event.Send(p)), p, n - 1);
    }
  }
}
