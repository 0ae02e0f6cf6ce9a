/** The event loop of one endpoint, with its channel, as an object; its steps are those of EndToEnd.dfy. */
module Connector {
  import opened Words
  import opened Results
  import opened Codec
  import opened Frames
  import opened EndToEnd
  import Serializer

  /** The loop's own moves, as against those of senders and of the peer. */
  predicate Own(e: Event)
  {
    !e.Send? && !e.PeerReads? && !e.PeerDropsNext?
  }

  lemma NothingYet(l: Link, script: seq<Event>)
    ensures Runs(l, script[..0]) && Exec(l, script[..0]) == l
  {
    assert script[..0] == [];
  }

  class EventLoop {
    const schema: Schema
    var queue: seq<Value>
    var phase: Phase
    var unsent: seq<byte>
    var wire: seq<byte>
    /** Packets handed to a `process` task of their own. */
    var spawned: seq<Value>

    ghost var accepted: seq<Value>
    ghost var refused: seq<Value>
    ghost var taken: seq<Value>
    ghost var arrivals: seq<seq<byte>>
    ghost var reader: Reader

    constructor (schema: Schema)
      ensures State() == Start(schema)
    {
      this.schema := schema;
      queue, phase, unsent, wire, spawned := [], Selecting, [], [], [];
      accepted, refused, taken, arrivals, reader := [], [], [], [], NEW_READER;
    }

    ghost function State(): (l: Link)
      reads this
    {
      Link(schema, accepted, refused, queue, taken, phase, unsent, wire, spawned, arrivals, reader)
    }

    /** `Context::send`: the packet comes back when the receiver is gone. */
    method Send(packet: Value) returns (back: Option<Value>)
      requires Enabled(State(), Event.Send(packet))
      modifies this
      ensures State() == Apply(old(State()), Event.Send(packet))
      ensures back == if old(phase) == Stopped then Some(packet) else None
      ensures back == None ==> |queue| <= CAPACITY && packet in queue
    {
      if phase == Stopped {
        refused := refused + [packet];
        return Some(packet);
      }
      queue := queue + [packet];
      accepted := accepted + [packet];
      return None;
    }

    /** The `send_channel.recv()` arm is chosen: `write` starts on the oldest packet. */
    method BeginWrite()
      requires Enabled(State(), Recv)
      modifies this
      ensures State() == Apply(old(State()), Recv)
    {
      var packet := queue[0];
      queue := queue[1..];
      var bytes := Serializer.ToBytes(packet);
      PowersOf256();
      unsent := BigEndian(|bytes| % TWO_32, 4) + bytes;
      phase := Writing;
      taken := taken + [packet];
    }

    /** The socket takes some of what `write_all` still has to write. */
    method WriteSomeBytes(n: nat)
      requires Enabled(State(), WriteSome(n))
      modifies this
      ensures State() == Apply(old(State()), WriteSome(n))
    {
      wire := wire + unsent[..n];
      unsent := unsent[n..];
    }

    /** The peer completes a read. */
    ghost method PeerRead(n: nat)
      requires Enabled(State(), PeerReads(n))
      modifies this`arrivals, this`reader
      ensures State() == Apply(old(State()), PeerReads(n))
    {
      var from := |reader.received|;
      var chunk := wire[from..from + n];
      arrivals, reader := arrivals + [chunk], OnRead(schema, reader, chunk);
    }

    /** The `next` arm: the packet goes to a task of its own, and the loop does not wait for it. */
    method SpawnProcess(packet: Value)
      requires Enabled(State(), NextReturns(packet))
      modifies this`spawned
      ensures spawned == old(spawned) + [packet]
      ensures State() == Apply(old(State()), NextReturns(packet))
    {
      spawned := spawned + [packet];
    }

    /** `run_connection` returns: its end of the channel is dropped. */
    method Stop()
      modifies this`phase
      ensures phase == Stopped
    {
      phase := Stopped;
    }

    /** What the loop itself does next; false means that it returns. */
    method Turn(e: Event) returns (goesOn: bool)
      requires Enabled(State(), e) && Own(e)
      modifies this
      ensures State() == Apply(old(State()), e)
      ensures goesOn <==> phase != Stopped
    {
      goesOn := true;
      match e
      case Recv => BeginWrite();
      case WriteSome(n) => WriteSomeBytes(n);
      case WriteDone => phase := Selecting;
      case NextReturns(packet) => SpawnProcess(packet);
      case WriteFails => Stop(); goesOn := false;
      case Shutdown => Stop(); goesOn := false;
      case NextFails => Stop(); goesOn := false;
    }

    /** What other tasks and the peer do meanwhile. */
    method Meanwhile(e: Event)
      requires Enabled(State(), e) && !Own(e)
      modifies this
      ensures State() == Apply(old(State()), e)
      ensures phase == old(phase)
    {
      match e
      case Send(p) => var _ := Send(p);
      case PeerReads(n) => PeerRead(n);
      case PeerDropsNext =>
    }

    /**
     `run_connection`, from its start: it takes its turns while others act, until the script ends or a
     turn makes it return, and then takes no further one.
     */
    method RunConnection(script: seq<Event>) returns (n: nat)
      requires Runs(State(), script) && phase != Stopped
      modifies this
      ensures n <= |script| && Runs(old(State()), script[..n])
      ensures State() == Exec(old(State()), script[..n])
      ensures n < |script| ==> phase == Stopped
      ensures spawned == old(spawned) + Returned(script[..n])
      ensures phase == Stopped <==> exists e :: e in script[..n] && Ends(e)
      ensures forall i :: 0 <= i < n ==>
                Runs(old(State()), script[..i]) && Exec(old(State()), script[..i]).phase != Stopped
    {
      hide Enabled, Apply, Runs, Exec;
      n := 0;
      NothingYet(State(), script);
      var goesOn := true;
      while n < |script| && goesOn
        invariant n <= |script| && Runs(old(State()), script[..n])
        invariant State() == Exec(old(State()), script[..n])
        invariant goesOn <==> phase != Stopped
        invariant forall i :: 0 <= i < n ==>
                    Runs(old(State()), script[..i]) && Exec(old(State()), script[..i]).phase != Stopped
      {
        ExecStep(old(State()), script, n);
        if Own(script[n]) {
          goesOn := Turn(script[n]);
        } else {
          Meanwhile(script[n]);
        }
        n := n + 1;
      }
      LoopLaw(old(State()), script[..n]);
    }
  }
}
