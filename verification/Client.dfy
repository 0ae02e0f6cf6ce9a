/** The client's event loop: its own packets carry ascending ids, its answers echo the request's id. */
module Client {
  import opened Seqs
  import opened Words
  import opened Packets

  /**
   What the select! loop meets: a payload to send, a packet from the server, a failure of `next`, or
   the end of its channel. `written` says whether the socket takes what the loop writes in answer.
   */
  datatype Input =
    | Outgoing(payload: Payload, written: bool)
    | Incoming(packet: Packet, written: bool)
    | NextFailed
    | ChannelClosed

  datatype Output = Originated(requestId: u64, payload: Payload) | Acknowledged(requestId: u64)

  /** How the loop ends, if it does. */
  datatype End = Running | Finished | Panicked

  /** A failed read or write and a message for someone else make the loop panic. */
  predicate Panics(identifier: u64, input: Input)
  {
    match input
    case Outgoing(_, written) => !written
    case Incoming(packet, written) => packet.payload.Message? && (packet.payload.to != identifier || !written)
    case NextFailed => true
    case ChannelClosed => false
  }

  /** The payloads among the inputs. */
  function Payloads(inputs: seq<Input>): (ps: seq<Payload>)
  {
    if inputs == [] then [] else
    var init, last := inputs[..|inputs| - 1], inputs[|inputs| - 1];
    Payloads(init) + (if last.Outgoing? then [last.payload] else [])
  }

  /** What the loop writes for one input, when its counter stands at id. */
  function Reply(id: u64, input: Input): (out: seq<Output>)
  {
    match input
    case Outgoing(payload, _) => [Originated(id, payload)]
    case Incoming(packet, _) => if packet.payload.Message? then [Acknowledged(packet.requestId)] else []
    case _ => []
  }

  /** What the loop writes for the inputs, the next fresh id being `next`. */
  function Replies(next: u64, inputs: seq<Input>): (out: seq<Output>)
  {
    if inputs == [] then [] else
    var init, last := inputs[..|inputs| - 1], inputs[|inputs| - 1];
    Replies(next, init) + Reply(Wrapping(next + |Payloads(init)|), last)
  }

  lemma NoReplies(next: u64, inputs: seq<Input>)
    ensures Replies(next, inputs[..0]) == [] && Payloads(inputs[..0]) == []
  {
    assert inputs[..0] == [];
  }

  lemma RepliesStep(next: u64, inputs: seq<Input>, n: nat)
    requires n < |inputs|
    ensures var before, after := inputs[..n], inputs[..n + 1];
            && Replies(next, after) == Replies(next, before) + Reply(Wrapping(next + |Payloads(before)|), inputs[n])
            && |Payloads(after)| == |Payloads(before)| + (if inputs[n].Outgoing? then 1 else 0)
  {
    hide Wrapping, Reply;
    assert inputs[..n + 1][..n] == inputs[..n];
  }

  function Originals(out: seq<Output>): (r: seq<Output>)
  {
    if out == [] then [] else
    Originals(out[..|out| - 1]) + (if out[|out| - 1].Originated? then [out[|out| - 1]] else [])
  }

  function AckIds(out: seq<Output>): (ids: seq<u64>)
  {
    if out == [] then [] else
    AckIds(out[..|out| - 1]) + (if out[|out| - 1].Acknowledged? then [out[|out| - 1].requestId] else [])
  }

  function RequestIds(inputs: seq<Input>): (ids: seq<u64>)
  {
    if inputs == [] then [] else
    var init, last := inputs[..|inputs| - 1], inputs[|inputs| - 1];
    RequestIds(init) +
    (if last.Incoming? && last.packet.payload.Message? then [last.packet.requestId] else [])
  }

  lemma FiltersReply(out: seq<Output>, id: u64, input: Input)
    ensures Originals(out + Reply(id, input))
         == Originals(out) + (if input.Outgoing? then [Originated(id, input.payload)] else [])
    ensures AckIds(out + Reply(id, input))
         == AckIds(out) + (if input.Incoming? && input.packet.payload.Message? then [input.packet.requestId] else [])
  {
    var r := Reply(id, input);
    if r == [] {
      assert out + r == out;
    } else {
      assert (out + r)[..|out + r| - 1] == out;
    }
  }

  /**
   The packets the client originates carry consecutive ids from `next` and its payloads in order; the
   answers echo, in order, exactly the ids of the messages it got.
   */
  lemma {:induction false} AscendingAndEchoing(next: u64, inputs: seq<Input>)
    ensures |Originals(Replies(next, inputs))| == |Payloads(inputs)|
    ensures forall i :: 0 <= i < |Payloads(inputs)| ==>
              Originals(Replies(next, inputs))[i] == Originated(Wrapping(next + i), Payloads(inputs)[i])
    ensures AckIds(Replies(next, inputs)) == RequestIds(inputs)
  {
    hide Wrapping, Reply, Originals, AckIds;
    if inputs == [] {
      NothingToFilter();
    } else {
      var init, last := inputs[..|inputs| - 1], inputs[|inputs| - 1];
      AscendingAndEchoing(next, init);
      FiltersReply(Replies(next, init), Wrapping(next + |Payloads(init)|), last);
    }
  }

  lemma NothingToFilter()
    ensures Originals([]) == [] && AckIds([]) == []
  {
  }

  /** What the loop survives: it can write what it has to, a message is for it, and nothing failed or closed. */
  predicate Welcome(identifier: u64, input: Input)
  {
    && (input.Outgoing? ==> input.written)
    && (input.Incoming? && input.packet.payload.Message? ==> input.packet.payload.to == identifier && input.written)
    && !input.NextFailed? && !input.ChannelClosed?
  }

  lemma WelcomeIff(identifier: u64)
    ensures forall input :: Welcome(identifier, input) <==> !Panics(identifier, input) && input != ChannelClosed
  {
  }

  class Client {
    const identifier: u64
    var idGenerator: u64
    var written: seq<Output>

    constructor (identifier: u64)
      ensures this.identifier == identifier && idGenerator == 1 && written == []
    {
      this.identifier := identifier;
      idGenerator, written := 1, [];
    }

    method FetchAdd() returns (id: u64)
      modifies this`idGenerator
      ensures id == old(idGenerator) && idGenerator == Wrapping(old(idGenerator) + 1)
    {
      id := idGenerator;
      idGenerator := if id == TWO_64 - 1 then 0 else id + 1;
    }

    /** One turn of the loop that does not panic. */
    method Handle(input: Input)
      requires !Panics(identifier, input)
      modifies this
      ensures written == old(written) + Reply(old(idGenerator), input)
      ensures idGenerator == if input.Outgoing? then Wrapping(old(idGenerator) + 1) else old(idGenerator)
    {
      match input
      case Outgoing(payload, _) =>
        var id := FetchAdd();
        written := written + [Originated(id, payload)];
      case Incoming(packet, _) =>
        if packet.payload.Message? {
          written := written + [Acknowledged(packet.requestId)];
        }
      case ChannelClosed =>
    }

    /** A payload whose write fails has used up its id all the same. */
    method Panic(input: Input)
      requires Panics(identifier, input)
      modifies this`idGenerator
      ensures idGenerator == if input.Outgoing? then Wrapping(old(idGenerator) + 1) else old(idGenerator)
    {
      if input.Outgoing? {
        var _ := FetchAdd();
      }
    }

    /** Runs over the inputs until they end, the channel is closed, or one makes the loop panic. */
    method EventLoop(inputs: seq<Input>) returns (handled: nat, end: End)
      modifies this
      ensures handled <= |inputs|
      ensures match end
              case Running => handled == |inputs|
              case Finished => handled < |inputs| && inputs[handled] == ChannelClosed
              case Panicked => handled < |inputs| && Panics(identifier, inputs[handled])
      ensures forall i :: 0 <= i < handled ==> !Panics(identifier, inputs[i]) && inputs[i] != ChannelClosed
      ensures written == old(written) + Replies(old(idGenerator), inputs[..handled])
      ensures AckIds(Replies(old(idGenerator), inputs[..handled])) == RequestIds(inputs[..handled])
      ensures (forall i :: 0 <= i < |inputs| ==> Welcome(identifier, inputs[i])) ==>
                end == Running && handled == |inputs|
      ensures forall i :: 0 <= i < handled ==> Welcome(identifier, inputs[i])
      ensures end == Panicked ==>
                match inputs[handled]
                case Outgoing(_, written) => !written
                case Incoming(packet, written) =>
                  packet.payload.Message? && (written ==> packet.payload.to != identifier)
                case NextFailed => true
                case ChannelClosed => false
      ensures var numbered := if end == Panicked then handled + 1 else handled;
              idGenerator == Wrapping(old(idGenerator) + |Payloads(inputs[..numbered])|)
    {
      WelcomeIff(identifier);
      hide Wrapping, Replies, Payloads, Reply, AckIds, RequestIds;
      WrappingSame(idGenerator);
      handled := 0;
      NoReplies(idGenerator, inputs);
      while handled < |inputs|
        invariant handled <= |inputs|
        invariant forall i :: 0 <= i < handled ==> !Panics(identifier, inputs[i]) && inputs[i] != ChannelClosed
        invariant written == old(written) + Replies(old(idGenerator), inputs[..handled])
        invariant idGenerator == Wrapping(old(idGenerator) + |Payloads(inputs[..handled])|)
      {
        var input := inputs[handled];
        if input == ChannelClosed {
          AscendingAndEchoing(old(idGenerator), inputs[..handled]);
          return handled, Finished;
        }
        RepliesStep(old(idGenerator), inputs, handled);
        WrappingStep(old(idGenerator) + |Payloads(inputs[..handled])|);
        if Panics(identifier, input) {
          Panic(input);
          AscendingAndEchoing(old(idGenerator), inputs[..handled]);
          return handled, Panicked;
        }
        Assoc(old(written), Replies(old(idGenerator), inputs[..handled]), Reply(idGenerator, input));
        Handle(input);
        handled := handled + 1;
      }
      AscendingAndEchoing(old(idGenerator), inputs[..handled]);
      end := Running;
    }
  }
}
