/**
 The server: its id counters, one per connection behind one lock, as the correlation protocol uses
 them, and what it does with a packet that reached it.
 */
module Server {
  import opened Words
  import opened Results
  import opened Packets
  import opened Processors
  import Correlation

  const MAX: u64 := Correlation.MAX

  class RequestCounter {
    var counters: map<string, u64>
    /** A task holds the lock and waits for it. */
    var blocked: bool

    constructor ()
      ensures counters == map[] && !blocked
    {
      counters, blocked := map[], false;
    }

    /** The counter and the lock as one connection's correlation protocol sees them. */
    ghost predicate Tracks(connection: string, c: Correlation.Conn)
      reads this
    {
      && c.stuck == blocked
      && c.counter == if connection in counters then Some(counters[connection]) else None
    }

    /**
     `gen_request_id`. The arm for a missing entry locks the mutex its caller still holds: it never
     returns, and the lock is never free again.
     */
    method GenRequestId(connection: string) returns (id: Option<u64>)
      requires !blocked
      modifies this
      ensures connection in old(counters) ==>
                && id == Some(old(counters)[connection]) && !blocked
                && counters == old(counters)[connection := Wrapping((old(counters)[connection] as int) - 1)]
      ensures connection !in old(counters) ==> id == None && blocked && counters == old(counters)
      ensures forall c: Correlation.Conn :: old(Tracks(connection, c)) ==>
                && Correlation.Able(c, Correlation.Gen)
                && Tracks(connection, Correlation.Perform(c, Correlation.Gen))
                && Correlation.Perform(c, Correlation.Gen).grants ==
                   c.grants + if id.Some? then [Correlation.Grant(id.value, Correlation.Unused)] else []
      ensures forall k, c: Correlation.Conn :: k != connection && old(Tracks(k, c)) ==>
                Tracks(k, if blocked then Correlation.Perform(c, Correlation.OtherBlocks) else c)
    {
      if connection in counters {
        var n := counters[connection];
        counters := counters[connection := if n == 0 then MAX else n - 1];
        return Some(n);
      }
      blocked := true;
      return None;
    }

    /** A processed Login starts the connection's counter at the top, again if it had one. */
    method ProcessLogin(connection: string)
      requires !blocked
      modifies this`counters
      ensures counters == old(counters)[connection := MAX]
      ensures forall c: Correlation.Conn :: old(Tracks(connection, c)) ==>
                && Correlation.Able(c, Correlation.Login)
                && Tracks(connection, Correlation.Perform(c, Correlation.Login))
      ensures forall k, c: Correlation.Conn :: k != connection && old(Tracks(k, c)) ==> Tracks(k, c)
    {
      counters := counters[connection := MAX];
    }
  }

  /** What a reply to a delivered message says; None is an error of the call itself, a timeout included. */
  datatype Delivery = Accepted | Custom(code: u32) | Disconnected | UndefinedBehavior

  function Judge(reply: Option<Packet>): (d: Delivery)
  {
    match reply
    case None => Disconnected
    case Some(Packet(_, Error(code))) => Custom(code)
    case Some(Packet(_, MessageCliAck)) => Accepted
    case Some(_) => UndefinedBehavior
  }

  /** A delivery is accepted by exactly one kind of reply. */
  lemma JudgeMeaning(reply: Option<Packet>)
    ensures Judge(reply) == Accepted <==> reply.Some? && reply.value.payload == MessageCliAck
    ensures Judge(reply).Custom? <==> reply.Some? && reply.value.payload.Error?
    ensures Judge(reply).Custom? ==> Judge(reply).code == reply.value.payload.code
    ensures Judge(reply) == Disconnected <==> reply == None
  {
  }

  class Server {
    const counter: RequestCounter

    constructor (counter: RequestCounter)
      ensures this.counter == counter
    {
      this.counter := counter;
    }

    /**
     `send`: an unreachable user costs no id. `reply` is how the call under the new id ends. None is a
     task that waits for the lock it holds.
     */
    method Send(target: Option<Context>, reply: Option<Packet>) returns (d: Option<Delivery>)
      requires !counter.blocked
      modifies counter
      ensures target.None? ==> d == Some(Disconnected) && counter.counters == old(counter.counters) && !counter.blocked
      ensures target.Some? && target.value.id in old(counter.counters) ==>
                && d == Some(Judge(reply)) && !counter.blocked
                && counter.counters == old(counter.counters)[target.value.id :=
                                         Wrapping((old(counter.counters)[target.value.id] as int) - 1)]
      ensures target.Some? && target.value.id !in old(counter.counters) ==>
                d == None && counter.blocked && counter.counters == old(counter.counters)
    {
      if target.None? {
        return Some(Disconnected);
      }
      var id := counter.GenRequestId(target.value.id);
      if id.None? {
        return None;
      }
      return Some(Judge(reply));
    }

    /**
     `process`: a message is acknowledged to its sender under its own id once the delivery has ended,
     however it ended; a login starts the counter of its connection; anything else is ignored.
     */
    method Process(ctx: Context, packet: Packet, target: Option<Context>, reply: Option<Packet>)
      requires !counter.blocked
      modifies counter, ctx`sent
      ensures packet.payload.Message? && (target.None? || target.value.id in old(counter.counters)) && ctx.open ==>
                ctx.sent == old(ctx.sent) + [Packet(packet.requestId, MessageSrvAck)]
      ensures packet.payload.Message? && target.Some? && target.value.id !in old(counter.counters) ==>
                ctx.sent == old(ctx.sent) && counter.blocked
      ensures packet.payload.Login? ==>
                && ctx.sent == old(ctx.sent)
                && counter.counters == old(counter.counters)[ctx.id := MAX] && !counter.blocked
      ensures !packet.payload.Message? && !packet.payload.Login? ==>
                ctx.sent == old(ctx.sent) && counter.counters == old(counter.counters) && !counter.blocked
    {
      match packet.payload
      case Message(_) =>
        var delivery := Send(target, reply);
        if delivery.Some? {
          var _ := ctx.Send(Packet(packet.requestId, MessageSrvAck));
        }
      case Login => counter.ProcessLogin(ctx.id);
      case _ =>
    }
  }
}
