/**
 The connection object: a persistent buffer that reads extend and `advance` shortens. `next` and
 `write` are proved against the frame stream of Frames.dfy.
 */
module Connection {
  import opened Words
  import opened Results
  import opened Codec
  import opened Frames
  import opened Seqs
  import Deserializer
  import Serializer

  /** How a call of `next` ends; Pending is a future still waiting for a read, or dropped while it waits. */
  datatype NextResult = Packet(value: Value) | Failed(status: Status) | Pending

  class TcpConnection {
    const schema: Schema
    var buffer: seq<byte>
    /** What was handed to the socket. */
    var written: seq<byte>

    ghost var received: seq<byte>
    ghost var frames: seq<Body>
    ghost var packets: seq<Value>
    ghost var status: Status

    constructor (schema: Schema)
      ensures this.schema == schema && State() == NEW_READER && written == []
    {
      this.schema := schema;
      buffer, written := [], [];
      received, frames, packets, status := [], [], [], Open;
    }

    ghost function State(): (r: Reader)
      reads this
    {
      Reader(received, buffer, frames, packets, status)
    }

    /** One socket read; an empty one, like a read error, is a lost peer. */
    method ReadBuf(chunk: seq<byte>) returns (ok: bool)
      requires status == Open
      modifies this
      ensures ok <==> chunk != []
      ensures written == old(written)
      ensures State() == if ok then Absorb(old(State()), chunk) else old(State()).(status := Disconnected)
    {
      if |chunk| == 0 {
        status := Disconnected;
        return false;
      }
      buffer := buffer + chunk;
      received := received + chunk;
      return true;
    }

    method Advance(len: nat)
      requires len <= |buffer|
      modifies this`buffer
      ensures buffer == old(buffer)[len..]
    {
      buffer := buffer[len..];
    }

    /** What one turn of the loop does with the buffer after its read; Pending means `continue`. */
    method TakeFrame() returns (r: NextResult)
      requires status == Open
      modifies this
      ensures written == old(written)
      ensures State() == Attempt(schema, old(State()))
      ensures r.Packet? ==> status == Open && packets == old(packets) + [r.value]
      ensures r.Failed? ==> status == r.status != Open && packets == old(packets)
      ensures r.Pending? ==> status == Open && packets == old(packets)
    {
      hide FromBytes;
      if |buffer| <= 4 {
        return Pending;
      }
      var totalLen := FromBigEndian(buffer[..4]);
      var rest := buffer[4..];
      if |rest| < totalLen + 4 {
        return Pending;
      }
      var input := rest[..totalLen];
      assert input == buffer[4..4 + totalLen];
      var res := Deserializer.FromBytes(input, schema);
      if res.Err? {
        status := Malformed(res.error);
        return Failed(Malformed(res.error));
      }
      Advance(4 + totalLen);
      frames, packets := frames + [input], packets + [res.value];
      return Packet(res.value);
    }

    /**
     Polls until a packet is out, the connection fails, or the reads that complete meanwhile are used
     up. Each attempt begins with a read, so a call keeps nothing between reads but the buffer.
     */
    method Next(chunks: seq<seq<byte>>) returns (r: NextResult, used: nat)
      requires status == Open
      modifies this
      ensures written == old(written)
      ensures used <= |chunks| && State() == Feed(schema, old(State()), chunks[..used])
      ensures chunks != [] ==> used > 0
      ensures forall i :: 0 <= i < used ==> Feed(schema, old(State()), chunks[..i]).packets == old(packets)
      ensures r.Packet? ==> status == Open && packets == old(packets) + [r.value]
      ensures r.Failed? ==> status == r.status != Open && packets == old(packets)
      ensures r.Pending? ==> status == Open && packets == old(packets) && used == |chunks|
    {
      hide Attempt;
      used := 0;
      while used < |chunks|
        invariant used <= |chunks| && written == old(written)
        invariant status == Open && packets == old(packets)
        invariant State() == Feed(schema, old(State()), chunks[..used])
        invariant forall i :: 0 <= i < used ==> Feed(schema, old(State()), chunks[..i]).packets == old(packets)
      {
        TakeTake(chunks, used + 1, used);
        assert Feed(schema, old(State()), chunks[..used + 1]) == OnRead(schema, State(), chunks[used]);
        var ok := ReadBuf(chunks[used]);
        used := used + 1;
        if !ok {
          return Failed(Disconnected), used;
        }
        r := TakeFrame();
        if !r.Pending? {
          return r, used;
        }
      }
      return Pending, used;
    }

    /**
     `next` in a `select!` loop: one call after the other, call i dropped if it is still pending after
     budgets[i] reads. Whatever the budgets, the state is that of the reads completed and every packet
     released was returned: dropping a call loses and repeats nothing. Calls that each outlast a read
     use up all the reads, given as many calls as reads.
     */
    method NextInTurn(chunks: seq<seq<byte>>, budgets: seq<nat>) returns (out: seq<Value>, used: nat)
      requires status == Open
      modifies this
      ensures written == old(written)
      ensures used <= |chunks| && State() == Feed(schema, old(State()), chunks[..used])
      ensures packets == old(packets) + out
      ensures (forall j :: 0 <= j < |budgets| ==> budgets[j] > 0) && |budgets| >= |chunks| && status == Open ==>
                used == |chunks|
    {
      hide Feed;
      out, used := [], 0;
      NoReads(schema, State(), chunks);
      var i, alive := 0, true;
      while i < |budgets| && alive
        invariant alive <==> status == Open
        invariant i <= |budgets| && used <= |chunks| && written == old(written)
        invariant State() == Feed(schema, old(State()), chunks[..used])
        invariant packets == old(packets) + out
        invariant (forall j :: 0 <= j < |budgets| ==> budgets[j] > 0) && status == Open ==>
                    used == |chunks| || used >= i
      {
        var n := if budgets[i] <= |chunks| - used then budgets[i] else |chunks| - used;
        var r, m := Next(chunks[used..used + n]);
        FeedConcat(schema, old(State()), chunks[..used], chunks[used..used + n][..m]);
        assert chunks[..used] + chunks[used..used + n][..m] == chunks[..used + m];
        used := used + m;
        match r {
          case Packet(value) => out := out + [value];
          case Failed(_) => alive := false;
          case Pending =>
        }
        i := i + 1;
      }
    }

    method WriteBuf(data: seq<byte>)
      modifies this`written
      ensures written == old(written) + data
    {
      written := written + data;
    }

    /** Header, then payload: one frame. */
    method Write(val: Value)
      modifies this`written
      ensures written == old(written) + Frame(ToBytes(false, val))
    {
      hide ToBytes;
      var bytes := Serializer.ToBytes(val);
      PowersOf256();
      WriteBuf(BigEndian(|bytes| % TWO_32, 4));
      WriteBuf(bytes);
    }
  }
}
