# A verified model of the biproxy messaging stack

The repository is a small instant-messaging stack: a binary codec, length-prefixed frames over a
socket, and on top of them request/response correlation, a heartbeat and a login gate. This project
models those parts in Dafny and proves what the stack guarantees, including where it guarantees less
than one would expect.

- **Codec** (`Words`, `Zigzag`, `Varint`, `Utf8`, `Codec`, `WireFormat`). A recursive `Schema` and `Value`, and the
  writer and reader as functions. `Serializer` and `Deserializer` are the objects, with their growing
  buffer, cursor and element counter, proved against those functions. `RoundTrip`, `FloatOrder`,
  `Locality`, `Progress` and `MapOrder` hold the laws: round trip with its exact condition,
  self-delimiting encodings, progress and typing on arbitrary bytes, independence of map order.
- **Frame stream** (`Frames`, `Connection`, `EndToEnd`, `Connector`). Reassembly as one transition per
  socket read, the exact law of how many frames are delivered, and the whole path from `send` on one
  side to `next` on the other as an event system whose runs are all interleavings.
- **Correlation** (`SyncMessage`, `SyncLaws`, `Reuse`, `NotifyMap`, `Correlation`, `IdLimits`,
  `Relogin`, `Server`, `Client`). The shared waiter map with one event per lock acquisition or channel
  operation, its inductive invariant with and without fresh ids, its composition with the two id
  allocators that count towards each other, and exactly where their guarantees end.
- **Heartbeat and login gate** (`Heartbeat`, `LoginGate`, `Packets`, `Processors`, `Wiring`,
  `WiringLaws`). The adaptive timer loop, the gate under interleaved packet tasks and detached state
  updates, and the gate between the waiter map and the id allocators.

A protocol is a state datatype, `Enabled` and `Apply`; the class beside it has one method per stretch
of code between two awaits, proved to make exactly that step. Theorems quantify over every run.

Integers are 64 bits wide where the code's are: `u64` and `i64` are subset types, narrowing casts,
`as u32` on frame lengths and the wrap-around of `fetch_add` and `fetch_sub` are written out. `usize`
is taken as 64 bits. The shifts and xor of the zigzag map are defined bit by bit on 64-bit words.

Where the code does less than its intent, the model follows the code and a lemma says by how much:

- `next` compares the rest of the buffer with `total_len + 4` after the header is taken off, so a
  frame waits for four bytes of its successor (`Frames.DeliveryLaw`, `EndToEnd.EndToEndDelivery`).
- The four-byte varint arm starts at 0xFFFF01 (`Varint.WriterPicks`).
- Floats are written in the mode's byte order but read big-endian (`RoundTrip.RoundTrips`).
- A frame length wraps at 2^32 (`Frames.FrameReadsBack`).
- A request before the first Login blocks on its own lock, for good (`IdLimits.StuckIff`,
  `Correlation.BlockedForever`), and one can come before it (`WiringLaws.RequestBlocksIff`,
  `WiringLaws.RequestOvertakesLogin`).
- A further Login reissues ids: a waiting call can be cut off (`Relogin.RepeatedLoginCutsOff`), and a
  late acknowledgement can answer another call (`Relogin.LateAckRun`, `Relogin.AckAnswersCallerIff`).
- Past 2^64 - 1 ids in all, a client packet can be taken for a reply (`IdLimits.ApartUntilTheyMeet`).
- Wire order does not protect a packet sent right behind a login (`LoginGate.LoginRace`): what counts
  is whether a login was stored when the packet is looked up (`LoginGate.TurnedIff`, `RefusedIff`).

## Model

| member | source | states |
|---|---|---|
| Words.BytePositions | serde/src/ser.rs:45-56 | which byte of a 16-, 32- or 64-bit word goes where in either byte order |
| Zigzag.EncodeMeaning | serde/src/ser.rs:61-63 | the shift/xor encode is 2v for v >= 0 and -2v-1 for v < 0, for every i64 |
| Zigzag.DecodeMeaning | serde/src/de.rs:56-59 | the logical shift, mask and xor decode every u64 to u/2 or -(u/2)-1 by parity |
| Zigzag.DecodeOfEncode | serde/src/de.rs:56-59 | decoding undoes encoding on all i64 |
| Zigzag.EncodeOfDecode | serde/src/ser.rs:61-63 | encoding undoes decoding on all u64 |
| Zigzag.WidthRange | serde/src/ser.rs:95-109 | for every width w up to 64 the w-bit signed range maps exactly onto [0, 2^w), both ways |
| Varint.Language | serde/src/de.rs:76-103 | accepted inputs are 1, 3, 5 or 9 bytes, and each u64 has exactly 4, 3, 2 or 1 of them by magnitude |
| Varint.WriterPicks | serde/src/ser.rs:42-59 | the writer picks an accepted encoding, a shortest one except precisely on 0x10000..=0xFFFF00 |
| Varint.RoundTrip | serde/src/ser.rs:42-59 | parsing what was written, whatever follows, gives the number and its length |
| Varint.Local | serde/src/de.rs:76-103 | more input changes no parse, less is an end of file |
| Varint.ShortExamples | serde/src/ser.rs:44-48 | the one- and three-byte forms on concrete values, both byte orders |
| Varint.FiveByteExamples | serde/src/ser.rs:49-52 | the five-byte form at its lower boundary, both byte orders |
| Varint.NineByteExample | serde/src/ser.rs:53-56 | 0x10000 takes nine bytes |
| WireFormat.ScalarExamples | serde/src/ser.rs:90-113 | the exact bytes of concrete booleans, integers and the unit, in both modes |
| WireFormat.StringExamples | serde/src/ser.rs:142-151 | the exact bytes of a byte string and of a string, in both modes |
| WireFormat.OptionExamples | serde/src/ser.rs:153-163 | the presence byte of an option, and a newtype without one |
| WireFormat.CompositeExamples | serde/src/ser.rs:207-243 | length before elements and entries, none before the fields of a struct |
| WireFormat.FloatExamples | serde/src/ser.rs:127-135 | a float in either byte order |
| WireFormat.BoolLanguage | serde/src/de.rs:61-69 | every non-zero byte is read as true |
| WireFormat.OptionLanguage | serde/src/de.rs:259-267 | the presence byte of an option is read like a boolean |
| WireFormat.NarrowingCasts | serde/src/de.rs:148-202 | a number too wide for its type is read modulo 2^w into the type's range, signed or unsigned |
| WireFormat.StringLanguage | serde/src/de.rs:124-128 | a string is accepted if and only if it is the encoding of code points after its length; other bytes are Format |
| Utf8.ValidIff | serde/src/de.rs:124-128 | the accepted byte strings are exactly the UTF-8 encodings of sequences of code points |
| FloatOrder.ReadbackSame | serde/src/de.rs:204-222 | a value survives the byte-order mismatch exactly when, in little-endian mode, every float in it is a byte palindrome |
| FloatOrder.ReadbackTwice | serde/src/de.rs:204-222 | what the mismatch does to a value is its own inverse, so no information is lost |
| RoundTrip.ReadsBack | serde/src/de.rs:131-373 | at every schema, in both modes, reading an encoding followed by anything consumes exactly the encoding |
| RoundTrip.RoundTrips | serde/src/de.rs:28-52 | the round trip returns the value with no trailing bytes if and only if the value is float-safe; always in big-endian mode |
| RoundTrip.PrefixFree | serde/src/ser.rs:66-259 | encodings at one schema are prefix-free and hence injective, in either mode, floats included |
| RoundTrip.LittleEndianFloatLost | serde/src/de.rs:204-212 | a concrete float that comes back as another number |
| Locality.DecodeLocal | serde/src/de.rs:54-129 | for any bytes: a successful read depends only on the bytes it used, and any cut inside them is an end of file |
| Locality.SelfDelimiting | serde/src/de.rs:28-52 | every strict prefix of an encoding fails with Eof, every non-empty suffix gives TrailingBytes |
| Progress.UsesMinSize | serde/src/de.rs:298-345 | on any input a successful read takes at least the schema's smallest size and never passes the end |
| Progress.SequenceBounded | serde/src/de.rs:298-304 | a sequence whose elements need a byte has fewer elements than the input had bytes |
| Progress.ReadsTyped | serde/src/de.rs:148-202 | on any input what is read belongs to the schema, after the narrowing casts and the UTF-8 check |
| Progress.Reencode | serde/src/de.rs:28-39 | writing out what any accepted input means is accepted again with the same meaning |
| MapOrder.SameLength | serde/src/ser.rs:238-240 | two values that denote the same, whatever their map orders at any depth, are encoded at the same length |
| MapOrder.PermutedEntries | serde/src/ser.rs:332-353 | all orders of the same entries denote the same map |
| MapOrder.OrderIndependent | serde/src/de.rs:417-443 | encodings of the same map in different orders have one length and are read back as one map, in either mode and with any floats; the map written, if the floats are safe |
| Serializer.Serializer.SerializeUnsigned | serde/src/ser.rs:42-59 | appends exactly the specified varint |
| Serializer.Serializer.SerializeSigned | serde/src/ser.rs:37-40 | appends the varint of the zigzag code |
| Serializer.Serializer.SerializeBytes | serde/src/ser.rs:147-151 | appends the length, then the bytes |
| Serializer.Serializer.SerializeSome | serde/src/ser.rs:157-163 | appends the presence byte, then the value |
| Serializer.Serializer.SerializeElements | serde/src/ser.rs:262-280 | appends the elements' encodings in order |
| Serializer.Serializer.SerializeEntries | serde/src/ser.rs:332-353 | appends each key followed by its value, in iteration order |
| Serializer.Serializer.Serialize | serde/src/ser.rs:66-259 | appends the encoding of the value and touches nothing before it |
| Serializer.ToBytes | serde/src/ser.rs:23-34 | returns the big-endian encoding |
| Serializer.ToBytesLe | serde/src/ser.rs:11-21 | returns the little-endian encoding |
| Deserializer.Deserializer.ParseBool | serde/src/de.rs:61-69 | zero is false, anything else true, nothing an Eof |
| Deserializer.Deserializer.ParseUnsigned | serde/src/de.rs:76-103 | parses and moves the cursor as specified, with every Eof case |
| Deserializer.Deserializer.ParseSigned | serde/src/de.rs:105-109 | the zigzag decoding of the varint |
| Deserializer.Deserializer.ParseBytes | serde/src/de.rs:111-122 | a length, then that many bytes, or Eof |
| Deserializer.Deserializer.ParseString | serde/src/de.rs:124-128 | bytes that are valid UTF-8, or Format |
| Deserializer.Deserializer.DeserializeInteger | serde/src/de.rs:148-202 | the narrowed unsigned or signed number |
| Deserializer.Deserializer.DeserializeOption | serde/src/de.rs:259-267 | none, or the value after a non-zero presence byte |
| Deserializer.Deserializer.DeserializeSeq | serde/src/de.rs:298-312 | the visitor loop reads exactly the announced number of elements, or fails as specified |
| Deserializer.Deserializer.DeserializeMap | serde/src/de.rs:326-332 | the visitor loop reads exactly the announced number of entries, or fails as specified |
| Deserializer.Deserializer.DeserializeStruct | serde/src/de.rs:334-345 | the fields in declaration order, with no length on the wire |
| Deserializer.Deserializer.Deserialize | serde/src/de.rs:131-373 | every schema is read as specified, cursor included |
| Deserializer.TypeSeparated.NextElement | serde/src/de.rs:396-415 | one more element while the count is not reached, then None |
| Deserializer.TypeSeparated.NextKey | serde/src/de.rs:420-429 | a key does not move the count |
| Deserializer.TypeSeparated.NextValue | serde/src/de.rs:431-437 | a value moves the count |
| Deserializer.FromBytes | serde/src/de.rs:28-39 | the big-endian entry point, with TrailingBytes |
| Deserializer.FromBytesLe | serde/src/de.rs:41-52 | the little-endian entry point, with TrailingBytes |
| Frames.FrameExample | connect/src/connection.rs:40-47 | a concrete frame: big-endian length, then payload |
| Frames.FrameReadsBack | connect/src/connection.rs:40-46 | a payload survives framing if and only if its length is below 2^32 |
| Frames.TryFrameOnStream | connect/src/connection.rs:19-30 | a frame is released exactly when four bytes past its end are buffered |
| Frames.FeedCoherent | connect/src/connection.rs:18-36 | for any bytes: consumed then buffered bytes are the bytes received, and those consumed are whole frames, each decoded once |
| Frames.BadFrameFails | connect/src/connection.rs:30-34 | a read that completes a frame which does not decode fails the connection and hands nothing over |
| Frames.LastFrameHeldBack | connect/src/connection.rs:25-28 | of a stream that ends at a frame boundary, all frames but the last can be released |
| Frames.DeliveryLaw | connect/src/connection.rs:18-36 | frames delivered after n reads are the least of available(k) + (n - k) over 0 <= k <= n |
| Frames.LastFrameUndelivered | connect/src/connection.rs:18-36 | no sequence of reads delivers the last frame while nothing follows it |
| Connection.TcpConnection.ReadBuf | im/src/tcp_connection.rs:27-42 | appends the read to the buffer, or reports the peer gone on an empty read |
| Connection.TcpConnection.Advance | im/src/tcp_connection.rs:53-55 | drops exactly len bytes from the front |
| Connection.TcpConnection.Next | connect/src/connection.rs:18-36 | ends with the first packet the reads release, the failure that comes first, or pending with all reads absorbed |
| Connection.TcpConnection.NextInTurn | connect/src/connector.rs:66-83 | calls of next one after the other, each dropped after any number of reads: the state is that of the reads completed, every released packet was returned once, and no read is lost |
| Connection.TcpConnection.Write | connect/src/connection.rs:40-47 | hands the socket one frame: header, then payload |
| EndToEnd.Fifo | connect/src/connector.rs:66-88 | in every run, what the peer's next returned is a prefix of what send accepted, in order |
| EndToEnd.EndToEndDelivery | connect/src/connection.rs:18-36 | the exact number the peer has after its reads; the newest packet taken up is never among them |
| EndToEnd.Conservation | connect/src/connector.rs:68-75 | accepted packets are written, then at most one being written, then at most 256 queued; frames never interleave |
| EndToEnd.AfterStop | connect/src/context.rs:19-24 | once the loop returned nothing is written, no task spawned, and each send hands its own packet back |
| EndToEnd.LoopLaw | connect/src/connector.rs:66-86 | in every run each packet next returned was given to a task, once and in order; the loop has returned if and only if a write or read failed or a shutdown was signalled |
| EndToEnd.OneAtATime | connect/src/connector.rs:68-75 | while the loop runs it is writing exactly when it took up one packet more than it finished |
| EndToEnd.EndsBetweenFrames | connect/src/connector.rs:66-86 | a shutdown or failed read never cuts a frame short |
| EndToEnd.CanDrain | connect/src/connector.rs:66-75 | from every state of the running loop all accepted packets can be written out by the loop alone |
| EndToEnd.ReadsAnyChunk | im/src/tcp_connection.rs:27-35 | any number of the bytes on the wire may arrive in the next read, and has then |
| EndToEnd.StopsWhen | connect/src/connector.rs:66-86 | between frames the loop can be stopped or get a packet at any time, within one only a failing write stops it |
| EndToEnd.ChannelHolds | connect/src/connector.rs:41-42 | exactly 256 packets fit the channel before a sender waits |
| Connector.EventLoop.Send | connect/src/context.rs:19-24 | the packet is queued, or returned when the receiver is gone |
| Connector.EventLoop.BeginWrite | connect/src/connector.rs:68-74 | the oldest packet leaves the queue and its frame starts |
| Connector.EventLoop.RunConnection | connect/src/connector.rs:59-88 | while others send and read, the select loop goes through exactly the states of the event system, gives each returned packet to a task in order, and takes no turn after the one that makes it return |
| SyncMessage.StepIntact | connect/src/extract/sync_message.rs:27-54 | every step of every interleaving keeps the waiter-map invariant, whatever ids are registered |
| SyncMessage.StepKeeps | connect/src/extract/sync_message.rs:27-54 | with fresh ids every step also keeps ids unique and drops no sender but by its own call |
| SyncLaws.MapHoldsExactly | connect/src/extract/sync_message.rs:36-49 | an id is in the map if and only if its waiter is unresolved or timed out, and unanswered |
| SyncLaws.Outcomes | connect/src/extract/sync_message.rs:46-50 | with fresh ids no call ends in Ok(None), and every reply carries the call's id and was looked up after its registration |
| SyncLaws.OneToOne | connect/src/extract/sync_message.rs:105-112 | no packet serves two calls, no call is served two packets |
| SyncLaws.SettledForever | connect/src/extract/sync_message.rs:95-113 | over every further run a resolved call and a settled packet never change again |
| SyncLaws.TaskCompletes | connect/src/extract/sync_message.rs:95-113 | a packet's task always reaches the waiter, the inner processor or discard, as the map and the waiter decide |
| SyncLaws.CallCompletes | connect/src/extract/sync_message.rs:38-50 | a call's next move is always open: its packet taken or refused, the refusal undone, the wait ended |
| SyncLaws.FirstReplyReachesCaller | connect/src/extract/sync_message.rs:36-40 | with a peer that only replies, a packet with a request's id goes inward if and only if another with that id was looked up before |
| Reuse.CallLaw | connect/src/extract/sync_message.rs:36-50 | in every run a call is sent, answered, cut off, timed out or refused exactly if that event happened, and a refused send is undone exactly once |
| Reuse.PacketLaw | connect/src/extract/sync_message.rs:95-113 | in every run a packet is looked up and used exactly if its task did so |
| Reuse.IdsLaw | connect/src/extract/sync_message.rs:95-106 | calls and packets keep the ids they came with, in order |
| Reuse.CutOffIff | connect/src/extract/sync_message.rs:37-42 | in every run, fresh ids or not, a waiting call can end in Ok(None) if and only if its id was registered again or given up while no packet had taken its sender |
| Reuse.AnswersIff | connect/src/extract/sync_message.rs:105-110 | in every run a packet answers, of the calls with its id, exactly the one since whose registration nothing else looked up, registered or gave up that id |
| Reuse.ReusedIdCutsOff | connect/src/extract/sync_message.rs:37-37 | registering an id makes Ok(None) possible for a waiting call if and only if it was before, or the id is its own and it is unanswered, and then rules out a reply |
| Reuse.ReusedIdRun | connect/src/extract/sync_message.rs:46-48 | a concrete run that ends in Ok(None) |
| NotifyMap.NotifyMap.constructor | connect/src/extract/sync_message.rs:89-93 | the map starts empty |
| NotifyMap.NotifyMap.Register | connect/src/extract/sync_message.rs:36-37 | the new sender is in, the one it replaces is dropped; a fresh id keeps the invariant |
| NotifyMap.NotifyMap.Send | connect/src/extract/sync_message.rs:38-40 | the call waits, or neither waits nor times out and has its registration still to undo; the invariant is kept |
| NotifyMap.NotifyMap.SyncSend | connect/src/extract/sync_message.rs:36-45 | uninterrupted, the call waits under its id, or is refused and leaves nothing in the map |
| NotifyMap.NotifyMap.Unregister | connect/src/extract/sync_message.rs:40-43 | the entry under the id is gone; the invariant is kept |
| NotifyMap.NotifyMap.Take | connect/src/extract/sync_message.rs:105-112 | the sender under the id leaves the map if and only if there is one, and its waiter has the packet's id; else the packet goes inward |
| NotifyMap.NotifyMap.Fire | connect/src/extract/sync_message.rs:107-110 | the packet is heard if and only if the waiter, which has its id, still listens |
| NotifyMap.NotifyMap.Poll | connect/src/extract/sync_message.rs:134-142 | value, closed or pending, then the timeout; under the invariant never closed, and a value has the call's id |
| Correlation.ClientPacketsReachInner | im/src/client.rs:75-75 | after one Login, while c + s <= 2^64 - 1, no client-originated packet is taken by a server waiter |
| Correlation.AcksReachTheirCaller | im/src/client.rs:82-87 | under the same bound an echoed ack reaches its own caller, or is discarded because that caller timed out |
| IdLimits.ApartUntilTheyMeet | im/src/server.rs:42-47 | the bound is exact: for all counts c and s after one Login, some run lets a server waiter take a client packet if and only if c, s >= 1 and c + s > 2^64 - 1 |
| Relogin.RepeatedLoginCutsOff | im/src/server.rs:94-97 | after every run, with any Logins and requests in any order, a request cuts a waiting call off if and only if that call was cut off before, or is unanswered and got its id at the same rank (modulo 2^64) after its Login |
| Relogin.RepeatedLoginRun | im/src/server.rs:94-97 | a concrete run from a fresh connection in which a second Login ends a waiting call in Ok(None) |
| Relogin.AckAnswersCallerIff | im/src/client.rs:82-87 | after every run an echoed ack has its own caller's id, and reaches that caller if and only if since its registration nothing else looked up, registered or gave up the id |
| Relogin.PacketAnswersIff | connect/src/extract/sync_message.rs:105-110 | a packet on a connection answers any given call with its id under exactly that condition |
| Relogin.RunTraced | im/src/server.rs:55-66 | after every run the frames sent, the packets that came in and the client's counter are what the history of requests, messages and answers says |
| Relogin.AnswerOnce | im/src/client.rs:82-87 | after every run the client can answer exactly the frames that reached it and that it has not answered |
| Relogin.UseOnce | im/src/server.rs:55-66 | an id handed out serves one request or one one-way message |
| Relogin.LateAckRun | im/src/client.rs:82-87 | a concrete run in which a request times out, the client logs in again, and the late ack is taken as the reply to the next request |
| IdLimits.StuckIff | im/src/server.rs:39-49 | in every run the counter lock is stuck if and only if a request came before the first Login, here or on another connection |
| Correlation.BlockedForever | im/src/server.rs:39-49 | once a task waits for the counter lock it holds, no id is issued and no Login processed any more |
| WiringLaws.RequestBlocksIff | im/src/server.rs:39-49 | in every wired run a request then blocks the lock if and only if an update has put the connection's context and the server has processed no login yet |
| WiringLaws.ServedAfterLogin | connect/src/extract/online_state.rs:122-160 | in every wired run no counter is started and no id handed out before an authenticated login was stored |
| WiringLaws.GateSeesNoReply | connect/src/extract/sync_message.rs:105-112 | while c + s <= 2^64 - 1 after one Login, the gate is called once at most for a packet and never for the answer to a request |
| WiringLaws.RequestOvertakesLogin | connect/src/extract/online_state.rs:90-98 | one valid login is enough, from the socket on: its spawned update makes the user reachable before the server has processed it, and a request then blocks the lock |
| WiringLaws.LoginServed | im/src/server.rs:94-97 | a concrete wired run in which the login is processed first and a request then gets the first id |
| Server.RequestCounter.GenRequestId | im/src/server.rs:39-49 | hands out the counter and wraps it down, or blocks the lock when there is no entry: exactly the protocol's id step for this connection, and no step or a blocked lock for every other |
| Server.RequestCounter.ProcessLogin | im/src/server.rs:94-97 | the counter starts at u64::MAX, again if it existed: exactly the protocol's Login step, and no step for other connections |
| Server.JudgeMeaning | im/src/server.rs:67-71 | a delivery counts as accepted for exactly one kind of reply |
| Server.Server.Send | im/src/server.rs:62-72 | an unreachable user costs no id; otherwise one id is used and the reply judged |
| Server.Server.Process | im/src/server.rs:85-100 | a message is acknowledged under its own id whether or not it was delivered; a login starts the counter; anything else is ignored |
| Client.Client.Handle | im/src/client.rs:68-96 | one turn that does not panic: a fresh id for an own packet, an echoed id for a message |
| Client.Client.EventLoop | im/src/client.rs:59-98 | runs through all inputs it survives and no others: what has to be written is, and every message is for this client; writes exactly the replies, acknowledging each message under its id |
| Client.AscendingAndEchoing | im/src/client.rs:75-87 | own packets carry consecutive ids in order; answers echo exactly the ids of the messages |
| Heartbeat.Reactor.Run | connect/src/extract/heart_beat.rs:36-59 | leaves at the first check with silence over three intervals or at a shutdown, and asks for the adaptive ticks |
| Heartbeat.GivesUpInTime | connect/src/extract/heart_beat.rs:36-67 | after the final read it gives up within five checks, at a silence in (3 I, 4 I + lateness] |
| Heartbeat.GivesUpIff | connect/src/extract/heart_beat.rs:38-43 | a check gives up if and only if it comes more than three intervals after the last read |
| Heartbeat.NeverRead | connect/src/extract/heart_beat.rs:61-67 | without a last read it gives up if and only if three intervals are less than a day |
| Heartbeat.ZeroIntervalSpins | connect/src/extract/heart_beat.rs:45-49 | with a zero interval no number of checks is enough |
| LoginGate.OnlyAfterLogin | connect/src/extract/online_state.rs:122-160 | in every run a packet is handed inward only after an authenticated login was stored, and it is no logout |
| LoginGate.StaysOpen | connect/src/context.rs:60-75 | over every run the gate never closes again, and a packet handed over or turned away stays so |
| LoginGate.OpenLetsThrough | connect/src/extract/online_state.rs:140-159 | after any run a packet about to be looked up can reach the inner processor if and only if a login was stored |
| LoginGate.OpenIff | connect/src/extract/online_state.rs:126-129 | after every run the gate is open if and only if some login was stored |
| LoginGate.TurnedIff | connect/src/extract/online_state.rs:141-147 | in every run a lookup turns its packet away if and only if no login was stored before it |
| LoginGate.RefusedIff | connect/src/extract/online_state.rs:141-147 | after every run an ordinary packet is turned away if and only if it was looked up before every stored login |
| LoginGate.ClosingIff | connect/src/extract/online_state.rs:137-147 | after every run the gate has closed the connection if and only if there was a logout or a lookup before every stored login |
| LoginGate.StageLaw | connect/src/extract/online_state.rs:122-160 | in every run a packet is where its events put it: a login turned away exactly if auth refused it, ready exactly if stored, and so on |
| LoginGate.UpdateLaw | connect/src/extract/online_state.rs:126-157 | after every run updates were spawned for exactly the logins stored and the stale lookups, in order, and the stamp is the last one written |
| LoginGate.CanFinish | connect/src/extract/online_state.rs:122-160 | after every run a packet's own task can bring it to its end in at most three steps, whatever auth says |
| LoginGate.CanStamp | connect/src/extract/online_state.rs:90-98 | after every run a spawned update can be brought to its stamp |
| LoginGate.UpdateOrder | connect/src/extract/online_state.rs:90-98 | the stamp comes after the state entry, that after the local entry |
| LoginGate.LoginRace | connect/src/connector.rs:76-82 | a packet right behind a valid login can be turned away and the connection closed |
| Processors.Context.PutAttr | connect/src/context.rs:68-75 | one key changes; the previous value is returned |
| Processors.Context.Send | connect/src/context.rs:56-58 | the channel takes the packet, or it comes back when the event loop is gone |
| Processors.StateSupportProcessor.Authenticated | connect/src/extract/online_state.rs:123-136 | a failed auth tells the client why and ends the task, a successful one leaves it to store the user |
| Processors.StateSupportProcessor.StoreUser | connect/src/extract/online_state.rs:128-129 | USER_ID holds the user authenticated for this login, and one update for that user is spawned |
| Processors.StateSupportProcessor.LookUpUser | connect/src/extract/online_state.rs:141-147 | the packet is turned away and the connection closed exactly if no login was stored so far |
| Processors.StateSupportProcessor.LookUpSync | connect/src/extract/online_state.rs:148-157 | a stale or missing stamp spawns one update, for a user who logged in |
| Processors.StateSupportProcessor.LogOut | connect/src/extract/online_state.rs:137-139 | a logout closes the connection, goes no further, and touches no other packet |
| Processors.StateSupportProcessor.CallInner | connect/src/extract/online_state.rs:159-159 | the inner processor is called for no logout, and only when USER_ID holds a user who logged in |
| Processors.StateSupportProcessor.ProcessOrdinary | connect/src/extract/online_state.rs:140-160 | an ordinary packet processed without interruption is handed inward exactly if a login was stored, else turned away and the connection closed |
| Processors.StateSupportProcessor.ProcessLogin | connect/src/extract/online_state.rs:123-136 | uninterrupted, a login goes inward with its user stored exactly if auth passes it |
| Processors.StateSupportProcessor.Process | connect/src/extract/online_state.rs:122-160 | uninterrupted, a Logout payload closes the connection, a Login payload goes inward exactly if auth passes it, any other exactly if a login was stored |
| Processors.StateSupportProcessor.StepUpdate | connect/src/extract/online_state.rs:90-98 | the three awaits of an update, in order: this context under the user, the connection id under the user, the time of the stamp |
| Processors.HeartBeatProcessor.KickRead | connect/src/extract/heart_beat.rs:94-96 | the read time is stored and the gate does not change |
| Processors.HeartBeatProcessor.Connected | connect/src/extract/heart_beat.rs:109-118 | the reactor starts only once its shutdown channel and a first read time are stored, so that no check within three intervals gives up |
| Processors.HeartBeatProcessor.Process | connect/src/extract/heart_beat.rs:120-131 | every packet is a read and goes on to the gate, as a login or logout exactly if its payload is one; a ping is answered with its own id and nonce if the channel takes it |

## Left out

- Tuples and tuple structs: the writer puts a length that the reader never reads, so they are outside the schema.
- Externally tagged enum variants and chars: no tag is written, and the reader of chars is unimplemented.
- The derived code of `Payload` and `Packet`: a packet is any value of a schema of the modelled fragment.
- Values of 2^64 or more elements or bytes: a length is a `usize`, so no such value exists.
- The body of `auth`, with its decryption: authentication is any user id or an error, chosen by the environment.
- Sockets, the runtime and clocks: reads are arbitrary chunks, tasks interleave by steps, time is a natural number.
- The three-second timeout: a waiting call may time out at any moment.
- The branches for a missing waiter map: `connected` installs it before any packet or sender exists.
- The `None` arm of the channel receiver in the event loop: the loop keeps a sender alive through its own context.
- A send that acquired channel capacity before the receiver was dropped and completes after it: a send is one step.
- `HeartBeatProcessor::disconnected` and `Connector::run` after the loop: it does not call the inner processor, so the online-state maps and the counters are never cleaned up in the wired stack.
- Removal from the online-state maps, which is not reached in the wired stack: only the updates after a login and their order are modelled.
- The reactor's exit has no effect on the connection, so no theorem links the heartbeat to the link.
- `Error` and `Display` types, logging, `main` and the random client.
- EndToEnd.Fifo: does not cover packets of 2^32 bytes or more, because their frame length wraps and `Frames.FrameReadsBack` shows they do not survive framing.
- Processors.HeartBeatProcessor.Connected: does not model the call of the inner `connected`, which in the wired stack only logs.
- Heartbeat.Reactor.Run: does not model the arithmetic overflow of durations.
