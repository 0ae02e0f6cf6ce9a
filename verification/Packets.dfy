/** Packets as the processors and the client see them: an id, and a payload told apart by its kind. */
module Packets {
  import opened Words

  datatype Payload =
    | Error(code: u32)
    | Login
    | Logout
    | Ping(nonce: u64)
    | Pong(nonce: u64)
    | Message(to: u64)
    | MessageCliAck
    | MessageSrvAck

  datatype Packet = Packet(requestId: u64, payload: Payload)

  /** The answer to a ping: its id, and its nonce. */
  function GenPong(ping: Packet): (pong: Packet)
    requires ping.payload.Ping?
  {
    Packet(ping.requestId, Pong(ping.payload.nonce))
  }
}
