/** Wire-level types of the signaling relay: node and connection identities,
    the SignalingData record exchanged as JSON, and what a write puts on a
    connection (the relayed bytes, or an encoded SignalingData). */
module Wire {

  /** One byte of a WebSocket text frame. */
  newtype byte = x: int | 0 <= x < 256

  /** A node identity as chosen by the peer. */
  datatype NodeId = NodeId(name: string)

  /** An opaque handle for one live WebSocket connection. */
  datatype ConnId = ConnId(id: nat)

  datatype Option<T> = None | Some(value: T)

  /** The only message type the service interprets; every other value is relayed. */
  const RequestType: string := "Request"

  /** The JSON record `{Type, Data, SenderId, ReceiverId, RoomId}`; an absent
      field decodes to the empty string. */
  datatype SignalingData = SignalingData(
    msgType: string,
    data: string,
    senderId: NodeId,
    receiverId: NodeId,
    roomId: string)

  /** What one write puts on a connection: the bytes of a relayed message as
      received, or the JSON encoding of a record built by the service. */
  datatype Msg = Raw(bytes: seq<byte>) | Encoded(record: SignalingData)
}
