/** Whole-service runs on a fresh SignalingService: what the outbox holds
    after a short sequence of HandleMessage and HandleClose calls. */
module Scenarios {
  import opened Wire
  import opened Rooms
  import opened Pairing
  import opened Channels
  import opened Signaling

  /** A join request from `sender` for room `roomId`, as a client sends it. */
  function JoinRequest(sender: NodeId, roomId: string): SignalingData {
    SignalingData(RequestType, "", sender, NodeId(""), roomId)
  }

  /** The writes of the join that makes a two-member room [a, b]. */
  lemma SecondJoinWrites(a: NodeId, b: NodeId, room: string, conns: ConnTable)
    requires a in conns && b in conns
    ensures Deliver(conns, RequestSends([a, b], room)) ==
      [(conns[a], Encoded(Introduction(a, b, room))), (conns[b], Encoded(Introduction(b, a, room)))]
  {
    RequestSendsRule([a, b], room);
    DeliverTwo(conns, (a, Encoded(Introduction(a, b, room))), (b, Encoded(Introduction(b, a, room))));
  }

  /** The writes of the join that makes a three-member room [a, b, c]. */
  lemma ThirdJoinWrites(a: NodeId, b: NodeId, c: NodeId, room: string, conns: ConnTable)
    requires a in conns && b in conns && c in conns
    ensures Deliver(conns, RequestSends([a, b, c], room)) ==
      [(conns[a], Encoded(Introduction(a, c, room))), (conns[c], Encoded(Introduction(c, a, room))),
       (conns[b], Encoded(Introduction(b, c, room))), (conns[c], Encoded(Introduction(c, b, room)))]
  {
    RequestSendsRule([a, b, c], room);
    DeliverAppend(conns, PairSends(a, c, room), PairSends(b, c, room));
    DeliverTwo(conns, (a, Encoded(Introduction(a, c, room))), (c, Encoded(Introduction(c, a, room))));
    DeliverTwo(conns, (b, Encoded(Introduction(b, c, room))), (c, Encoded(Introduction(c, b, room))));
  }

  /** Two distinct nodes a and b join one room, a on session "1" over
      connection 1, then b on session "2" over connection 2: the first join
      writes nothing, the second introduces b to a and a to b. */
  method TwoJoined(a: NodeId, b: NodeId, room: string) returns (s: SignalingService)
    requires a != b
    ensures fresh(s) && s.Valid()
    ensures s.nodeToConn == map[a := ConnId(1), b := ConnId(2)]
    ensures s.sessionToNode == map["1" := a, "2" := b]
    ensures s.roomNodes == map[room := [a, b]]
    ensures s.nodeToRoom == map[a := room, b := room]
    ensures s.outbox == [
      (ConnId(1), Encoded(Introduction(a, b, room))),
      (ConnId(2), Encoded(Introduction(b, a, room)))]
  {
    s := new SignalingService();
    assert Joined(Members(map[], room), a) == [a];
    s.HandleMessage(ConnId(1), "1", [], Some(JoinRequest(a, room)));
    assert s.roomNodes == map[room := [a]] && s.outbox == [];
    assert Joined([a], b) == [a, b];
    s.HandleMessage(ConnId(2), "2", [], Some(JoinRequest(b, room)));
    SecondJoinWrites(a, b, room, s.nodeToConn);
  }

  /** A third distinct node c joins after a and b: c is introduced to a,
      then to b, and a and b are not introduced again. */
  method ThreeJoins(a: NodeId, b: NodeId, c: NodeId, room: string) returns (out: seq<(ConnId, Msg)>)
    requires a != b && a != c && b != c
    ensures out == [
      (ConnId(1), Encoded(Introduction(a, b, room))),
      (ConnId(2), Encoded(Introduction(b, a, room))),
      (ConnId(1), Encoded(Introduction(a, c, room))),
      (ConnId(3), Encoded(Introduction(c, a, room))),
      (ConnId(2), Encoded(Introduction(b, c, room))),
      (ConnId(3), Encoded(Introduction(c, b, room)))]
  {
    var s := TwoJoined(a, b, room);
    assert Joined([a, b], c) == [a, b, c];
    s.HandleMessage(ConnId(3), "3", [], Some(JoinRequest(c, room)));
    ThirdJoinWrites(a, b, c, room, s.nodeToConn);
    out := s.outbox;
  }

  /** b sends its Request a second time: nobody is added, but the a-b
      introduction is repeated. */
  method RepeatedJoin(a: NodeId, b: NodeId, room: string) returns (out: seq<(ConnId, Msg)>, members: seq<NodeId>)
    requires a != b
    ensures members == [a, b]
    ensures out == [
      (ConnId(1), Encoded(Introduction(a, b, room))),
      (ConnId(2), Encoded(Introduction(b, a, room))),
      (ConnId(1), Encoded(Introduction(a, b, room))),
      (ConnId(2), Encoded(Introduction(b, a, room)))]
  {
    var s := TwoJoined(a, b, room);
    SecondJoinWrites(a, b, room, s.nodeToConn);
    s.HandleMessage(ConnId(2), "2", [], Some(JoinRequest(b, room)));
    out := s.outbox;
    members := s.roomNodes[room];
  }

  /** b relays a frame to a, which arrives verbatim on a's connection; after
      a's session closes, a has left the room and a second relay to a is
      dropped. */
  method RelayAndDisconnect(a: NodeId, b: NodeId, room: string, frame: seq<byte>)
    returns (out: seq<(ConnId, Msg)>, members: seq<NodeId>)
    requires a != b
    ensures members == [b]
    ensures out == [
      (ConnId(1), Encoded(Introduction(a, b, room))),
      (ConnId(2), Encoded(Introduction(b, a, room))),
      (ConnId(1), Raw(frame))]
  {
    var s := TwoJoined(a, b, room);
    var relay := SignalingData("Offer", "", b, a, "");
    s.HandleMessage(ConnId(2), "2", frame, Some(relay));
    s.HandleClose("1");
    assert s.roomNodes[room] == RemoveFirst([a, b], a) == [b];
    s.HandleMessage(ConnId(2), "2", frame, Some(relay));
    out := s.outbox;
    members := s.roomNodes[room];
  }
}
