/** The signaling service of pkg/signaling.go: four in-memory tables updated
    in place by the two entry points the WebSocket server calls,
    HandleMessage for every frame read on a session and HandleClose once the
    session's read loop ends. Every write to a connection is appended to
    `outbox`. Each call is treated as atomic. */
module Signaling {
  import opened Wire
  import opened Rooms
  import opened Pairing
  import opened Channels

  /** With three or more members, sendRequest's writes are those of its two
      sendPair calls, in order. */
  lemma RequestWritesSplit(conns: ConnTable, m: seq<NodeId>, roomId: string)
    requires |m| >= 3
    ensures Deliver(conns, RequestSends(m, roomId)) ==
      Deliver(conns, PairSends(m[|m| - 3], m[|m| - 1], roomId)) +
      Deliver(conns, PairSends(m[|m| - 2], m[|m| - 1], roomId))
  {
    RequestSendsRule(m, roomId);
    DeliverAppend(conns, PairSends(m[|m| - 3], m[|m| - 1], roomId), PairSends(m[|m| - 2], m[|m| - 1], roomId));
  }

  class SignalingService {
    /** node -> the connection its writes go to */
    var nodeToConn: ConnTable
    /** session id -> the node that last spoke on it */
    var sessionToNode: map<string, NodeId>
    /** room id -> members in join order */
    var roomNodes: RoomTable
    /** node -> the room recorded for it */
    var nodeToRoom: NodeRooms
    /** every write performed, in order, with the connection written to */
    var outbox: seq<(ConnId, Msg)>

    ghost predicate Valid()
      reads this
    {
      RoomsValid(roomNodes, nodeToRoom)
    }

    constructor ()
      ensures Valid()
      ensures nodeToConn == map[] && sessionToNode == map[]
      ensures roomNodes == map[] && nodeToRoom == map[] && outbox == []
    {
      nodeToConn := map[];
      sessionToNode := map[];
      roomNodes := map[];
      nodeToRoom := map[];
      outbox := [];
    }

    /** A frame `message` read on session `sessionId` over connection `conn`;
        `decoded` is what JSON decoding of `message` yields (None on error). */
    method HandleMessage(conn: ConnId, sessionId: string, message: seq<byte>, decoded: Option<SignalingData>)
      requires Valid()
      modifies this
      ensures Valid()
      ensures decoded.None? ==>
        nodeToConn == old(nodeToConn) && sessionToNode == old(sessionToNode) &&
        roomNodes == old(roomNodes) && nodeToRoom == old(nodeToRoom) && outbox == old(outbox)
      ensures decoded.Some? ==>
        var d := decoded.value;
        sessionToNode == old(sessionToNode)[sessionId := d.senderId] &&
        nodeToConn == Bind(old(nodeToConn), d.senderId, conn)
      ensures decoded.Some? && decoded.value.msgType == RequestType ==>
        var d := decoded.value;
        var members := Joined(Members(old(roomNodes), d.roomId), d.senderId);
        roomNodes == JoinRooms(old(roomNodes), d.roomId, d.senderId) &&
        nodeToRoom == JoinOwners(old(roomNodes), old(nodeToRoom), d.roomId, d.senderId) &&
        outbox == old(outbox) +
          (if |members| >= 2 then Deliver(nodeToConn, RequestSends(members, d.roomId)) else [])
      ensures decoded.Some? && decoded.value.msgType != RequestType ==>
        var d := decoded.value;
        roomNodes == old(roomNodes) && nodeToRoom == old(nodeToRoom) &&
        outbox == old(outbox) + Write(nodeToConn, d.receiverId, Raw(message))
    {
      if decoded.None? {
        return;
      }
      var data := decoded.value;

      ghost var rooms, owners := roomNodes, nodeToRoom;
      sessionToNode := sessionToNode[sessionId := data.senderId];
      ghost var sessions := sessionToNode;

      if data.senderId !in nodeToConn {
        nodeToConn := nodeToConn[data.senderId := conn];
      }
      ghost var conns := nodeToConn;
      assert conns == Bind(old(nodeToConn), data.senderId, conn);

      if data.msgType == RequestType {
        ghost var rooms' := JoinRooms(rooms, data.roomId, data.senderId);
        ghost var owners' := JoinOwners(rooms, owners, data.roomId, data.senderId);
        AddNodeToRoom(data);
        assert roomNodes == rooms' && nodeToRoom == owners';
        ghost var members := Joined(Members(rooms, data.roomId), data.senderId);
        assert Members(roomNodes, data.roomId) == members;
        JoinPreservesValid(rooms, owners, data.roomId, data.senderId);
        var roomNodesLen := |Members(roomNodes, data.roomId)|;
        if roomNodesLen >= 2 {
          SendRequest(data.roomId);
        }
        assert outbox == old(outbox) +
          (if |members| >= 2 then Deliver(conns, RequestSends(members, data.roomId)) else []);
        assert nodeToConn == conns && roomNodes == rooms' && nodeToRoom == owners';
        assert sessionToNode == sessions;
        return;
      }

      Send(data.receiverId, Raw(message));
      assert nodeToConn == conns && roomNodes == rooms && nodeToRoom == owners;
      assert sessionToNode == sessions;
    }

    /** addNodeToRoom: appends the sender to its room unless already there,
        and only then points the sender at that room. */
    method AddNodeToRoom(data: SignalingData)
      modifies this`roomNodes, this`nodeToRoom
      ensures roomNodes == JoinRooms(old(roomNodes), data.roomId, data.senderId)
      ensures nodeToRoom == JoinOwners(old(roomNodes), old(nodeToRoom), data.roomId, data.senderId)
    {
      if data.roomId !in roomNodes {
        roomNodes := roomNodes[data.roomId := []];
      }
      var i := FirstIndex(roomNodes[data.roomId], data.senderId);
      if i < |roomNodes[data.roomId]| {
        return;
      }
      var nodes := roomNodes[data.roomId] + [data.senderId];
      nodeToRoom := nodeToRoom[data.senderId := data.roomId];
      roomNodes := roomNodes[data.roomId := nodes];
    }

    /** send: one write on the node's connection, or nothing when it has none. */
    method Send(nodeId: NodeId, message: Msg)
      modifies this`outbox
      ensures outbox == old(outbox) + Write(nodeToConn, nodeId, message)
    {
      if nodeId in nodeToConn {
        outbox := outbox + [(nodeToConn[nodeId], message)];
      }
    }

    /** sendRequest: the pairings for the room's current member list. */
    method SendRequest(roomId: string)
      modifies this`outbox
      ensures outbox == old(outbox) + Deliver(nodeToConn, RequestSends(Members(roomNodes, roomId), roomId))
    {
      var nodes := Members(roomNodes, roomId);
      var count := |nodes|;

      if count == 2 {
        SendPair(nodes[0], nodes[1], roomId);
        assert RequestSends(nodes, roomId) == PairSends(nodes[0], nodes[1], roomId) by {
          RequestSendsRule(nodes, roomId);
        }
      } else if count >= 3 {
        var newNode := nodes[count - 1];
        var prev1 := nodes[count - 2];
        var prev2 := nodes[count - 3];

        SendPair(prev2, newNode, roomId);
        SendPair(prev1, newNode, roomId);
        RequestWritesSplit(nodeToConn, nodes, roomId);
      } else {
        assert RequestSends(nodes, roomId) == [] by {
          RequestSendsRule(nodes, roomId);
        }
      }
    }

    /** sendPair: introduces b to a, then a to b. */
    method SendPair(nodeA: NodeId, nodeB: NodeId, roomId: string)
      modifies this`outbox
      ensures outbox == old(outbox) + Deliver(nodeToConn, PairSends(nodeA, nodeB, roomId))
    {
      var nodeAData := Introduction(nodeA, nodeB, roomId);
      var nodeBData := Introduction(nodeB, nodeA, roomId);

      Send(nodeA, Encoded(nodeAData));
      Send(nodeB, Encoded(nodeBData));
      DeliverTwo(nodeToConn, (nodeA, Encoded(nodeAData)), (nodeB, Encoded(nodeBData)));
    }

    /** The session's read loop has ended. */
    method HandleClose(sessionId: string)
      requires Valid()
      modifies this
      ensures Valid()
      ensures sessionToNode == old(sessionToNode) - {sessionId}
      ensures outbox == old(outbox)
      ensures sessionId !in old(sessionToNode) ==>
        nodeToConn == old(nodeToConn) && roomNodes == old(roomNodes) && nodeToRoom == old(nodeToRoom)
      ensures sessionId in old(sessionToNode) ==>
        var n := old(sessionToNode)[sessionId];
        nodeToConn == old(nodeToConn) - {n} &&
        nodeToRoom == old(nodeToRoom) - {n} &&
        roomNodes == LeaveRooms(old(roomNodes), LeaveRoomId(old(nodeToRoom), n), n)
    {
      if sessionId in sessionToNode {
        var nodeId := sessionToNode[sessionId];
        var roomId := if nodeId in nodeToRoom then nodeToRoom[nodeId] else "";
        LeavePreservesValid(roomNodes, nodeToRoom, nodeId);
        RemoveNodeFromRoom(nodeId, roomId);
        nodeToConn := nodeToConn - {nodeId};
      }
      sessionToNode := sessionToNode - {sessionId};
    }

    /** removeNodeFromRoom: forgets the node's recorded room, removes its
        first occurrence from room roomId and deletes the room once empty. */
    method RemoveNodeFromRoom(nodeId: NodeId, roomId: string)
      modifies this`roomNodes, this`nodeToRoom
      ensures nodeToRoom == old(nodeToRoom) - {nodeId}
      ensures roomNodes == LeaveRooms(old(roomNodes), roomId, nodeId)
    {
      nodeToRoom := nodeToRoom - {nodeId};

      var nodes := Members(roomNodes, roomId);
      var i := FirstIndex(nodes, nodeId);
      if i < |nodes| {
        RemoveFirstAt(nodes, nodeId, i);
        roomNodes := roomNodes[roomId := nodes[..i] + nodes[i + 1..]];
      }
      // roomId now holds the list with nodeId's first occurrence removed
      assert roomId in old(roomNodes) ==> roomNodes == old(roomNodes)[roomId := RemoveFirst(nodes, nodeId)];
      assert roomId !in old(roomNodes) ==> roomNodes == old(roomNodes);

      if |Members(roomNodes, roomId)| == 0 {
        roomNodes := roomNodes - {roomId};
      }
    }
  }
}
