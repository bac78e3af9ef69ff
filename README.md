# mistnet-signaling: the signaling service in Dafny

This project models `SignalingService` from `pkg/signaling.go`. It is the
WebRTC signaling relay of mistnet-signaling, and it keeps four in-memory tables:

- `nodeToConn`: node → the connection its writes go to;
- `sessionToNode`: session id → the node that last spoke on it;
- `roomNodes`: room id → member list in join order;
- `nodeToRoom`: node → the room recorded for it.

Two entry points change the tables. `HandleMessage` handles every frame read
on a session. It records the session's node and binds the node's connection;
the first binding wins. A `"Request"` then adds the sender to a room (without
duplicates) and introduces members of that room to each other; any other
message is relayed verbatim to its `ReceiverId`. `HandleClose` runs once
a session's read loop ends. It takes the node out of its recorded room,
unbinds its connection and forgets the session.

Layout:

- `wire.dfy` (module `Wire`): node and connection identities, the
  `SignalingData` record, and `Msg`, which is what one write puts on a
  connection. A write carries either the relayed bytes (`Raw`) or a record
  the service encodes (`Encoded`).
- `rooms.dfy` (module `Rooms`): the room lists.
  - Joining (`Joined`, `JoinRooms`, `JoinOwners`) and leaving
    (`RemoveFirst`, `LeaveRooms`, `LeaveRoomId`).
  - `FirstIndex`, the early-exit search loop that both `addNodeToRoom`
    and `removeNodeFromRoom` run.
  - The invariant `RoomsValid`: every room list is non-empty and free of
    duplicates, and a node's recorded room exists and lists the node.
- `pairing.dfy` (module `Pairing`): the pairing rule of `sendRequest` as a
  function of the member list, and the introduction records of `sendPair`.
  It also proves that a history of joins introduces each member to exactly
  the (at most two) members that joined just before it: a rolling mesh,
  not a full mesh.
- `channels.dfy` (module `Channels`): the connection registry (`Bind`,
  where the first binding wins) and the writes a list of addressed messages
  produces (`Write`, `Deliver`). A message to a node without a connection
  is dropped.
- `signaling.dfy` (module `Signaling`): the class `SignalingService`.
  - Its fields are the four tables plus `outbox`, the sequence of every
    write performed, each with the connection written to.
  - Its methods follow the Go functions one for one, in place, with the
    same loops and the same order of writes.
  - Each method is proved against the pure definitions above, and the two
    entry points keep `RoomsValid`.
- `scenarios.dfy` (module `Scenarios`): short runs on a fresh service,
  with the exact outbox they produce.

The model keeps these behaviours of the code as they are:

- A Request from a node already in the room returns before `nodeToRoom` is
  written.
- A join to a second room overwrites the node's `nodeToRoom` entry but leaves the node in the
  first room's list.
- Closing a node with no recorded room removes it from the room with the
  empty id.
- Pairing runs again on a Request that added nobody.
- Closing any session of a node unbinds that node's connection, even when
  a different connection bound it.

## Model

| member | source | states |
|---|---|---|
| Rooms.JoinedShape | pkg/signaling.go:110-119 | after a Request the sender is in the room list; the earlier members keep their places; the list grows by one exactly when the sender was absent; its members are the old ones plus the sender |
| Rooms.JoinedNoDup | pkg/signaling.go:110-119 | joining keeps a duplicate-free room list duplicate-free |
| Rooms.JoinIdempotent | pkg/signaling.go:110-115 | a second join by the same node changes nothing |
| Rooms.JoinAllAppends | pkg/signaling.go:116-119 | joins by distinct newcomers append them in the order the joins were handled |
| Rooms.FirstIndex | pkg/signaling.go:110-115 | the for-range search with early exit returns the first index of the node, and it returns the list length exactly when the node is absent |
| Rooms.RemoveFirst | pkg/signaling.go:209-214 | removing a member shortens the list by one; removing an absent node leaves the list unchanged |
| Rooms.RemoveFirstAt | pkg/signaling.go:209-214 | the splice `nodes[:i] + nodes[i+1:]` at the first index of the node is the removal of its first occurrence |
| Rooms.RemoveFirstCounts | pkg/signaling.go:209-214 | exactly one copy of the node leaves the multiset of members; every other member keeps its count |
| Rooms.RemoveFirstKeepsOthers | pkg/signaling.go:209-214 | every other member stays in the list |
| Rooms.SpliceNoDup | pkg/signaling.go:211 | splicing a duplicate-free list at i drops nodes[i] for good and keeps the list duplicate-free |
| Rooms.RemoveFirstNoDup | pkg/signaling.go:209-214 | on a duplicate-free list the node is gone after removal and the list stays duplicate-free |
| Rooms.RemoveAppended | pkg/signaling.go:116-119 | removing a node just appended to a list that lacked it gives the list back |
| Rooms.JoinPreservesValid | pkg/signaling.go:103-120 | a join keeps every room list non-empty and duplicate-free, and keeps every recorded room existing and listing its node |
| Rooms.LeavePreservesValid | pkg/signaling.go:181-223 | a close keeps the same invariant, including when the recorded room defaults to the empty id |
| Rooms.CrossRoomJoinLeavesGhost | pkg/signaling.go:116-119 | a join to a second room points the node at the new room and leaves it listed in the old one |
| Rooms.RejoinIsNoOp | pkg/signaling.go:110-115 | a Request from a member changes neither the room table nor the recorded rooms |
| Rooms.JoinThenLeave | pkg/signaling.go:103-223 | a newcomer's join followed by its close restores the room table and the other nodes' recorded rooms |
| Rooms.LeaveRemovesNode | pkg/signaling.go:198-218 | closing a node takes it out of its recorded room and leaves every other room's list as it was |
| Pairing.PairsIntroduceNewest | pkg/signaling.go:141-152 | there are no pairs below two members, one pair at two and two pairs from three; every pair joins the newest member with one of the members just before it, in order, and never with itself |
| Pairing.SendsFor | pkg/signaling.go:155-174 | each pairing yields exactly two writes |
| Pairing.SendsForMirrors | pkg/signaling.go:155-174 | pairing (a, b) writes to a the Request naming b as sender, then to b the mirror record; every record is a Request for the room, addressed to the node it is written to |
| Pairing.RequestSendsRule | pkg/signaling.go:134-153 | with two members the writes are those of sendPair(m[0], m[1]); with n ≥ 3 they are sendPair(m[n-3], m[n-1]) followed by sendPair(m[n-2], m[n-1]); with fewer than two there are none |
| Pairing.PairsOfJoin | pkg/signaling.go:141-152 | the pairs of one join are exactly the newest member with each of the (at most two) members before it |
| Pairing.NeighboursAreIntroduced | pkg/signaling.go:141-152 | over a history of joins each member is introduced to each of the two members that joined just before it |
| Pairing.IntroducedAreNeighbours | pkg/signaling.go:141-152 | over such a history no other pair is ever introduced |
| Pairing.PairingScenarios | pkg/signaling.go:141-152 | the pairs for rooms [a, b], [a, b, c] and [a, b, c, d] |
| Channels.Bind | pkg/signaling.go:81-85 | after a message the sender is bound; an existing binding wins over the new connection; every other binding is untouched |
| Channels.Write | pkg/signaling.go:122-132 | a send produces a write exactly when the addressee has a connection |
| Channels.DeliverCons | pkg/signaling.go:122-132 | delivering a message before others yields its write, then theirs |
| Channels.DeliverAppend | pkg/signaling.go:150-151 | the writes of consecutive sends are concatenated in order |
| Channels.DeliverAllBound | pkg/signaling.go:122-132 | when every addressee is bound, each message goes out on its addressee's connection, in order |
| Channels.DeliverTwo | pkg/signaling.go:172-173 | two sends produce the first one's write followed by the second one's |
| Channels.DeliverNoneBound | pkg/signaling.go:128-130 | messages to nodes without a connection produce no write at all |
| Signaling.RequestWritesSplit | pkg/signaling.go:144-151 | with three or more members, the writes of sendRequest are those of its two sendPair calls, in order |
| Signaling.SignalingService.constructor | pkg/signaling.go:56-65 | a new service has four empty tables and no writes, and satisfies the invariant |
| Signaling.SignalingService.HandleMessage | pkg/signaling.go:67-101 | the handler keeps the invariant. A decode failure changes nothing. Otherwise the session is set to the sender and the sender's connection is bound unless it already has one. A Request then applies the join and produces the pairing writes for the resulting member list, but only when that list has at least two members. Any other message writes the raw bytes to the receiver's connection and leaves the rooms alone |
| Signaling.SignalingService.AddNodeToRoom | pkg/signaling.go:103-120 | the room table becomes JoinRooms and the recorded rooms become JoinOwners of the old tables |
| Signaling.SignalingService.Send | pkg/signaling.go:122-132 | the outbox grows by the one write to the node's connection, or by nothing when it has none |
| Signaling.SignalingService.SendRequest | pkg/signaling.go:134-153 | the outbox grows by the writes of the pairing rule for the room's current member list |
| Signaling.SignalingService.SendPair | pkg/signaling.go:155-174 | the outbox grows by the write introducing b to a, then the write introducing a to b |
| Signaling.SignalingService.HandleClose | pkg/signaling.go:176-196 | the handler keeps the invariant; the session is always forgotten and nothing is written. A known session's node loses its binding and its `nodeToRoom` entry, and it leaves the room recorded for it, or the empty-id room when it has none. An unknown session changes nothing else |
| Signaling.SignalingService.RemoveNodeFromRoom | pkg/signaling.go:198-223 | the node's `nodeToRoom` entry is deleted, its first occurrence is spliced out of the room, and the room is deleted once its list is empty |
| Scenarios.SecondJoinWrites | pkg/signaling.go:141-143 | the second member's join writes an introduction to each of the two members |
| Scenarios.ThirdJoinWrites | pkg/signaling.go:144-151 | the third member's join introduces it to the first member, then to the second |
| Scenarios.TwoJoined | pkg/signaling.go:67-174 | after two joins on a fresh service: the exact tables and the two writes of the first pairing |
| Scenarios.ThreeJoins | pkg/signaling.go:67-174 | after three joins the outbox holds the a-b pairing, then c with a, then c with b |
| Scenarios.RepeatedJoin | pkg/signaling.go:87-97 | a member's repeated Request adds nobody and repeats the a-b introduction |
| Scenarios.RelayAndDisconnect | pkg/signaling.go:99-223 | a relayed frame arrives verbatim; after the receiver's session closes, it has left the room and a second relay to it is dropped |

## Left out

- pkg/server.go (WebSocket upgrade, the read loop, the HTTP listener,
  origin check, panic recovery), pkg/config.go (configuration file I/O),
  pkg/logger/logger.go with every `logger.Debug` call, and main.go are
  not part of this model. Each is I/O or process bootstrap. The server
  only makes the per-frame `HandleMessage` calls and the final
  `HandleClose`.
- Mutexes (`roomNodesMu`, `nodeToConnMu`, `sessionMu`, `SafeConn.mu`) and
  the race between the length check and `sendRequest` are not modelled.
  Every call to `HandleMessage` and `HandleClose` is treated as atomic.
- `json.Unmarshal` is not modelled. The model takes its outcome as an
  `Option<SignalingData>` parameter beside the raw bytes, with `None` for
  a decode error.
- `json.Marshal` is not modelled. An introduction is written as
  `Encoded(record)`, so the bytes of the JSON text (including the
  `omitempty` handling of `Data`) are not modelled.
- Write errors are ignored in the code. The outbox records every attempted
  write, and the WebSocket message type (always a text frame) is not
  recorded.
- The `*websocket.Conn` and `*SafeConn` handles are opaque `ConnId` values.
  The `conn` argument of `HandleClose` is unused in the code and is
  omitted.
- `SignalingData.Data` is carried along but never interpreted, matching
  the code. `NodeIdWithData` is declared but unused in the code and is not
  modelled.
