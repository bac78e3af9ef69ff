/** The room table: room id to ordered member list, and node to the room it
    last joined. Pure definitions of joining and leaving, the linear search
    both use, and the invariant the service keeps over the two maps. */
module Rooms {
  import opened Wire

  /** room id -> members in join order */
  type RoomTable = map<string, seq<NodeId>>
  /** node -> the room recorded for it */
  type NodeRooms = map<NodeId, string>

  predicate NoDup(s: seq<NodeId>) {
    forall i, j :: 0 <= i < j < |s| ==> s[i] != s[j]
  }

  /** The list Go reads for `roomNodes[r]`: nil, i.e. empty, when r is absent. */
  function Members(rooms: RoomTable, r: string): seq<NodeId> {
    if r in rooms then rooms[r] else []
  }

  /** The member list after n sends a Request for a room whose list was m:
      n is appended only when absent. */
  function Joined(m: seq<NodeId>, n: NodeId): seq<NodeId> {
    if n in m then m else m + [n]
  }

  /** After the join n is a member, every earlier member keeps its place,
      and the list grew by one exactly when n was not yet a member. */
  lemma JoinedShape(m: seq<NodeId>, n: NodeId)
    ensures |Joined(m, n)| == if n in m then |m| else |m| + 1
    ensures n in Joined(m, n) && Joined(m, n)[..|m|] == m
    ensures forall x :: x in Joined(m, n) <==> x in m || x == n
  {
  }

  /** Joining keeps a member list free of duplicates. */
  lemma JoinedNoDup(m: seq<NodeId>, n: NodeId)
    requires NoDup(m)
    ensures NoDup(Joined(m, n))
  {
  }

  /** Joining twice is joining once. */
  lemma JoinIdempotent(m: seq<NodeId>, n: NodeId)
    ensures Joined(Joined(m, n), n) == Joined(m, n)
  {
  }

  /** Joins of distinct newcomers, one after another, in this order. */
  function JoinAll(m: seq<NodeId>, ns: seq<NodeId>): seq<NodeId>
    decreases |ns|
  {
    if ns == [] then m else JoinAll(Joined(m, ns[0]), ns[1..])
  }

  /** Joins of distinct nodes that are not yet members append all of them,
      each exactly once, in the order the joins were handled. */
  lemma {:induction false} JoinAllAppends(m: seq<NodeId>, ns: seq<NodeId>)
    requires NoDup(ns)
    requires forall i :: 0 <= i < |ns| ==> ns[i] !in m
    ensures JoinAll(m, ns) == m + ns
    decreases |ns|
  {
    if ns != [] {
      var head, tail := ns[0], ns[1..];
      var m' := m + [head];
      assert head !in m;
      assert Joined(m, head) == m';
      assert JoinAll(m, ns) == JoinAll(m', tail);
      forall i | 0 <= i < |tail|
        ensures tail[i] !in m'
      {
        assert tail[i] == ns[i + 1] && ns[i + 1] != ns[0];
        assert ns[i + 1] !in m;
      }
      forall i, j | 0 <= i < j < |tail|
        ensures tail[i] != tail[j]
      {
        assert tail[i] == ns[i + 1] && tail[j] == ns[j + 1];
      }
      JoinAllAppends(m', tail);
      assert m' + tail == m + ns;
    }
  }

  /** Removal of the first occurrence of x, the rest kept in order. */
  function RemoveFirst(s: seq<NodeId>, x: NodeId): (r: seq<NodeId>)
    ensures x in s ==> |r| == |s| - 1
    ensures x !in s ==> r == s
  {
    if s == [] then []
    else
      assert s == [s[0]] + s[1..];
      if s[0] == x then s[1..] else [s[0]] + RemoveFirst(s[1..], x)
  }

  /** RemoveFirst is the splice `s[..i] + s[i+1..]` at the first index of x. */
  lemma {:induction false} RemoveFirstAt(s: seq<NodeId>, x: NodeId, i: nat)
    requires i < |s| && s[i] == x && x !in s[..i]
    ensures RemoveFirst(s, x) == s[..i] + s[i + 1..]
  {
    if i == 0 {
      assert RemoveFirst(s, x) == s[1..];
    } else {
      var t := s[1..];
      assert s[0] != x by { assert s[0] == s[..i][0]; }
      assert x !in t[..i - 1] by { assert t[..i - 1] == s[..i][1..]; }
      RemoveFirstAt(t, x, i - 1);
      calc {
        RemoveFirst(s, x);
        [s[0]] + RemoveFirst(t, x);
        [s[0]] + (t[..i - 1] + t[i..]);
        { assert [s[0]] + t[..i - 1] == s[..i]; assert t[i..] == s[i + 1..]; }
        s[..i] + s[i + 1..];
      }
    }
  }

  /** Exactly one copy of x goes, when there is one; every other member keeps
      its count. */
  lemma {:induction false} RemoveFirstCounts(s: seq<NodeId>, x: NodeId)
    ensures multiset(RemoveFirst(s, x)) == multiset(s) - multiset{x}
  {
    if s != [] {
      assert s == [s[0]] + s[1..];
      if s[0] != x {
        RemoveFirstCounts(s[1..], x);
      }
    }
  }

  /** Every member other than x stays. */
  lemma RemoveFirstKeepsOthers(s: seq<NodeId>, x: NodeId)
    ensures forall y :: y != x ==> (y in RemoveFirst(s, x) <==> y in s)
  {
    var r := RemoveFirst(s, x);
    RemoveFirstCounts(s, x);
    forall y | y != x
      ensures y in r <==> y in s
    {
      assert multiset(r)[y] == multiset(s)[y];
    }
  }

  /** The splice of a duplicate-free list at i drops s[i] for good and stays
      duplicate-free. */
  lemma SpliceNoDup(s: seq<NodeId>, i: nat)
    requires NoDup(s) && i < |s|
    ensures s[i] !in s[..i] + s[i + 1..]
    ensures NoDup(s[..i] + s[i + 1..])
  {
  }

  /** On a duplicate-free list x is gone afterwards and the list stays
      duplicate-free. */
  lemma RemoveFirstNoDup(s: seq<NodeId>, x: NodeId)
    requires NoDup(s)
    ensures x !in RemoveFirst(s, x)
    ensures NoDup(RemoveFirst(s, x))
  {
    if x in s {
      var i :| 0 <= i < |s| && s[i] == x;
      assert x !in s[..i];
      RemoveFirstAt(s, x, i);
      SpliceNoDup(s, i);
    }
  }

  /** Position of the first occurrence of x in s, or |s| when it is absent:
      the range loop with early exit of pkg/signaling.go. */
  method FirstIndex(s: seq<NodeId>, x: NodeId) returns (i: nat)
    ensures i <= |s|
    ensures x !in s[..i]
    ensures i < |s| ==> s[i] == x
    ensures i == |s| <==> x !in s
  {
    i := 0;
    while i < |s|
      invariant i <= |s|
      invariant x !in s[..i]
    {
      if s[i] == x {
        return;
      }
      assert s[..i + 1] == s[..i] + [s[i]];
      i := i + 1;
    }
    assert s[..i] == s;
  }

  /** The room table after a Request from n for room r. */
  function JoinRooms(rooms: RoomTable, r: string, n: NodeId): RoomTable {
    rooms[r := Joined(Members(rooms, r), n)]
  }

  /** The recorded rooms after a Request from n for room r: overwritten only
      when n was appended; a member's re-join leaves them as they were. */
  function JoinOwners(rooms: RoomTable, owners: NodeRooms, r: string, n: NodeId): NodeRooms {
    if n in Members(rooms, r) then owners else owners[n := r]
  }

  /** The room a closing node is removed from: its recorded room, or the
      empty room id (Go's zero value) when it has none. */
  function LeaveRoomId(owners: NodeRooms, n: NodeId): string {
    if n in owners then owners[n] else ""
  }

  /** The room table after n leaves room r: its first occurrence is removed
      and the room is deleted once its list is empty. */
  function LeaveRooms(rooms: RoomTable, r: string, n: NodeId): RoomTable {
    if r !in rooms then rooms
    else
      var rest := RemoveFirst(rooms[r], n);
      if rest == [] then rooms - {r} else rooms[r := rest]
  }

  /** Every room list is non-empty and duplicate-free, and a node's recorded
      room exists and lists it. */
  ghost predicate RoomsValid(rooms: RoomTable, owners: NodeRooms) {
    (forall r {:trigger RoomOk(rooms, r)} :: r in rooms ==> RoomOk(rooms, r)) &&
    (forall n {:trigger OwnerOk(rooms, owners, n)} :: n in owners ==> OwnerOk(rooms, owners, n))
  }

  /** Room r's list is non-empty and duplicate-free. */
  ghost predicate RoomOk(rooms: RoomTable, r: string)
    requires r in rooms
  {
    rooms[r] != [] && NoDup(rooms[r])
  }

  /** Node n's recorded room exists and lists n. */
  ghost predicate OwnerOk(rooms: RoomTable, owners: NodeRooms, n: NodeId)
    requires n in owners
  {
    owners[n] in rooms && n in rooms[owners[n]]
  }

  lemma JoinPreservesValid(rooms: RoomTable, owners: NodeRooms, r: string, n: NodeId)
    requires RoomsValid(rooms, owners)
    ensures RoomsValid(JoinRooms(rooms, r, n), JoinOwners(rooms, owners, r, n))
  {
    var m := Members(rooms, r);
    var rooms' := JoinRooms(rooms, r, n);
    var owners' := JoinOwners(rooms, owners, r, n);
    assert NoDup(m) by {
      if r in rooms {
        assert RoomOk(rooms, r);
      }
    }
    JoinedNoDup(m, n);
    forall q | q in rooms'
      ensures RoomOk(rooms', q)
    {
      if q != r {
        assert RoomOk(rooms, q);
      }
    }
    forall x | x in owners'
      ensures OwnerOk(rooms', owners', x)
    {
      if x == n && n !in m {
        assert owners'[x] == r;
      } else {
        assert OwnerOk(rooms, owners, x);
        var q := owners[x];
        assert owners'[x] == q;
        if q == r {
          assert x in m;
          assert x in rooms'[q][..|m|];
        } else {
          assert rooms'[q] == rooms[q];
        }
      }
    }
  }

  lemma LeavePreservesValid(rooms: RoomTable, owners: NodeRooms, n: NodeId)
    requires RoomsValid(rooms, owners)
    ensures RoomsValid(LeaveRooms(rooms, LeaveRoomId(owners, n), n), owners - {n})
  {
    var r := LeaveRoomId(owners, n);
    var rooms' := LeaveRooms(rooms, r, n);
    var owners' := owners - {n};
    if r in rooms {
      assert RoomOk(rooms, r);
      RemoveFirstKeepsOthers(rooms[r], n);
      RemoveFirstNoDup(rooms[r], n);
    }
    forall q | q in rooms'
      ensures RoomOk(rooms', q)
    {
      if q != r {
        assert RoomOk(rooms, q);
      }
    }
    forall m | m in owners'
      ensures OwnerOk(rooms', owners', m)
    {
      assert OwnerOk(rooms, owners, m);
      if owners[m] == r {
        assert m in RemoveFirst(rooms[r], n);
      }
    }
  }

  /** A node's recorded room lists it, but not every member's recorded room is
      the room listing it: a Request for a second room points the node there
      and leaves it in the first room's list. */
  lemma CrossRoomJoinLeavesGhost(rooms: RoomTable, owners: NodeRooms, n: NodeId, r2: string)
    requires RoomsValid(rooms, owners)
    requires n in owners && owners[n] != r2 && n !in Members(rooms, r2)
    ensures n in Members(JoinRooms(rooms, r2, n), owners[n])
    ensures JoinOwners(rooms, owners, r2, n)[n] == r2
    ensures n in Members(JoinRooms(rooms, r2, n), r2)
  {
    assert OwnerOk(rooms, owners, n);
    JoinedShape(Members(rooms, r2), n);
  }

  /** A re-join by a member changes neither the table nor the recorded rooms. */
  lemma RejoinIsNoOp(rooms: RoomTable, owners: NodeRooms, r: string, n: NodeId)
    requires n in Members(rooms, r)
    ensures JoinRooms(rooms, r, n) == rooms
    ensures JoinOwners(rooms, owners, r, n) == owners
  {
  }

  /** Removing a node that was just appended to a list that did not hold it
      gives the list back. */
  lemma RemoveAppended(m: seq<NodeId>, n: NodeId)
    requires n !in m
    ensures RemoveFirst(m + [n], n) == m
  {
    RemoveFirstAt(m + [n], n, |m|);
    assert (m + [n])[..|m|] == m;
  }

  /** A newcomer's join undone by its close: the room table and the other
      nodes' recorded rooms are as before the join (an existing room is never
      empty, as RoomsValid guarantees). */
  lemma JoinThenLeave(rooms: RoomTable, owners: NodeRooms, r: string, n: NodeId)
    requires r in rooms ==> rooms[r] != []
    requires n !in Members(rooms, r)
    ensures var owners' := JoinOwners(rooms, owners, r, n);
      LeaveRooms(JoinRooms(rooms, r, n), LeaveRoomId(owners', n), n) == rooms &&
      owners' - {n} == owners - {n}
  {
    var m := Members(rooms, r);
    var joined := JoinRooms(rooms, r, n);
    assert joined == rooms[r := m + [n]];
    assert LeaveRoomId(JoinOwners(rooms, owners, r, n), n) == r;
    RemoveAppended(m, n);
    if r in rooms {
      assert LeaveRooms(joined, r, n) == joined[r := m];
    } else {
      assert LeaveRooms(joined, r, n) == joined - {r};
    }
  }

  /** Closing a node with a recorded room takes it out of that room, and
      every other room keeps its list. */
  lemma LeaveRemovesNode(rooms: RoomTable, owners: NodeRooms, n: NodeId)
    requires RoomsValid(rooms, owners)
    requires n in owners
    ensures var r := owners[n];
      n !in Members(LeaveRooms(rooms, r, n), r) &&
      (forall q :: q != r ==> Members(LeaveRooms(rooms, r, n), q) == Members(rooms, q))
  {
    assert OwnerOk(rooms, owners, n) && RoomOk(rooms, owners[n]);
    RemoveFirstNoDup(rooms[owners[n]], n);
  }
}
