/** The pairing rule: which members of a room are introduced to each other
    after a Request, and the introduction records sent for each pair. */
module Pairing {
  import opened Wire
  import opened Rooms

  /** The pairs introduced for a room whose members, in join order, are m:
      the two members of a two-member room, otherwise the newest member with
      each of the two members just before it. */
  function Pairs(m: seq<NodeId>): seq<(NodeId, NodeId)> {
    var count := |m|;
    if count == 2 then [(m[0], m[1])]
    else if count >= 3 then [(m[count - 3], m[count - 1]), (m[count - 2], m[count - 1])]
    else []
  }

  /** Every pair introduces the newest member to one of the (at most two)
      members that joined just before it, each of them exactly once; no pair
      is a node with itself. */
  lemma PairsIntroduceNewest(m: seq<NodeId>)
    requires NoDup(m)
    ensures |m| < 2 <==> Pairs(m) == []
    ensures |Pairs(m)| == if |m| >= 3 then 2 else if |m| == 2 then 1 else 0
    ensures forall k :: 0 <= k < |Pairs(m)| ==>
      Pairs(m)[k].1 == m[|m| - 1] &&
      Pairs(m)[k].0 == m[|m| - 1 - |Pairs(m)| + k] &&
      Pairs(m)[k].0 != Pairs(m)[k].1
  {
  }

  /** The record sent to `receiver` to introduce `peer`: a Request whose
      ReceiverId is the addressee and whose SenderId is the other node. */
  function Introduction(receiver: NodeId, peer: NodeId, roomId: string): SignalingData {
    SignalingData(RequestType, "", peer, receiver, roomId)
  }

  /** The two addressed writes of one pairing: first to a, then to b. */
  function PairSends(a: NodeId, b: NodeId, roomId: string): seq<(NodeId, Msg)> {
    [(a, Encoded(Introduction(a, b, roomId))), (b, Encoded(Introduction(b, a, roomId)))]
  }

  /** The addressed writes of a list of pairings, in order. */
  function SendsFor(ps: seq<(NodeId, NodeId)>, roomId: string): (out: seq<(NodeId, Msg)>)
    ensures |out| == 2 * |ps|
  {
    if ps == [] then [] else PairSends(ps[0].0, ps[0].1, roomId) + SendsFor(ps[1..], roomId)
  }

  /** Pairing (a, b) writes to a the record naming b as sender, then to b the
      mirror record; every record is a Request for the room, addressed to the
      node it is written to. */
  lemma {:induction false} SendsForMirrors(ps: seq<(NodeId, NodeId)>, roomId: string)
    ensures forall k :: 0 <= k < |ps| ==>
      SendsFor(ps, roomId)[2 * k] == (ps[k].0, Encoded(Introduction(ps[k].0, ps[k].1, roomId))) &&
      SendsFor(ps, roomId)[2 * k + 1] == (ps[k].1, Encoded(Introduction(ps[k].1, ps[k].0, roomId)))
    ensures forall j :: 0 <= j < |SendsFor(ps, roomId)| ==>
      SendsFor(ps, roomId)[j].1.Encoded? &&
      SendsFor(ps, roomId)[j].1.record.msgType == RequestType &&
      SendsFor(ps, roomId)[j].1.record.receiverId == SendsFor(ps, roomId)[j].0 &&
      SendsFor(ps, roomId)[j].1.record.roomId == roomId
  {
    if ps != [] {
      SendsForMirrors(ps[1..], roomId);
      var out := SendsFor(ps, roomId);
      var tail := SendsFor(ps[1..], roomId);
      assert out == PairSends(ps[0].0, ps[0].1, roomId) + tail;
      forall k | 0 <= k < |ps|
        ensures out[2 * k] == (ps[k].0, Encoded(Introduction(ps[k].0, ps[k].1, roomId)))
        ensures out[2 * k + 1] == (ps[k].1, Encoded(Introduction(ps[k].1, ps[k].0, roomId)))
      {
        if k > 0 {
          assert out[2 * k] == tail[2 * (k - 1)];
          assert out[2 * k + 1] == tail[2 * (k - 1) + 1];
          assert ps[1..][k - 1] == ps[k];
        }
      }
      forall j | 0 <= j < |out|
        ensures out[j].1.Encoded? && out[j].1.record.msgType == RequestType
        ensures out[j].1.record.receiverId == out[j].0 && out[j].1.record.roomId == roomId
      {
        if j >= 2 {
          assert out[j] == tail[j - 2];
        }
      }
    }
  }

  /** Everything sendRequest writes for room roomId with members m. */
  function RequestSends(m: seq<NodeId>, roomId: string): seq<(NodeId, Msg)> {
    SendsFor(Pairs(m), roomId)
  }

  /** The pairing rule as writes: with two members, A is introduced to B
      and B to A; with three or more, the newest member is introduced first
      to the member two places before it, then to the one just before it. */
  lemma RequestSendsRule(m: seq<NodeId>, roomId: string)
    ensures |m| < 2 ==> RequestSends(m, roomId) == []
    ensures |m| == 2 ==> RequestSends(m, roomId) == PairSends(m[0], m[1], roomId)
    ensures |m| >= 3 ==>
      RequestSends(m, roomId) ==
      PairSends(m[|m| - 3], m[|m| - 1], roomId) + PairSends(m[|m| - 2], m[|m| - 1], roomId)
  {
    var ps := Pairs(m);
    if |m| == 2 {
      assert ps[1..] == [];
    } else if |m| >= 3 {
      assert ps[1..] == [(m[|m| - 2], m[|m| - 1])] && ps[1..][1..] == [];
      assert SendsFor(ps[1..], roomId) == PairSends(m[|m| - 2], m[|m| - 1], roomId) + SendsFor([], roomId);
    }
  }

  /** The pairs introduced over a history of joins that grew the room to m,
      one join at a time with no departures. */
  ghost function IntroducedPairs(m: seq<NodeId>): set<(NodeId, NodeId)>
    decreases |m|
  {
    if m == [] then {}
    else IntroducedPairs(m[..|m| - 1]) + (set k | 0 <= k < |Pairs(m)| :: Pairs(m)[k])
  }

  /** The pairs one join adds: the newest member with each of the (at most
      two) members just before it. */
  lemma PairsOfJoin(m: seq<NodeId>, p: (NodeId, NodeId))
    requires |m| >= 2
    ensures p in (set k | 0 <= k < |Pairs(m)| :: Pairs(m)[k]) <==>
      p == (m[|m| - 2], m[|m| - 1]) || (|m| >= 3 && p == (m[|m| - 3], m[|m| - 1]))
  {
    var n := |m|;
    if n >= 3 {
      assert Pairs(m)[0] == (m[n - 3], m[n - 1]);
      assert Pairs(m)[1] == (m[n - 2], m[n - 1]);
    } else {
      assert Pairs(m)[0] == (m[0], m[1]);
    }
  }

  /** Over such a history every member is introduced to each of the (at most
      two) members that joined just before it. */
  lemma {:induction false} NeighboursAreIntroduced(m: seq<NodeId>)
    ensures forall i, j :: 0 <= i < j < |m| && j <= i + 2 ==> (m[i], m[j]) in IntroducedPairs(m)
    decreases |m|
  {
    if m != [] {
      var n := |m|;
      var pre := m[..n - 1];
      NeighboursAreIntroduced(pre);
      forall i, j | 0 <= i < j < n && j <= i + 2
        ensures (m[i], m[j]) in IntroducedPairs(m)
      {
        if j < n - 1 {
          assert pre[i] == m[i] && pre[j] == m[j];
        } else {
          PairsOfJoin(m, (m[i], m[j]));
        }
      }
    }
  }

  /** ... and to no one else: the history builds a rolling mesh in which each
      node is linked to its two predecessors, not a full mesh. */
  lemma {:induction false} IntroducedAreNeighbours(m: seq<NodeId>)
    ensures forall p :: p in IntroducedPairs(m) ==>
      exists i, j :: 0 <= i < j < |m| && j <= i + 2 && p == (m[i], m[j])
    decreases |m|
  {
    if m != [] {
      var n := |m|;
      var pre := m[..n - 1];
      IntroducedAreNeighbours(pre);
      forall p | p in IntroducedPairs(m)
        ensures exists i, j :: 0 <= i < j < n && j <= i + 2 && p == (m[i], m[j])
      {
        if p in IntroducedPairs(pre) {
          var i, j :| 0 <= i < j < |pre| && j <= i + 2 && p == (pre[i], pre[j]);
          assert p == (m[i], m[j]);
        } else {
          PairsOfJoin(m, p);
          if p == (m[n - 2], m[n - 1]) {
            assert p == (m[n - 2], m[n - 1]);
          } else {
            assert p == (m[n - 3], m[n - 1]);
          }
        }
      }
    }
  }

  /** The pairings of three join histories of one room: a, b; a, b, c;
      a, b, c, d. */
  lemma PairingScenarios(a: NodeId, b: NodeId, c: NodeId, d: NodeId)
    ensures Pairs([a, b]) == [(a, b)]
    ensures Pairs([a, b, c]) == [(a, c), (b, c)]
    ensures Pairs([a, b, c, d]) == [(b, d), (c, d)]
  {
  }
}
