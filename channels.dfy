/** The node-to-connection registry: first binding wins, and a write to a
    node without a connection is dropped. */
module Channels {
  import opened Wire

  type ConnTable = map<NodeId, ConnId>

  /** The registry after n's message arrives on connection c: c is recorded
      only when n has no connection yet. */
  function Bind(conns: ConnTable, n: NodeId, c: ConnId): (r: ConnTable)
    ensures n in r && r[n] == (if n in conns then conns[n] else c)
    ensures forall m :: m != n ==> (m in r <==> m in conns)
    ensures forall m :: m != n && m in conns ==> r[m] == conns[m]
  {
    if n in conns then conns else conns[n := c]
  }

  /** The write one addressed message produces: on the addressee's
      connection, or none when it has no connection. */
  function Write(conns: ConnTable, n: NodeId, msg: Msg): (out: seq<(ConnId, Msg)>)
    ensures n in conns <==> out != []
  {
    if n in conns then [(conns[n], msg)] else []
  }

  /** The writes a list of addressed messages produces, in order: one per
      message whose addressee has a connection, none for the others. */
  function Deliver(conns: ConnTable, sends: seq<(NodeId, Msg)>): seq<(ConnId, Msg)> {
    if sends == [] then [] else Write(conns, sends[0].0, sends[0].1) + Deliver(conns, sends[1..])
  }

  /** Delivering a message followed by others: its write, then theirs. */
  lemma DeliverCons(conns: ConnTable, x: (NodeId, Msg), rest: seq<(NodeId, Msg)>)
    ensures Deliver(conns, [x] + rest) == Write(conns, x.0, x.1) + Deliver(conns, rest)
  {
  }

  lemma {:induction false} DeliverAppend(conns: ConnTable, a: seq<(NodeId, Msg)>, b: seq<(NodeId, Msg)>)
    ensures Deliver(conns, a + b) == Deliver(conns, a) + Deliver(conns, b)
  {
    if a == [] {
      assert a + b == b;
    } else {
      var rest := a[1..];
      var head := Write(conns, a[0].0, a[0].1);
      assert a == [a[0]] + rest;
      assert a + b == [a[0]] + (rest + b);
      DeliverCons(conns, a[0], rest + b);
      DeliverCons(conns, a[0], rest);
      DeliverAppend(conns, rest, b);
      assert head + (Deliver(conns, rest) + Deliver(conns, b)) == (head + Deliver(conns, rest)) + Deliver(conns, b);
    }
  }

  /** When every addressee is bound, each message goes out on its
      addressee's connection, in order. */
  lemma {:induction false} DeliverAllBound(conns: ConnTable, sends: seq<(NodeId, Msg)>)
    requires forall k :: 0 <= k < |sends| ==> sends[k].0 in conns
    ensures |Deliver(conns, sends)| == |sends|
    ensures forall k :: 0 <= k < |sends| ==>
      Deliver(conns, sends)[k] == (conns[sends[k].0], sends[k].1)
  {
    if sends != [] {
      DeliverAllBound(conns, sends[1..]);
      var out := Deliver(conns, sends);
      forall k | 0 <= k < |sends|
        ensures out[k] == (conns[sends[k].0], sends[k].1)
      {
        if k > 0 {
          assert out[k] == Deliver(conns, sends[1..])[k - 1];
        }
      }
    }
  }

  /** Two addressed messages: their writes, in order. */
  lemma DeliverTwo(conns: ConnTable, a: (NodeId, Msg), b: (NodeId, Msg))
    ensures Deliver(conns, [a, b]) == Write(conns, a.0, a.1) + Write(conns, b.0, b.1)
  {
    assert [a, b][1..] == [b];
    assert Deliver(conns, [b]) == Write(conns, b.0, b.1) + Deliver(conns, []);
    assert Deliver(conns, [b]) == Write(conns, b.0, b.1);
  }

  /** Messages to nodes without a connection produce no write at all. */
  lemma {:induction false} DeliverNoneBound(conns: ConnTable, sends: seq<(NodeId, Msg)>)
    requires forall k :: 0 <= k < |sends| ==> sends[k].0 !in conns
    ensures Deliver(conns, sends) == []
  {
    if sends != [] {
      DeliverNoneBound(conns, sends[1..]);
    }
  }
}
