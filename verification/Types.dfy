/** Vocabulary shared by every layer of the gossip stack: identities, the wire
    messages of rpc.proto and the actions a layer queues for the swarm. */
module Types {

  // Peers are compared by peer id alone (view.rs:634-646), so a peer is its id.
  type Peer = nat

  // Message identifiers are 64-bit keys; they are only compared.
  type Id = nat

  type Instant = int

  type Bytes = seq<bv8>

  const U32_LIMIT: nat := 0x1_0000_0000

  // Hop counters travel as uint32.
  type Hop = h: nat | h < U32_LIMIT

  // `hop + 1` on a u32 in a release build.
  function NextHop(hop: Hop): Hop {
    (hop + 1) % U32_LIMIT
  }

  datatype Option<+T> = None | Some(value: T)

  datatype Announcement = Announcement(id: Id, hop: Hop)

  // A peer on the wire: None stands for bytes that are not a peer id.
  type WirePeer = Option<Peer>

  // Priorities travel as raw protobuf enumeration numbers.
  const LOW := 0
  const HIGH := 1

  datatype Rpc =
    | Join(ttl: nat, peer: WirePeer)
    | ForwardJoin(ttl: nat, peer: WirePeer)
    | Neighbor(peer: WirePeer, priority: int)
    | Disconnect(alive: bool)
    | Shuffle(ttl: nat, origin: WirePeer, nodes: seq<WirePeer>)
    | ShuffleReply(nodes: seq<WirePeer>)
    | Message(id: Id, hop: Hop, payload: Bytes)
    | IHave(ihaves: seq<Announcement>)
    | Prune
    | Graft(ids: seq<Id>)

  /** What a layer hands to the swarm when polled. */
  datatype Action =
    | Notify(peer: Peer, rpc: Rpc)
    | Dial(peer: Peer, temporary: bool)
    | Deliver(id: Id, payload: Bytes)
    | PeerAdded(peer: Peer)
    | PeerRemoved(peer: Peer)

  // A set walked in some order: every element once.
  ghost predicate Enumerates<T>(order: seq<T>, s: set<T>) {
    && (forall x | x in order :: x in s)
    && (forall x | x in s :: x in order)
    && (forall i, j :: 0 <= i < j < |order| ==> order[i] != order[j])
  }

  // The same message to each peer of `order`.
  function Fan(order: seq<Peer>, rpc: Rpc): seq<Action> {
    seq(|order|, i requires 0 <= i < |order| => Notify(order[i], rpc))
  }

  lemma FanMembers(order: seq<Peer>, rpc: Rpc, a: Action)
    ensures a in Fan(order, rpc) <==> a.Notify? && a.rpc == rpc && a.peer in order
  {
    if a.Notify? && a.rpc == rpc && a.peer in order {
      var i :| 0 <= i < |order| && order[i] == a.peer;
      assert Fan(order, rpc)[i] == a;
    }
  }

  lemma {:induction false} EnumerationLength<T>(order: seq<T>, s: set<T>)
    requires Enumerates(order, s)
    ensures |order| == |s|
  {
    if order == [] {
      assert s == {};
    } else {
      var last := order[|order| - 1];
      var init := order[..|order| - 1];
      assert order == init + [last];
      EnumerationLength(init, s - {last});
    }
  }

  lemma SomeOrder<T>(s: set<T>) returns (order: seq<T>)
    ensures Enumerates(order, s)
  {
    order := [];
    var rest := s;
    while rest != {}
      invariant rest <= s && Enumerates(order, s - rest)
    {
      var x :| x in rest;
      rest := rest - {x};
      order := order + [x];
    }
  }

  lemma {:induction false} Smaller<T>(a: set<T>, b: set<T>)
    requires a <= b
    ensures |a| <= |b|
  {
    if a != {} {
      var x :| x in a;
      Smaller(a - {x}, b - {x});
    }
  }
}
