/** HyParView (view.rs) as functions from a node's two views and an input to the
    new views and the actions queued. Every random draw and every walk over a
    hash set is a field of `Pick`, constrained by `Allows`. */
module ViewSpec {
  import opened Types

  datatype Limits = Limits(
    maxActive: nat,
    minActive: nat,
    maxPassive: nat,
    walkLength: nat,
    shuffleMax: nat
  )

  datatype View = View(local: Peer, active: set<Peer>, passive: set<Peer>)

  datatype Outcome = Outcome(view: View, events: seq<Action>)

  // What chance decides in one input: the passive view left after evictions, the
  // active peer freed or passive peer promoted, the order of a walk, the peers
  // sampled, the peer a shuffle goes on to.
  datatype Pick = Pick(passive: set<Peer>, victim: Peer, order: seq<Peer>, sample: seq<Peer>, target: Peer)

  predicate Overconnected(lim: Limits, v: View) {
    |v.active| >= lim.maxActive
  }

  predicate Starved(lim: Limits, v: View) {
    |v.active| < lim.minActive
  }

  ghost predicate Valid(lim: Limits, v: View) {
    |v.passive| <= lim.maxPassive && v.local !in v.active
  }

  function Min(a: nat, b: nat): nat {
    if a < b then a else b
  }

  // Insertions with one random eviction each time the view is over capacity:
  // any subset of everything seen, as large as capacity allows.
  ghost predicate Absorbs(before: set<Peer>, extra: set<Peer>, cap: nat, after: set<Peer>) {
    after <= before + extra && |after| == Min(|before + extra|, cap)
  }

  // A draw without replacement of as many as there are, up to a maximum.
  ghost predicate Samples(pool: multiset<Peer>, max: nat, sample: seq<Peer>) {
    multiset(sample) <= pool && |sample| == Min(|pool|, max)
  }

  function Wires(peers: seq<Peer>): seq<WirePeer> {
    seq(|peers|, i requires 0 <= i < |peers| => Some(peers[i]))
  }

  // Peers that do not decode are dropped.
  function Decoded(nodes: seq<WirePeer>): seq<Peer> {
    if nodes == [] then []
    else
      Decoded(nodes[..|nodes| - 1]) +
      match nodes[|nodes| - 1]
      case Some(p) => [p]
      case None => []
  }

  // -- Building blocks ---------------------------------------------------------------

  // The priority is computed after the insertion.
  function AddActive(v: View, node: Peer, initiator: bool): Outcome {
    if node == v.local || node in v.active then
      Outcome(v, [])
    else
      var v' := v.(active := v.active + {node});
      Outcome(v',
        (if initiator then
           [Dial(node, false), Notify(node, Rpc.Neighbor(Some(v.local), if v'.active == {} then HIGH else LOW))]
         else []) + [PeerAdded(node)])
  }

  function AddPassive(v: View, c: Pick): Outcome {
    Outcome(v.(passive := c.passive), [])
  }

  ghost predicate PassiveAllows(lim: Limits, v: View, nodes: set<Peer>, c: Pick) {
    Absorbs(v.passive, nodes - {v.local}, lim.maxPassive, c.passive)
  }

  // The peer to move is drawn from the passive view; putting it back there
  // changes nothing.
  function FreeSlot(lim: Limits, v: View, c: Pick): Outcome {
    if Overconnected(lim, v) && v.passive != {} then
      Outcome(
        v.(active := v.active - {c.victim}),
        [Notify(c.victim, Rpc.Disconnect(true)), PeerRemoved(c.victim)])
    else
      Outcome(v, [])
  }

  ghost predicate FreeAllows(lim: Limits, v: View, c: Pick) {
    Overconnected(lim, v) && v.passive != {} ==> c.victim in v.passive
  }

  // Room in the active view, or else a place in the passive one.
  function Place(lim: Limits, v: View, peer: Peer, c: Pick): Outcome {
    if !Overconnected(lim, v) then AddActive(v, peer, true) else AddPassive(v, c)
  }

  ghost predicate PlaceAllows(lim: Limits, v: View, peer: Peer, c: Pick) {
    Overconnected(lim, v) ==> PassiveAllows(lim, v, {peer}, c)
  }

  // -- Inputs ------------------------------------------------------------------------

  function InitiateJoin(lim: Limits, v: View, peer: Peer): Outcome {
    Outcome(v, [Notify(peer, Rpc.Join(lim.walkLength, Some(v.local)))])
  }

  function JoinIn(lim: Limits, v: View, sender: Peer, peer: Peer, ttl: nat, c: Pick): Outcome {
    if peer in v.active then Outcome(v, [])
    else
      var o := Place(lim, v, peer, c);
      Outcome(o.view, o.events + Fan(c.order, Rpc.ForwardJoin(ttl, Some(peer))))
  }

  ghost predicate JoinAllows(lim: Limits, v: View, sender: Peer, peer: Peer, c: Pick) {
    peer !in v.active ==>
      PlaceAllows(lim, v, peer, c) && Enumerates(c.order, Place(lim, v, peer, c).view.active - {peer, sender})
  }

  function Freed(lim: Limits, v: View, peer: Peer, ttl: nat, c: Pick): Outcome {
    if ttl == 0 && peer !in v.active then FreeSlot(lim, v, c) else Outcome(v, [])
  }

  function ForwardJoinIn(lim: Limits, v: View, sender: Peer, peer: Peer, ttl: nat, c: Pick): Outcome {
    if peer == v.local then Outcome(v, [])
    else
      var freed := Freed(lim, v, peer, ttl, c);
      var placed := Place(lim, freed.view, peer, c);
      Outcome(placed.view,
        freed.events + placed.events +
        if ttl == 0 then [] else Fan(c.order, Rpc.ForwardJoin(ttl - 1, Some(peer))))
  }

  ghost predicate ForwardJoinAllows(lim: Limits, v: View, sender: Peer, peer: Peer, ttl: nat, c: Pick) {
    peer != v.local ==>
      var freed := Freed(lim, v, peer, ttl, c).view;
      && (ttl == 0 && peer !in v.active ==> FreeAllows(lim, v, c))
      && PlaceAllows(lim, freed, peer, c)
      && (ttl != 0 ==> Enumerates(c.order, Place(lim, freed, peer, c).view.active - {sender, peer}))
  }

  function NeighborIn(lim: Limits, v: View, peer: Peer, priority: int, c: Pick): Outcome {
    if peer in v.active then Outcome(v, [])
    else if !Overconnected(lim, v) then AddActive(v, peer, false)
    else if priority == HIGH then
      var freed := FreeSlot(lim, v, c);
      var added := AddActive(freed.view, peer, false);
      Outcome(added.view, freed.events + added.events)
    else
      DisconnectIn(v, peer, true, c)
  }

  ghost predicate NeighborAllows(lim: Limits, v: View, peer: Peer, priority: int, c: Pick) {
    peer !in v.active && Overconnected(lim, v) ==>
      if priority == HIGH then FreeAllows(lim, v, c) else DisconnectAllows(lim, v, peer, true, c)
  }

  function DisconnectIn(v: View, peer: Peer, alive: bool, c: Pick): Outcome {
    var passive :=
      if !alive then v.passive - {peer}
      else if peer in v.active then c.passive
      else v.passive;
    if peer in v.active then
      Outcome(View(v.local, v.active - {peer}, passive), [PeerRemoved(peer)])
    else
      Outcome(v.(passive := passive), [])
  }

  ghost predicate DisconnectAllows(lim: Limits, v: View, peer: Peer, alive: bool, c: Pick) {
    alive && peer in v.active ==> PassiveAllows(lim, v, {peer}, c)
  }

  // What the originator of a shuffle can learn from this node.
  function News(v: View, nodes: seq<Peer>): set<Peer> {
    (v.active + v.passive) - set p | p in nodes
  }

  // What this node can learn from it.
  function Unknown(v: View, nodes: seq<Peer>): set<Peer> {
    (set p | p in nodes) - v.active - v.passive - {v.local}
  }

  function ReplyTo(v: View, origin: Peer, sample: seq<Peer>): seq<Action> {
    (if origin in v.active then [] else [Dial(origin, true)]) +
    [Notify(origin, Rpc.ShuffleReply(Wires(sample)))]
  }

  function ShuffleIn(lim: Limits, v: View, from: Peer, ttl: nat, nodes: seq<Peer>, origin: Peer, c: Pick): Outcome {
    var merged := v.(passive := c.passive);
    var reply := ReplyTo(v, origin, c.sample);
    if ttl == 0 then Outcome(merged, reply)
    else if v.active - {from, origin} != {} then
      Outcome(merged, reply + [Notify(c.target, Rpc.Shuffle(ttl - 1, Some(origin), Wires(nodes)))])
    else
      var added := AddActive(merged, origin, true);
      Outcome(added.view, reply + added.events)
  }

  ghost predicate ShuffleAllows(
    lim: Limits, v: View, from: Peer, ttl: nat, nodes: seq<Peer>, origin: Peer, c: Pick
  ) {
    && Samples(multiset(News(v, nodes)), lim.shuffleMax, c.sample)
    && Absorbs(v.passive, Unknown(v, nodes), lim.maxPassive, c.passive)
    && (ttl != 0 && v.active - {from, origin} != {} ==> c.target in v.active - {from, origin})
  }

  // Draining the set for one element empties it.
  function ShuffleReplyIn(lim: Limits, v: View, nodes: seq<Peer>): Outcome {
    var merged := v.passive + set p | p in nodes;
    Outcome(v.(passive := if |merged| > lim.maxPassive then {} else merged), [])
  }

  // Periodic work

  function SendShuffle(lim: Limits, v: View, c: Pick): Outcome {
    if v.active == {} then Outcome(v, [])
    else Outcome(v, [Notify(c.target, Rpc.Shuffle(lim.walkLength, Some(v.local), Wires(c.sample)))])
  }

  ghost predicate SendShuffleAllows(lim: Limits, v: View, c: Pick) {
    v.active != {} ==>
      c.target in v.active && Samples(multiset(v.active) + multiset(v.passive), lim.shuffleMax, c.sample)
  }

  function Promote(lim: Limits, v: View, c: Pick): Outcome {
    if Starved(lim, v) && v.passive != {} then
      AddActive(v.(passive := v.passive - {c.victim}), c.victim, true)
    else
      Outcome(v, [])
  }

  ghost predicate PromoteAllows(lim: Limits, v: View, c: Pick) {
    Starved(lim, v) && v.passive != {} ==> c.victim in v.passive
  }

  // -- One node, one input -------------------------------------------------------------

  datatype Signal =
    | Receive(from: Peer, rpc: Rpc)      // a membership message off the wire
    | Dropped(peer: Peer, alive: bool)   // a connection closed, or a dial failed
    | JoinThrough(peer: Peer)            // connected to a peer while starved
    | ShuffleDue
    | TopUpDue

  // Malformed peers, and neighbours vouching for somebody else, are refused.
  datatype RpcError = InvalidPeerId | ImpersonatedPeer(from: Peer, claimed: Peer)

  function Verdict(from: Peer, rpc: Rpc): Option<RpcError> {
    match rpc
    case Join(_, peer) => if peer.None? then Some(InvalidPeerId) else None
    case ForwardJoin(_, peer) => if peer.None? then Some(InvalidPeerId) else None
    case Neighbor(peer, _) =>
      if peer.None? then Some(InvalidPeerId)
      else if peer.value != from then Some(ImpersonatedPeer(from, peer.value))
      else None
    case Shuffle(_, origin, _) => if origin.None? then Some(InvalidPeerId) else None
    case _ => None
  }

  function Received(lim: Limits, v: View, from: Peer, rpc: Rpc, c: Pick): Outcome {
    if Verdict(from, rpc).Some? then Outcome(v, [])
    else
      match rpc
      case Join(ttl, peer) => JoinIn(lim, v, from, peer.value, ttl, c)
      case ForwardJoin(ttl, peer) => ForwardJoinIn(lim, v, from, peer.value, ttl, c)
      case Neighbor(peer, priority) => NeighborIn(lim, v, peer.value, priority, c)
      case Disconnect(alive) => DisconnectIn(v, from, alive, c)
      case Shuffle(ttl, origin, nodes) => ShuffleIn(lim, v, from, ttl, Decoded(nodes), origin.value, c)
      case ShuffleReply(nodes) => ShuffleReplyIn(lim, v, Decoded(nodes))
      case _ => Outcome(v, [])
  }

  ghost predicate ReceiveAllows(lim: Limits, v: View, from: Peer, rpc: Rpc, c: Pick) {
    Verdict(from, rpc).None? ==>
      match rpc
      case Join(_, peer) => JoinAllows(lim, v, from, peer.value, c)
      case ForwardJoin(ttl, peer) => ForwardJoinAllows(lim, v, from, peer.value, ttl, c)
      case Neighbor(peer, priority) => NeighborAllows(lim, v, peer.value, priority, c)
      case Disconnect(alive) => DisconnectAllows(lim, v, from, alive, c)
      case Shuffle(ttl, origin, nodes) => ShuffleAllows(lim, v, from, ttl, Decoded(nodes), origin.value, c)
      case _ => true
  }

  function Next(lim: Limits, v: View, s: Signal, c: Pick): Outcome {
    match s
    case Receive(from, rpc) => Received(lim, v, from, rpc, c)
    case Dropped(peer, alive) => DisconnectIn(v, peer, alive, c)
    case JoinThrough(peer) => InitiateJoin(lim, v, peer)
    case ShuffleDue => SendShuffle(lim, v, c)
    case TopUpDue => Promote(lim, v, c)
  }

  ghost predicate Allows(lim: Limits, v: View, s: Signal, c: Pick) {
    match s
    case Receive(from, rpc) => ReceiveAllows(lim, v, from, rpc, c)
    case Dropped(peer, alive) => DisconnectAllows(lim, v, peer, alive, c)
    case JoinThrough(_) => true
    case ShuffleDue => SendShuffleAllows(lim, v, c)
    case TopUpDue => PromoteAllows(lim, v, c)
  }
}
