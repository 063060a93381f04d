/** What every input does to a HyParView node, told without the building blocks: who
    enters and leaves the views, and what is sent to whom about whom. */
module ViewEffects {
  import opened Types
  import opened ViewSpec

  predicate Room(lim: Limits, v: View) {
    |v.active| < lim.maxActive
  }

  lemma {:induction false} DecodedMembers(nodes: seq<WirePeer>, p: Peer)
    ensures p in Decoded(nodes) <==> Some(p) in nodes
  {
    if nodes != [] {
      var init, last := nodes[..|nodes| - 1], nodes[|nodes| - 1];
      assert nodes == init + [last];
      DecodedMembers(init, p);
    }
  }

  // -- The active view -------------------------------------------------------------------

  // At the end of its walk a full view strikes the peer drawn, for a joiner it does not have.
  predicate Strikes(lim: Limits, v: View, s: Signal, c: Pick, x: Peer) {
    && s.Receive? && !Room(lim, v) && v.passive != {} && x == c.victim
    && ((s.rpc.ForwardJoin? && s.rpc.ttl == 0 && s.rpc.peer.Some?
         && s.rpc.peer.value != v.local && s.rpc.peer.value !in v.active)
        || (s.rpc.Neighbor? && s.rpc.priority == HIGH && s.rpc.peer == Some(s.from) && s.from !in v.active))
  }

  predicate Leaves(lim: Limits, v: View, s: Signal, c: Pick, x: Peer) {
    || (s.Receive? && s.rpc.Disconnect? && x == s.from)
    || (s.Dropped? && x == s.peer)
    || Strikes(lim, v, s, c, x)
  }

  // A joiner with room, also room made just now; a neighbour in its own name, with room
  // or at high priority; the originator of a shuffle that can go no further; a passive
  // peer when starved.
  predicate Enters(lim: Limits, v: View, s: Signal, c: Pick, x: Peer) {
    && x != v.local
    && match s
       case Receive(from, rpc) =>
         (match rpc
          case Join(_, p) => p == Some(x) && Room(lim, v)
          case ForwardJoin(ttl, p) =>
            && p == Some(x)
            && (Room(lim, v)
                || (ttl == 0 && v.passive != {} && c.victim in v.active && |v.active| <= lim.maxActive))
          case Neighbor(p, priority) => p == Some(x) && from == x && (Room(lim, v) || priority == HIGH)
          case Shuffle(ttl, p, _) => p == Some(x) && ttl > 0 && v.active <= {from, x}
          case _ => false)
       case TopUpDue => |v.active| < lim.minActive && v.passive != {} && x == c.victim
       case _ => false
  }

  lemma OneGone(s: set<Peer>, x: Peer)
    ensures x in s ==> |s - {x}| == |s| - 1
    ensures x !in s ==> s - {x} == s
  {}

  lemma JoinActive(lim: Limits, v: View, from: Peer, peer: Peer, ttl: nat, c: Pick, x: Peer)
    ensures var after := JoinIn(lim, v, from, peer, ttl, c).view;
      && after.local == v.local
      && (x in after.active <==> x in v.active || (x != v.local && x == peer && Room(lim, v)))
  {}

  lemma ForwardActive(lim: Limits, v: View, from: Peer, peer: Peer, ttl: nat, c: Pick, x: Peer)
    ensures var after := ForwardJoinIn(lim, v, from, peer, ttl, c).view;
      var freed := ttl == 0 && peer !in v.active && !Room(lim, v) && v.passive != {};
      && after.local == v.local
      && (x in after.active <==>
            if x in v.active then !(freed && peer != v.local && x == c.victim)
            else x != v.local && x == peer
                 && (Room(lim, v) || (freed && c.victim in v.active && |v.active| <= lim.maxActive)))
  {
    OneGone(v.active, c.victim);
  }

  lemma NeighborActive(lim: Limits, v: View, peer: Peer, priority: int, c: Pick, x: Peer)
    ensures var after := NeighborIn(lim, v, peer, priority, c).view;
      && after.local == v.local
      && (x in after.active <==>
            if x in v.active then
              !(priority == HIGH && peer !in v.active && !Room(lim, v) && v.passive != {} && x == c.victim)
            else x != v.local && x == peer && (Room(lim, v) || priority == HIGH))
  {}

  lemma ShuffleActive(
    lim: Limits, v: View, from: Peer, ttl: nat, nodes: seq<Peer>, origin: Peer, c: Pick, x: Peer)
    ensures var after := ShuffleIn(lim, v, from, ttl, nodes, origin, c).view;
      && after.local == v.local
      && (x in after.active <==>
            x in v.active || (x != v.local && x == origin && ttl > 0 && v.active <= {from, x}))
  {
    hide ReplyTo, Wires;
    assert v.active - {from, origin} == {} <==> v.active <= {from, origin};
  }

  // Everybody's place in the active view after any input whatsoever.
  lemma ActiveExactly(lim: Limits, v: View, s: Signal, c: Pick, x: Peer)
    ensures x in Next(lim, v, s, c).view.active <==>
            if x in v.active then !Leaves(lim, v, s, c, x) else Enters(lim, v, s, c, x)
    ensures Next(lim, v, s, c).view.local == v.local
  {
    hide JoinIn, ForwardJoinIn, NeighborIn, ShuffleIn, Decoded, Wires;
    match s
    case Receive(from, rpc) =>
      match rpc {
        case Join(ttl, Some(p)) => JoinActive(lim, v, from, p, ttl, c, x);
        case ForwardJoin(ttl, Some(p)) => ForwardActive(lim, v, from, p, ttl, c, x);
        case Neighbor(Some(p), priority) => NeighborActive(lim, v, p, priority, c, x);
        case Shuffle(ttl, Some(p), nodes) => ShuffleActive(lim, v, from, ttl, Decoded(nodes), p, c, x);
        case _ =>
      }
    case _ =>
  }

  // -- The passive view ------------------------------------------------------------------

  function Named(nodes: seq<WirePeer>): set<Peer> {
    set w | w in nodes && w.Some? :: w.value
  }

  lemma DecodedNames(nodes: seq<WirePeer>)
    ensures forall p :: p in Decoded(nodes) <==> p in Named(nodes)
  {
    forall p ensures p in Decoded(nodes) <==> p in Named(nodes) {
      DecodedMembers(nodes, p);
      assert Some(p) in nodes ==> Some(p).value in Named(nodes);
    }
  }

  // A joiner without room, a neighbour that left alive, and the unknown of a shuffle are
  // taken in up to capacity; a neighbour that died is struck; a promoted peer leaves; a
  // reply is merged or, being too much, costs everything.
  ghost predicate Remains(lim: Limits, v: View, s: Signal, c: Pick, after: set<Peer>) {
    match s
    case Receive(from, rpc) =>
      (match rpc
       case Join(_, Some(p)) =>
         if p in v.active || Room(lim, v) then after == v.passive
         else Absorbs(v.passive, {p} - {v.local}, lim.maxPassive, after)
       case ForwardJoin(ttl, Some(p)) =>
         if p == v.local || Room(lim, v) || (Strikes(lim, v, s, c, c.victim)
           && c.victim in v.active && |v.active| <= lim.maxActive) then after == v.passive
         else Absorbs(v.passive, {p} - {v.local}, lim.maxPassive, after)
       case Disconnect(alive) => RemainsAfter(lim, v, from, alive, after)
       case Shuffle(_, Some(_), nodes) =>
         Absorbs(v.passive, Named(nodes) - v.active - v.passive - {v.local}, lim.maxPassive, after)
       case ShuffleReply(nodes) =>
         after == if |v.passive + Named(nodes)| <= lim.maxPassive then v.passive + Named(nodes) else {}
       case _ => after == v.passive)
    case Dropped(peer, alive) => RemainsAfter(lim, v, peer, alive, after)
    case TopUpDue =>
      if |v.active| < lim.minActive && v.passive != {}
      then c.victim in v.passive && after == v.passive - {c.victim}
      else after == v.passive
    case _ => after == v.passive
  }

  ghost predicate RemainsAfter(lim: Limits, v: View, peer: Peer, alive: bool, after: set<Peer>) {
    if !alive then after == v.passive - {peer}
    else if peer in v.active then Absorbs(v.passive, {peer} - {v.local}, lim.maxPassive, after)
    else after == v.passive
  }

  lemma JoinPassive(lim: Limits, v: View, from: Peer, ttl: nat, peer: Peer, c: Pick)
    requires JoinAllows(lim, v, from, peer, c)
    ensures Remains(lim, v, Receive(from, Rpc.Join(ttl, Some(peer))), c,
                    JoinIn(lim, v, from, peer, ttl, c).view.passive)
  {
    hide Enumerates, Absorbs;
  }

  lemma ForwardPassive(lim: Limits, v: View, from: Peer, ttl: nat, peer: Peer, c: Pick)
    requires ForwardJoinAllows(lim, v, from, peer, ttl, c)
    ensures Remains(lim, v, Receive(from, Rpc.ForwardJoin(ttl, Some(peer))), c,
                    ForwardJoinIn(lim, v, from, peer, ttl, c).view.passive)
  {
    hide Enumerates, Absorbs;
    OneGone(v.active, c.victim);
  }

  lemma ShufflePassive(lim: Limits, v: View, from: Peer, ttl: nat, origin: Peer, nodes: seq<WirePeer>, c: Pick)
    requires ShuffleAllows(lim, v, from, ttl, Decoded(nodes), origin, c)
    ensures Remains(lim, v, Receive(from, Rpc.Shuffle(ttl, Some(origin), nodes)), c,
                    ShuffleIn(lim, v, from, ttl, Decoded(nodes), origin, c).view.passive)
  {
    hide Samples, Absorbs, ReplyTo, Wires, Decoded, Named, News;
    DecodedNames(nodes);
    assert Unknown(v, Decoded(nodes)) == Named(nodes) - v.active - v.passive - {v.local};
  }

  lemma ReplyPassive(lim: Limits, v: View, from: Peer, nodes: seq<WirePeer>, c: Pick)
    ensures Remains(lim, v, Receive(from, Rpc.ShuffleReply(nodes)), c,
                    ShuffleReplyIn(lim, v, Decoded(nodes)).view.passive)
  {
    hide Decoded, Named;
    DecodedNames(nodes);
    assert (v.passive + set p | p in Decoded(nodes)) == v.passive + Named(nodes);
  }

  // The passive view after any input the node could take.
  lemma PassiveExactly(lim: Limits, v: View, s: Signal, c: Pick)
    requires Allows(lim, v, s, c)
    ensures Remains(lim, v, s, c, Next(lim, v, s, c).view.passive)
  {
    hide JoinIn, ForwardJoinIn, ShuffleIn, Decoded, Named, Wires, Samples, Absorbs, Enumerates, ShuffleAllows;
    hide JoinAllows, ForwardJoinAllows, ShuffleReplyIn;
    match s
    case Receive(from, rpc) =>
      match rpc {
        case Join(ttl, Some(p)) => JoinPassive(lim, v, from, ttl, p, c);
        case ForwardJoin(ttl, Some(p)) => ForwardPassive(lim, v, from, ttl, p, c);
        case Shuffle(ttl, Some(p), nodes) => ShufflePassive(lim, v, from, ttl, p, nodes, c);
        case ShuffleReply(nodes) => ReplyPassive(lim, v, from, nodes, c);
        case _ =>
      }
    case _ =>
  }

  // -- What is sent ----------------------------------------------------------------------

  // Whom a walk is passed on to, and about whom: the joiner, to every active peer but the
  // joiner and the one it came from.
  ghost predicate PassesOn(v: View, after: View, s: Signal, x: Peer, ttl: nat, joiner: WirePeer) {
    && s.Receive? && joiner.Some? && x in after.active && x != s.from && x != joiner.value
    && ((s.rpc.Join? && s.rpc.peer == joiner && joiner.value !in v.active && ttl == s.rpc.ttl)
        || (s.rpc.ForwardJoin? && s.rpc.peer == joiner && joiner.value != v.local
            && s.rpc.ttl > 0 && ttl == s.rpc.ttl - 1))
  }

  // Who is taken in of the node's own accord.
  ghost predicate Courts(v: View, after: View, s: Signal, x: Peer) {
    x in after.active && x !in v.active && !(s.Receive? && s.rpc.Neighbor?)
  }

  predicate PassesShuffle(v: View, s: Signal) {
    s.Receive? && s.rpc.Shuffle? && s.rpc.origin.Some? && s.rpc.ttl > 0
    && !(v.active <= {s.from, s.rpc.origin.value})
  }

  ghost predicate Says(lim: Limits, v: View, s: Signal, c: Pick, after: View, x: Peer, rpc: Rpc) {
    match rpc
    case Join(ttl, p) => s == JoinThrough(x) && ttl == lim.walkLength && p == Some(v.local)
    case ForwardJoin(ttl, p) => PassesOn(v, after, s, x, ttl, p)
    case Neighbor(p, priority) => Courts(v, after, s, x) && p == Some(v.local) && priority == LOW
    case Disconnect(alive) => Strikes(lim, v, s, c, x) && alive
    case Shuffle(ttl, p, nodes) =>
      && x == c.target
      && ((s.ShuffleDue? && v.active != {} && ttl == lim.walkLength && p == Some(v.local) && nodes == Wires(c.sample))
          || (PassesShuffle(v, s) && ttl == s.rpc.ttl - 1 && p == s.rpc.origin
              && nodes == Wires(Decoded(s.rpc.nodes))))
    case ShuffleReply(nodes) => s.Receive? && s.rpc.Shuffle? && s.rpc.origin == Some(x) && nodes == Wires(c.sample)
    case _ => false
  }

  // A dial for each peer taken in, and a temporary one to answer a stranger's shuffle.
  ghost predicate Dials(v: View, s: Signal, after: View, x: Peer, temporary: bool) {
    if temporary then s.Receive? && s.rpc.Shuffle? && s.rpc.origin == Some(x) && x !in v.active
    else Courts(v, after, s, x)
  }

  ghost predicate Does(lim: Limits, v: View, s: Signal, c: Pick, after: View, a: Action) {
    match a
    case Notify(x, rpc) => Says(lim, v, s, c, after, x, rpc)
    case Dial(x, temporary) => Dials(v, s, after, x, temporary)
    case Deliver(_, _) => false
    case PeerAdded(x) => x in after.active && x !in v.active
    case PeerRemoved(x) => (x in v.active && x !in after.active) || Strikes(lim, v, s, c, x)
  }

  lemma AddActiveDoes(v: View, node: Peer, initiator: bool, a: Action)
    ensures var o := AddActive(v, node, initiator);
      a in o.events <==>
        && node != v.local && node !in v.active
        && (a == PeerAdded(node)
            || (initiator && (a == Dial(node, false) || a == Notify(node, Rpc.Neighbor(Some(v.local), LOW)))))
  {
    assert node in v.active + {node};
  }

  lemma FreeSlotDoes(lim: Limits, v: View, c: Pick, a: Action)
    ensures a in FreeSlot(lim, v, c).events <==>
      && !Room(lim, v) && v.passive != {}
      && (a == Notify(c.victim, Rpc.Disconnect(true)) || a == PeerRemoved(c.victim))
  {}

  lemma JoinDoes(lim: Limits, v: View, from: Peer, ttl: nat, peer: Peer, c: Pick, a: Action)
    requires JoinAllows(lim, v, from, peer, c)
    ensures var o := JoinIn(lim, v, from, peer, ttl, c);
      a in o.events <==> Does(lim, v, Receive(from, Rpc.Join(ttl, Some(peer))), c, o.view, a)
  {
    hide AddActive, Absorbs, Wires, Decoded;
    JoinActive(lim, v, from, peer, ttl, c, if a.Deliver? then 0 else a.peer);
    AddActiveDoes(v, peer, true, a);
    AddActiveView(v, peer, true);
    if peer !in v.active {
      FanMembers(c.order, Rpc.ForwardJoin(ttl, Some(peer)), a);
    }
  }

  lemma AddActiveView(v: View, node: Peer, initiator: bool)
    ensures AddActive(v, node, initiator).view ==
            if node == v.local then v else v.(active := v.active + {node})
  {
    assert node in v.active ==> v.active + {node} == v.active;
  }

  lemma FreedDoes(lim: Limits, v: View, peer: Peer, ttl: nat, c: Pick, a: Action)
    ensures var o := Freed(lim, v, peer, ttl, c);
      && o.view.local == v.local && o.view.passive == v.passive
      && (a in o.events <==>
            && ttl == 0 && peer !in v.active && !Room(lim, v) && v.passive != {}
            && (a == Notify(c.victim, Rpc.Disconnect(true)) || a == PeerRemoved(c.victim)))
      && (peer in o.view.active <==> peer in v.active)
  {}

  lemma PlaceDoes(lim: Limits, v: View, peer: Peer, c: Pick, a: Action)
    ensures var o := Place(lim, v, peer, c);
      a in o.events <==>
        && peer in o.view.active && peer !in v.active
        && (a == PeerAdded(peer) || a == Dial(peer, false) || a == Notify(peer, Rpc.Neighbor(Some(v.local), LOW)))
    ensures v.local !in v.active ==> v.local !in Place(lim, v, peer, c).view.active
  {
    AddActiveDoes(v, peer, true, a);
    AddActiveView(v, peer, true);
    hide AddActive;
  }

  // The events of a forwarded join: room made, the joiner placed, the walk passed on.
  lemma ForwardEvents(lim: Limits, v: View, from: Peer, ttl: nat, peer: Peer, c: Pick, a: Action)
    requires peer != v.local
    ensures var o := ForwardJoinIn(lim, v, from, peer, ttl, c);
      a in o.events <==>
        || (ttl == 0 && peer !in v.active && !Room(lim, v) && v.passive != {}
            && (a == Notify(c.victim, Rpc.Disconnect(true)) || a == PeerRemoved(c.victim)))
        || (peer in o.view.active && peer !in v.active
            && (a == PeerAdded(peer) || a == Dial(peer, false) || a == Notify(peer, Rpc.Neighbor(Some(v.local), LOW))))
        || (ttl > 0 && a.Notify? && a.rpc == Rpc.ForwardJoin(ttl - 1, Some(peer)) && a.peer in c.order)
  {
    FreedDoes(lim, v, peer, ttl, c, a);
    PlaceDoes(lim, Freed(lim, v, peer, ttl, c).view, peer, c, a);
    hide Freed, Place;
    if ttl > 0 {
      FanMembers(c.order, Rpc.ForwardJoin(ttl - 1, Some(peer)), a);
    }
  }

  lemma ForwardDoes(lim: Limits, v: View, from: Peer, ttl: nat, peer: Peer, c: Pick, a: Action)
    requires ForwardJoinAllows(lim, v, from, peer, ttl, c)
    ensures var o := ForwardJoinIn(lim, v, from, peer, ttl, c);
      a in o.events <==> Does(lim, v, Receive(from, Rpc.ForwardJoin(ttl, Some(peer))), c, o.view, a)
  {
    hide ForwardJoinIn, ForwardJoinAllows, Wires, Decoded;
    var x := if a.Deliver? then 0 else a.peer;
    ForwardActive(lim, v, from, peer, ttl, c, x);
    if peer == v.local {
      OwnWalk(lim, v, from, ttl, peer, c);
    } else {
      ForwardActive(lim, v, from, peer, ttl, c, peer);
      ForwardEvents(lim, v, from, ttl, peer, c, a);
      if ttl > 0 {
        WalkedBy(lim, v, from, ttl, peer, c, x);
      }
    }
  }

  lemma OwnWalk(lim: Limits, v: View, from: Peer, ttl: nat, peer: Peer, c: Pick)
    requires peer == v.local
    ensures ForwardJoinIn(lim, v, from, peer, ttl, c) == Outcome(v, [])
  {}

  // The order of the walk is of the active peers but two.
  lemma WalkedBy(lim: Limits, v: View, from: Peer, ttl: nat, peer: Peer, c: Pick, x: Peer)
    requires ForwardJoinAllows(lim, v, from, peer, ttl, c) && ttl > 0 && peer != v.local
    ensures x in c.order <==>
            x in ForwardJoinIn(lim, v, from, peer, ttl, c).view.active && x != from && x != peer
  {
    hide AddActive, Absorbs, FreeSlot;
  }

  lemma NeighborDoes(lim: Limits, v: View, peer: Peer, priority: int, c: Pick, a: Action)
    ensures var o := NeighborIn(lim, v, peer, priority, c);
      a in o.events <==> Does(lim, v, Receive(peer, Rpc.Neighbor(Some(peer), priority)), c, o.view, a)
  {
    hide AddActive, FreeSlot, Wires, Decoded;
    NeighborActive(lim, v, peer, priority, c, if a.Deliver? then 0 else a.peer);
    var freed := FreeSlot(lim, v, c).view;
    FreeSlotDoes(lim, v, c, a);
    if peer !in v.active {
      FreeSlotView(lim, v, peer, c);
    }
    AddActiveDoes(v, peer, false, a);
    AddActiveDoes(freed, peer, false, a);
  }

  lemma FreeSlotView(lim: Limits, v: View, peer: Peer, c: Pick)
    requires peer !in v.active
    ensures FreeSlot(lim, v, c).view.local == v.local && peer !in FreeSlot(lim, v, c).view.active
  {}

  lemma ShuffleDoes(
    lim: Limits, v: View, from: Peer, ttl: nat, origin: Peer, nodes: seq<WirePeer>, c: Pick, a: Action)
    ensures var o := ShuffleIn(lim, v, from, ttl, Decoded(nodes), origin, c);
      a in o.events <==> Does(lim, v, Receive(from, Rpc.Shuffle(ttl, Some(origin), nodes)), c, o.view, a)
  {
    hide AddActive, Wires, Decoded;
    ShuffleActive(lim, v, from, ttl, Decoded(nodes), origin, c, if a.Deliver? then 0 else a.peer);
    assert v.active - {from, origin} == {} <==> v.active <= {from, origin};
    var merged := v.(passive := c.passive);
    AddActiveDoes(merged, origin, true, a);
    AddActiveView(merged, origin, true);
  }

  lemma LeavingDoes(v: View, peer: Peer, alive: bool, c: Pick, a: Action)
    ensures var o := DisconnectIn(v, peer, alive, c);
      a in o.events <==> a == PeerRemoved(peer) && peer in v.active
    ensures DisconnectIn(v, peer, alive, c).view.active == v.active - {peer}
  {}

  lemma PromotionDoes(lim: Limits, v: View, c: Pick, a: Action)
    ensures var o := Promote(lim, v, c); a in o.events <==> Does(lim, v, TopUpDue, c, o.view, a)
  {
    hide AddActive;
    var rest := v.(passive := v.passive - {c.victim});
    AddActiveDoes(rest, c.victim, true, a);
    AddActiveView(rest, c.victim, true);
  }

  // Every message sent, dial made and change announced on any input the node could take,
  // and nothing else.
  lemma DoesExactly(lim: Limits, v: View, s: Signal, c: Pick, a: Action)
    requires Allows(lim, v, s, c)
    ensures a in Next(lim, v, s, c).events <==> Does(lim, v, s, c, Next(lim, v, s, c).view, a)
  {
    hide JoinIn, ForwardJoinIn, NeighborIn, ShuffleIn, DisconnectIn, Promote, Decoded, Wires;
    hide JoinAllows, ForwardJoinAllows, NeighborAllows, ShuffleAllows;
    match s
    case Receive(from, rpc) =>
      match rpc {
        case Join(ttl, Some(p)) => JoinDoes(lim, v, from, ttl, p, c, a);
        case ForwardJoin(ttl, Some(p)) => ForwardDoes(lim, v, from, ttl, p, c, a);
        case Neighbor(Some(p), priority) =>
          if p == from {
            NeighborDoes(lim, v, p, priority, c, a);
          }
        case Shuffle(ttl, Some(p), nodes) => ShuffleDoes(lim, v, from, ttl, p, nodes, c, a);
        case Disconnect(alive) => LeavingDoes(v, from, alive, c, a);
        case _ =>
      }
    case Dropped(peer, alive) => LeavingDoes(v, peer, alive, c, a);
    case TopUpDue => PromotionDoes(lim, v, c, a);
    case _ =>
  }

  // -- Who is named ------------------------------------------------------------------------

  // A shuffle started or answered names peers of the two views only, as many as there are
  // up to the maximum; the answer none that the question named. A shuffle goes on to an
  // active peer, and not back.
  lemma SampleExactly(lim: Limits, v: View, s: Signal, c: Pick)
    requires Allows(lim, v, s, c)
    ensures s.Receive? && s.rpc.Shuffle? && s.rpc.origin.Some? ==>
      && (forall p :: p in c.sample ==> p in v.active + v.passive && p !in Named(s.rpc.nodes))
      && |c.sample| == Min(|v.active + v.passive - Named(s.rpc.nodes)|, lim.shuffleMax)
    ensures s.ShuffleDue? && v.active != {} ==>
      && (forall p :: p in c.sample ==> p in v.active + v.passive) && c.target in v.active
      && |c.sample| == Min(|v.active| + |v.passive|, lim.shuffleMax)
    ensures PassesShuffle(v, s) ==> c.target in v.active && c.target != s.from && c.target != s.rpc.origin.value
  {
    if s.Receive? && s.rpc.Shuffle? && s.rpc.origin.Some? {
      hide Decoded, Named, Absorbs;
      DecodedNames(s.rpc.nodes);
      assert News(v, Decoded(s.rpc.nodes)) == v.active + v.passive - Named(s.rpc.nodes);
      InSample(multiset(News(v, Decoded(s.rpc.nodes))), lim.shuffleMax, c.sample);
      assert v.active - {s.from, s.rpc.origin.value} == {} <==> v.active <= {s.from, s.rpc.origin.value};
    } else if s.ShuffleDue? && v.active != {} {
      InSample(multiset(v.active) + multiset(v.passive), lim.shuffleMax, c.sample);
    }
  }

  lemma InSample(pool: multiset<Peer>, max: nat, sample: seq<Peer>)
    requires Samples(pool, max, sample)
    ensures forall p :: p in sample ==> p in pool
  {
    forall p | p in sample ensures p in pool {
      assert p in multiset(sample);
    }
  }

  // -- Refusals ------------------------------------------------------------------------------

  predicate NamesNobody(rpc: Rpc) {
    || (rpc.Join? && rpc.peer.None?) || (rpc.ForwardJoin? && rpc.peer.None?)
    || (rpc.Neighbor? && rpc.peer.None?) || (rpc.Shuffle? && rpc.origin.None?)
  }

  predicate NamesAnother(from: Peer, rpc: Rpc) {
    rpc.Neighbor? && rpc.peer.Some? && rpc.peer.value != from
  }

  // What bytes that are no peer id, and a neighbour speaking for another, come to; nothing
  // else is refused, and what is refused has no effect.
  lemma RefusedExactly(lim: Limits, v: View, from: Peer, rpc: Rpc, c: Pick)
    ensures Verdict(from, rpc) ==
            if NamesNobody(rpc) then Some(InvalidPeerId)
            else if NamesAnother(from, rpc) then Some(ImpersonatedPeer(from, rpc.peer.value))
            else None
    ensures NamesNobody(rpc) || NamesAnother(from, rpc) ==>
      Next(lim, v, Receive(from, rpc), c) == Outcome(v, [])
  {}

  // -- Introductions -------------------------------------------------------------------------

  // By what a peer can come into a view; into the active one a neighbour only in its own name.
  ghost predicate Introduces(s: Signal, x: Peer) {
    s.Receive? &&
    match s.rpc
    case Join(_, p) => p == Some(x)
    case ForwardJoin(_, p) => p == Some(x)
    case Neighbor(p, _) => p == Some(x) && s.from == x
    case Shuffle(_, origin, nodes) => origin == Some(x) || x in Named(nodes)
    case ShuffleReply(nodes) => x in Named(nodes)
    case _ => false
  }

  lemma EntersIntroduced(lim: Limits, v: View, s: Signal, c: Pick, x: Peer)
    requires Enters(lim, v, s, c, x) && Allows(lim, v, s, c)
    ensures Introduces(s, x) || x in v.passive
  {
    hide Named;
  }

  lemma RemainsIntroduced(lim: Limits, v: View, s: Signal, c: Pick, after: set<Peer>, x: Peer)
    requires Remains(lim, v, s, c, after) && x in after
    ensures x in v.active || x in v.passive || Introduces(s, x)
  {
    hide Named, Strikes, Room;
  }

  // Nobody gets into a view who was not in one or introduced by what was received.
  lemma NewcomersAreIntroduced(lim: Limits, v: View, s: Signal, c: Pick, x: Peer)
    requires Allows(lim, v, s, c)
    requires x in Next(lim, v, s, c).view.active || x in Next(lim, v, s, c).view.passive
    ensures x in v.active || x in v.passive || Introduces(s, x)
  {
    PassiveExactly(lim, v, s, c);
    ActiveExactly(lim, v, s, c, x);
    hide Next, Allows, Remains, Enters, Leaves, Introduces;
    if x in Next(lim, v, s, c).view.active {
      if x !in v.active {
        EntersIntroduced(lim, v, s, c, x);
      }
    } else {
      RemainsIntroduced(lim, v, s, c, Next(lim, v, s, c).view.passive, x);
    }
  }
}
