/** A network of HyParView nodes over an asynchronous medium: active views never
    outgrow their capacity, and every cascade of membership messages dies out
    within a bound that is geometric in the walk length. */
module Membership {
  import opened Types
  import opened Network
  import opened ViewSpec

  datatype Net = Net(views: map<Peer, View>, flight: seq<Packet>)

  datatype Move =
    | Local(node: Peer, signal: Signal)
    | Arrive(index: nat)
    | Lose(index: nat)

  datatype Step = Step(move: Move, pick: Pick)

  // Each node has limits of its own.
  type Rules = Peer -> Limits

  ghost predicate Enabled(rules: Rules, n: Net, s: Step) {
    match s.move
    case Local(node, signal) =>
      node in n.views && !signal.Receive? && Allows(rules(node), n.views[node], signal, s.pick)
    case Arrive(i) =>
      && i < |n.flight| && n.flight[i].dst in n.views
      && Allows(rules(n.flight[i].dst), n.views[n.flight[i].dst], Receive(n.flight[i].src, n.flight[i].rpc), s.pick)
    case Lose(i) => i < |n.flight|
  }

  ghost function Apply(rules: Rules, n: Net, s: Step): Net
    requires Enabled(rules, n, s)
  {
    match s.move
    case Local(node, signal) =>
      var o := Next(rules(node), n.views[node], signal, s.pick);
      Net(n.views[node := o.view], n.flight + Sends(node, o.events))
    case Arrive(i) =>
      var p := n.flight[i];
      var o := Next(rules(p.dst), n.views[p.dst], Receive(p.src, p.rpc), s.pick);
      Net(n.views[p.dst := o.view], Without(n.flight, i) + Sends(p.dst, o.events))
    case Lose(i) => n.(flight := Without(n.flight, i))
  }

  ghost predicate Legal(rules: Rules, n: Net, steps: seq<Step>)
    decreases |steps|, 0
  {
    steps != [] ==>
      && Legal(rules, n, steps[..|steps| - 1])
      && Enabled(rules, Run(rules, n, steps[..|steps| - 1]), steps[|steps| - 1])
  }

  ghost function Run(rules: Rules, n: Net, steps: seq<Step>): Net
    requires Legal(rules, n, steps)
    decreases |steps|, 1
  {
    if steps == [] then n
    else Apply(rules, Run(rules, n, steps[..|steps| - 1]), steps[|steps| - 1])
  }

  // A start: nobody knows anybody, nothing is in flight.
  ghost predicate Fresh(n: Net) {
    n.flight == [] && forall x :: x in n.views ==> n.views[x] == View(x, {}, {})
  }

  // -- Capacity --------------------------------------------------------------------------

  // Two active slots, and no promotion into a full view.
  ghost predicate Roomy(lim: Limits) {
    lim.maxActive >= 2 && (lim.minActive <= lim.maxActive || lim.maxPassive == 0)
  }

  ghost predicate AllRoomy(rules: Rules, n: Net) {
    forall x :: x in n.views ==> Roomy(rules(x))
  }

  ghost predicate WithinCapacity(lim: Limits, v: View) {
    Valid(lim, v) && |v.active| <= lim.maxActive
  }

  predicate HighPriority(rpc: Rpc) {
    rpc.Neighbor? && rpc.priority == HIGH
  }

  // The priority field is read after the insertion, so the view is never empty.
  lemma InvitesAtLowPriority(v: View, node: Peer, initiator: bool, a: Action)
    requires a in AddActive(v, node, initiator).events && a.Notify?
    ensures !HighPriority(a.rpc)
  {
    assert node in v.active + {node};
  }

  lemma NeverHighPriority(lim: Limits, v: View, s: Signal, c: Pick, a: Action)
    requires a in Next(lim, v, s, c).events && a.Notify?
    ensures !HighPriority(a.rpc)
  {
    hide AddActive, Overconnected;
    if HighPriority(a.rpc) {
      match s
      case Receive(from, rpc) =>
        match rpc {
          case Join(ttl, peer) =>
            FanMembers(c.order, Rpc.ForwardJoin(ttl, peer), a);
            InvitesAtLowPriority(v, peer.value, true, a);
          case ForwardJoin(ttl, peer) =>
            if ttl != 0 {
              FanMembers(c.order, Rpc.ForwardJoin(ttl - 1, peer), a);
            }
            InvitesAtLowPriority(Freed(lim, v, peer.value, ttl, c).view, peer.value, true, a);
          case Neighbor(peer, priority) =>
            if a in AddActive(v, peer.value, false).events {
              InvitesAtLowPriority(v, peer.value, false, a);
            } else {
              InvitesAtLowPriority(FreeSlot(lim, v, c).view, peer.value, false, a);
            }
          case Shuffle(ttl, origin, nodes) =>
            InvitesAtLowPriority(v.(passive := c.passive), origin.value, true, a);
          case _ =>
        }
      case TopUpDue => InvitesAtLowPriority(v.(passive := v.passive - {c.victim}), c.victim, true, a);
      case _ =>
    }
  }

  lemma AbsorbsFits(before: set<Peer>, extra: set<Peer>, cap: nat, after: set<Peer>)
    requires Absorbs(before, extra, cap, after)
    ensures |after| <= cap
  {}

  // Without high-priority requests no input lets a view outgrow its capacity: the
  // one unguarded insertion, for a shuffle that can go no further, happens with at
  // most one active peer besides its originator.
  lemma NextKeepsCapacity(lim: Limits, v: View, s: Signal, c: Pick)
    requires Roomy(lim) && WithinCapacity(lim, v) && Allows(lim, v, s, c)
    requires s.Receive? ==> !HighPriority(s.rpc)
    ensures WithinCapacity(lim, Next(lim, v, s, c).view) && Next(lim, v, s, c).view.local == v.local
  {
    match s
    case Receive(from, rpc) => ReceiveKeepsCapacity(lim, v, from, rpc, c);
    case Dropped(peer, alive) => DisconnectKeepsCapacity(lim, v, peer, alive, c);
    case TopUpDue => Smaller(v.passive - {c.victim}, v.passive);
    case _ =>
  }

  lemma DisconnectKeepsCapacity(lim: Limits, v: View, peer: Peer, alive: bool, c: Pick)
    requires WithinCapacity(lim, v) && DisconnectAllows(lim, v, peer, alive, c)
    ensures WithinCapacity(lim, DisconnectIn(v, peer, alive, c).view)
    ensures DisconnectIn(v, peer, alive, c).view.local == v.local
  {
    Smaller(v.active - {peer}, v.active);
    Smaller(v.passive - {peer}, v.passive);
  }

  lemma PlaceKeepsCapacity(lim: Limits, v: View, peer: Peer, c: Pick)
    requires WithinCapacity(lim, v) && PlaceAllows(lim, v, peer, c)
    ensures WithinCapacity(lim, Place(lim, v, peer, c).view) && Place(lim, v, peer, c).view.local == v.local
  {}

  lemma FreeingKeepsCapacity(lim: Limits, v: View, peer: Peer, ttl: nat, c: Pick)
    requires WithinCapacity(lim, v)
    ensures WithinCapacity(lim, Freed(lim, v, peer, ttl, c).view) && Freed(lim, v, peer, ttl, c).view.local == v.local
  {
    Smaller(v.active - {c.victim}, v.active);
  }

  lemma NeighborKeepsCapacity(lim: Limits, v: View, peer: Peer, priority: int, c: Pick)
    requires WithinCapacity(lim, v) && NeighborAllows(lim, v, peer, priority, c) && priority != HIGH
    ensures WithinCapacity(lim, NeighborIn(lim, v, peer, priority, c).view)
    ensures NeighborIn(lim, v, peer, priority, c).view.local == v.local
  {
    if peer !in v.active && Overconnected(lim, v) {
      DisconnectKeepsCapacity(lim, v, peer, true, c);
    }
  }

  lemma ShuffleKeepsCapacity(lim: Limits, v: View, from: Peer, ttl: nat, nodes: seq<Peer>, origin: Peer, c: Pick)
    requires Roomy(lim) && WithinCapacity(lim, v) && ShuffleAllows(lim, v, from, ttl, nodes, origin, c)
    ensures WithinCapacity(lim, ShuffleIn(lim, v, from, ttl, nodes, origin, c).view)
    ensures ShuffleIn(lim, v, from, ttl, nodes, origin, c).view.local == v.local
  {
    hide Samples, Unknown, Absorbs, ReplyTo, AddActive;
    AbsorbsFits(v.passive, Unknown(v, nodes), lim.maxPassive, c.passive);
    if v.active - {from, origin} == {} {
      LastStopKeepsCapacity(lim, v.(passive := c.passive), from, origin);
    }
  }

  lemma LastStopKeepsCapacity(lim: Limits, v: View, from: Peer, origin: Peer)
    requires lim.maxActive >= 2 && WithinCapacity(lim, v) && v.active - {from, origin} == {}
    ensures WithinCapacity(lim, AddActive(v, origin, true).view) && AddActive(v, origin, true).view.local == v.local
  {
    TwoAtMost(v.active, from, origin);
  }

  lemma ReceiveKeepsCapacity(lim: Limits, v: View, from: Peer, rpc: Rpc, c: Pick)
    requires Roomy(lim) && WithinCapacity(lim, v) && ReceiveAllows(lim, v, from, rpc, c) && !HighPriority(rpc)
    ensures WithinCapacity(lim, Received(lim, v, from, rpc, c).view)
    ensures Received(lim, v, from, rpc, c).view.local == v.local
  {
    if Verdict(from, rpc).None? {
      hide WithinCapacity, Place, PlaceAllows, Freed, DisconnectIn, DisconnectAllows;
      hide NeighborIn, NeighborAllows, ShuffleIn, ShuffleAllows;
      match rpc
      case Join(ttl, peer) =>
        if peer.value !in v.active {
          PlaceKeepsCapacity(lim, v, peer.value, c);
        }
      case ForwardJoin(ttl, peer) =>
        if peer.value != v.local {
          FreeingKeepsCapacity(lim, v, peer.value, ttl, c);
          PlaceKeepsCapacity(lim, Freed(lim, v, peer.value, ttl, c).view, peer.value, c);
        }
      case Disconnect(alive) => DisconnectKeepsCapacity(lim, v, from, alive, c);
      case Neighbor(peer, priority) => NeighborKeepsCapacity(lim, v, peer.value, priority, c);
      case Shuffle(ttl, origin, nodes) => ShuffleKeepsCapacity(lim, v, from, ttl, Decoded(nodes), origin.value, c);
      case ShuffleReply(nodes) => ReplyKeepsCapacity(lim, v, Decoded(nodes));
      case _ =>
    }
  }

  lemma ReplyKeepsCapacity(lim: Limits, v: View, nodes: seq<Peer>)
    requires WithinCapacity(lim, v)
    ensures WithinCapacity(lim, ShuffleReplyIn(lim, v, nodes).view)
    ensures ShuffleReplyIn(lim, v, nodes).view.local == v.local
  {}

  lemma TwoAtMost(s: set<Peer>, a: Peer, b: Peer)
    requires s - {a, b} == {}
    ensures |s + {b}| <= 2
  {
    assert s + {b} <= {a, b};
    Smaller(s + {b}, {a, b});
  }

  ghost predicate CapacityKept(rules: Rules, n: Net) {
    && (forall x :: x in n.views ==> WithinCapacity(rules(x), n.views[x]) && n.views[x].local == x)
    && (forall p :: p in n.flight ==> !HighPriority(p.rpc))
  }

  lemma StepKeepsCapacity(rules: Rules, n: Net, s: Step)
    requires AllRoomy(rules, n) && CapacityKept(rules, n) && Enabled(rules, n, s)
    ensures CapacityKept(rules, Apply(rules, n, s)) && Apply(rules, n, s).views.Keys == n.views.Keys
  {
    hide Next, Allows, WithinCapacity;
    var n' := Apply(rules, n, s);
    if s.move.Lose? {
      forall p | p in n'.flight ensures p in n.flight {
        WithoutMembers(n.flight, s.move.index, p);
      }
    } else {
      var node := if s.move.Local? then s.move.node else n.flight[s.move.index].dst;
      var signal := if s.move.Local? then s.move.signal
                    else Receive(n.flight[s.move.index].src, n.flight[s.move.index].rpc);
      var v := n.views[node];
      assert s.move.Arrive? ==> n.flight[s.move.index] in n.flight;
      NextKeepsCapacity(rules(node), v, signal, s.pick);
      forall p | p in n'.flight ensures !HighPriority(p.rpc) {
        if p in Sends(node, Next(rules(node), v, signal, s.pick).events) {
          SendsMembers(node, Next(rules(node), v, signal, s.pick).events, p);
          NeverHighPriority(rules(node), v, signal, s.pick, Notify(p.dst, p.rpc));
        } else if s.move.Arrive? {
          WithoutMembers(n.flight, s.move.index, p);
        }
      }
    }
  }

  // In every reachable state of a network of nodes that all run this code, each with its
  // own limits, with losses, dropped connections, joins, shuffles and promotions in any
  // order.
  lemma {:induction false} Capacity(rules: Rules, n: Net, steps: seq<Step>)
    requires AllRoomy(rules, n) && Fresh(n) && Legal(rules, n, steps)
    ensures CapacityKept(rules, Run(rules, n, steps)) && Run(rules, n, steps).views.Keys == n.views.Keys
  {
    hide Apply, Enabled;
    if steps != [] {
      var init, last := steps[..|steps| - 1], steps[|steps| - 1];
      Capacity(rules, n, init);
      hide CapacityKept;
      StepKeepsCapacity(rules, Run(rules, n, init), last);
    }
  }

  // Two slots are needed: with fewer, a shuffle that can go no further overflows
  // a view that was full.
  lemma FewerSlotsOverflow(lim: Limits, v: View, from: Peer, origin: Peer, c: Pick)
    requires lim.maxActive < 2 && WithinCapacity(lim, v) && |v.active| == lim.maxActive && v.active <= {from}
    requires origin !in v.active && origin != v.local
    requires Allows(lim, v, Receive(from, Rpc.Shuffle(1, Some(origin), [])), c)
    ensures !WithinCapacity(lim, Next(lim, v, Receive(from, Rpc.Shuffle(1, Some(origin), [])), c).view)
  {
    hide Samples, Absorbs, News, Unknown;
    assert Next(lim, v, Receive(from, Rpc.Shuffle(1, Some(origin), [])), c).view.active == v.active + {origin};
  }

  // An input that is no high-priority request does not take a view over its capacity.
  ghost predicate Contained(lim: Limits, v: View, s: Signal, c: Pick) {
    WithinCapacity(lim, v) && Allows(lim, v, s, c) && (s.Receive? ==> !HighPriority(s.rpc)) ==>
      WithinCapacity(lim, Next(lim, v, s, c).view)
  }

  // Exactly when every such input is harmless.
  lemma TwoSlotsIff(lim: Limits)
    ensures (forall v, s, c :: Contained(lim, v, s, c)) <==>
            lim.maxActive >= 2 && (lim.minActive <= lim.maxActive || lim.maxPassive == 0)
  {
    hide WithinCapacity, Allows, Next;
    if Roomy(lim) {
      forall v, s, c ensures Contained(lim, v, s, c) {
        if WithinCapacity(lim, v) && Allows(lim, v, s, c) && (s.Receive? ==> !HighPriority(s.rpc)) {
          NextKeepsCapacity(lim, v, s, c);
        }
      }
    } else if lim.maxActive < 2 {
      var v := View(0, if lim.maxActive == 0 then {} else {1}, {});
      var c := Pick({}, 0, [], if lim.maxActive == 0 || lim.shuffleMax == 0 then [] else [1], 0);
      FullViewShuffles(lim, v, c);
      FewerSlotsOverflow(lim, v, 1, 2, c);
      assert !Contained(lim, v, Receive(1, Rpc.Shuffle(1, Some(2), [])), c);
    } else {
      FullViewPromotes(lim);
      var spare := lim.maxActive + 1;
      assert !Contained(lim, View(0, Crowd(lim.maxActive), {spare}), TopUpDue, Pick({}, spare, [], [], 0));
    }
  }

  function Crowd(k: nat): (s: set<Peer>)
    ensures |s| == k && forall x :: x in s ==> 1 <= x <= k
  {
    if k == 0 then {} else Crowd(k - 1) + {k}
  }

  // With a minimum above the maximum, a full view takes in one more from its passive set.
  lemma FullViewPromotes(lim: Limits)
    requires lim.maxActive < lim.minActive && lim.maxPassive > 0
    ensures var spare := lim.maxActive + 1;
      var v, c := View(0, Crowd(lim.maxActive), {spare}), Pick({}, spare, [], [], 0);
      && WithinCapacity(lim, v) && Allows(lim, v, TopUpDue, c)
      && !WithinCapacity(lim, Next(lim, v, TopUpDue, c).view)
  {
    var spare := lim.maxActive + 1;
    var v, c := View(0, Crowd(lim.maxActive), {spare}), Pick({}, spare, [], [], 0);
    assert v.passive != {} && c.victim in v.passive;
    assert Next(lim, v, TopUpDue, c).view.active == v.active + {spare};
  }

  lemma FullViewShuffles(lim: Limits, v: View, c: Pick)
    requires lim.maxActive < 2 && v == View(0, if lim.maxActive == 0 then {} else {1}, {})
    requires c == Pick({}, 0, [], if lim.maxActive == 0 || lim.shuffleMax == 0 then [] else [1], 0)
    ensures WithinCapacity(lim, v) && Allows(lim, v, Receive(1, Rpc.Shuffle(1, Some(2), [])), c)
  {
    assert News(v, []) == v.active && Unknown(v, []) == {};
    assert multiset(c.sample) <= multiset(v.active);
    assert v.active - {1, 2} == {};
  }

  // High-priority requests come from outside only; one at a full view with an empty
  // passive one overflows it.
  lemma HighPriorityOverflows(lim: Limits, v: View, from: Peer, c: Pick)
    requires WithinCapacity(lim, v) && |v.active| == lim.maxActive && v.passive == {}
    requires from !in v.active && from != v.local
    ensures Allows(lim, v, Receive(from, Rpc.Neighbor(Some(from), HIGH)), c)
    ensures !WithinCapacity(lim, Next(lim, v, Receive(from, Rpc.Neighbor(Some(from), HIGH)), c).view)
  {
    assert Next(lim, v, Receive(from, Rpc.Neighbor(Some(from), HIGH)), c).view.active == v.active + {from};
  }

  // Exactly when one overflows, for one draw: the view is full, the peer is new, and
  // the draw frees nothing.
  lemma HighPriorityOverflowsIff(lim: Limits, v: View, from: Peer, c: Pick)
    requires WithinCapacity(lim, v) && Allows(lim, v, Receive(from, Rpc.Neighbor(Some(from), HIGH)), c)
    ensures !WithinCapacity(lim, Next(lim, v, Receive(from, Rpc.Neighbor(Some(from), HIGH)), c).view) <==>
            && |v.active| == lim.maxActive && from !in v.active && from != v.local
            && !(v.passive != {} && c.victim in v.active)
  {
    var after := Next(lim, v, Receive(from, Rpc.Neighbor(Some(from), HIGH)), c).view;
    if from !in v.active && Overconnected(lim, v) {
      var freed := FreeSlot(lim, v, c).view;
      assert v.passive != {} && c.victim in v.active ==> |freed.active| == |v.active| - 1;
      assert !(v.passive != {} && c.victim in v.active) ==> freed.active == v.active;
      assert after.active == if from == v.local then freed.active else freed.active + {from};
    }
  }

  // Exactly when none can, whatever is drawn: a condition on the view alone.
  lemma HighPrioritySafeIff(lim: Limits, v: View, from: Peer)
    requires WithinCapacity(lim, v)
    ensures (forall c :: Allows(lim, v, Receive(from, Rpc.Neighbor(Some(from), HIGH)), c) ==>
               WithinCapacity(lim, Next(lim, v, Receive(from, Rpc.Neighbor(Some(from), HIGH)), c).view)) <==>
            || |v.active| < lim.maxActive || from in v.active || from == v.local
            || (v.passive != {} && v.passive <= v.active)
  {
    var request := Receive(from, Rpc.Neighbor(Some(from), HIGH));
    forall c | Allows(lim, v, request, c)
      ensures !WithinCapacity(lim, Next(lim, v, request, c).view) <==>
              && |v.active| == lim.maxActive && from !in v.active && from != v.local
              && !(v.passive != {} && c.victim in v.active)
    {
      HighPriorityOverflowsIff(lim, v, from, c);
    }
    var c := Pick({}, if p :| p in v.passive && p !in v.active then p else from, [], [], 0);
    assert v.passive == {} || !(v.passive <= v.active) ==> Allows(lim, v, request, c);
    hide Next, WithinCapacity;
  }

  // -- Where the code does less than its comments say -------------------------------------

  // Freeing a slot frees one exactly when the peer drawn from the passive view
  // happens to be active too; never while the views are disjoint.
  lemma FreeingFreesIff(lim: Limits, v: View, c: Pick)
    requires FreeAllows(lim, v, c) && Overconnected(lim, v)
    ensures |FreeSlot(lim, v, c).view.active| < |v.active| <==> c.victim in v.active * v.passive
    ensures v.active !! v.passive ==> FreeSlot(lim, v, c).view.active == v.active
    ensures v.passive != {} ==> PeerRemoved(c.victim) in FreeSlot(lim, v, c).events
  {
    if c.victim in v.active {
      Smaller(v.active - {c.victim}, v.active);
    } else {
      assert v.active - {c.victim} == v.active;
    }
    if v.passive != {} {
      assert FreeSlot(lim, v, c).events[1] == PeerRemoved(c.victim);
    }
  }

  // At capacity a request to be a neighbour changes nothing, and is not even answered,
  // unless its priority is high; a high one is always let in.
  lemma RequestAtCapacity(lim: Limits, v: View, peer: Peer, priority: int, c: Pick)
    requires NeighborAllows(lim, v, peer, priority, c) && Overconnected(lim, v) && peer !in v.active && peer != v.local
    ensures NeighborIn(lim, v, peer, priority, c) == Outcome(v, []) <==> priority != HIGH
    ensures priority == HIGH ==> peer in NeighborIn(lim, v, peer, priority, c).view.active
  {
    if priority == HIGH {
      assert peer in NeighborIn(lim, v, peer, priority, c).view.active;
    }
  }

  // A shuffle reply is merged up to capacity exactly when it fits: one peer too
  // many costs the whole passive view.
  lemma ReplyTrimsIff(lim: Limits, v: View, nodes: seq<Peer>)
    ensures Absorbs(v.passive, (set p | p in nodes), lim.maxPassive, ShuffleReplyIn(lim, v, nodes).view.passive) <==>
            |v.passive + set p | p in nodes| <= lim.maxPassive || lim.maxPassive == 0
  {
    var merged := v.passive + set p | p in nodes;
    assert ShuffleReplyIn(lim, v, nodes).view.passive == if |merged| > lim.maxPassive then {} else merged;
  }

  // -- Quiescence ------------------------------------------------------------------------

  // How many deliveries one message in flight can still cause, itself included,
  // when no view has more than `degree` active peers.
  function WalkWeight(ttl: nat, degree: nat): nat {
    if ttl == 0 then 3 else 2 + degree * WalkWeight(ttl - 1, degree)
  }

  function Weight(rpc: Rpc, degree: nat): nat {
    match rpc
    case Join(ttl, _) => 2 + degree * WalkWeight(ttl, degree)
    case ForwardJoin(ttl, _) => WalkWeight(ttl, degree)
    case Shuffle(ttl, _, _) => 2 * ttl + 2
    case Neighbor(_, priority) => if priority == HIGH then 2 else 1
    case _ => 1
  }

  function PacketWeight(degree: nat): Packet -> nat {
    (p: Packet) => Weight(p.rpc, degree)
  }

  function EventWeight(node: Peer, events: seq<Action>, degree: nat): nat {
    Total(Sends(node, events), PacketWeight(degree))
  }

  lemma EventWeightConcat(node: Peer, a: seq<Action>, b: seq<Action>, degree: nat)
    ensures EventWeight(node, a + b, degree) == EventWeight(node, a, degree) + EventWeight(node, b, degree)
  {
    SendsConcat(node, a, b);
    TotalConcat(Sends(node, a), Sends(node, b), PacketWeight(degree));
  }

  lemma EventWeightOne(node: Peer, a: Action, degree: nat)
    ensures EventWeight(node, [a], degree) == if a.Notify? then Weight(a.rpc, degree) else 0
  {
    SendsOne(node, a);
    if a.Notify? {
      TotalOne(Packet(node, a.peer, a.rpc), PacketWeight(degree));
    }
  }

  lemma EventWeightNone(node: Peer, degree: nat)
    ensures EventWeight(node, [], degree) == 0
  {}

  lemma FanWeight(node: Peer, order: seq<Peer>, s: set<Peer>, rpc: Rpc, degree: nat)
    requires Enumerates(order, s) && |s| <= degree
    ensures EventWeight(node, Fan(order, rpc), degree) <= degree * Weight(rpc, degree)
  {
    FanTotal(node, order, rpc, PacketWeight(degree), Weight(rpc, degree));
    EnumerationLength(order, s);
    Monotone(|order|, degree, Weight(rpc, degree));
  }

  lemma Monotone(a: nat, b: nat, w: nat)
    requires a <= b
    ensures a * w <= b * w
  {}

  lemma AddActiveWeight(node: Peer, v: View, peer: Peer, initiator: bool, degree: nat)
    ensures EventWeight(node, AddActive(v, peer, initiator).events, degree) <= if initiator then 1 else 0
  {
    var o := AddActive(v, peer, initiator);
    if o.events != [] {
      EventWeightOne(node, PeerAdded(peer), degree);
      if initiator {
        var dial, ask := Dial(peer, false), o.events[1];
        EventWeightConcat(node, [dial, ask], [PeerAdded(peer)], degree);
        EventWeightConcat(node, [dial], [ask], degree);
        EventWeightOne(node, dial, degree);
        EventWeightOne(node, ask, degree);
        assert [dial] + [ask] == [dial, ask];
        assert o.events == [dial, ask] + [PeerAdded(peer)];
      } else {
        assert o.events == [PeerAdded(peer)];
      }
    }
  }

  lemma FreeSlotWeight(lim: Limits, node: Peer, v: View, c: Pick, degree: nat)
    ensures EventWeight(node, FreeSlot(lim, v, c).events, degree) <= 1
  {
    var o := FreeSlot(lim, v, c);
    if o.events != [] {
      var ask, gone := Notify(c.victim, Rpc.Disconnect(true)), PeerRemoved(c.victim);
      EventWeightConcat(node, [ask], [gone], degree);
      EventWeightOne(node, ask, degree);
      EventWeightOne(node, gone, degree);
      assert o.events == [ask] + [gone];
    }
  }

  lemma DisconnectWeight(node: Peer, v: View, peer: Peer, alive: bool, c: Pick, degree: nat)
    ensures EventWeight(node, DisconnectIn(v, peer, alive, c).events, degree) == 0
  {
    EventWeightOne(node, PeerRemoved(peer), degree);
  }

  lemma ReplyWeight(node: Peer, v: View, origin: Peer, sample: seq<Peer>, degree: nat)
    ensures EventWeight(node, ReplyTo(v, origin, sample), degree) == 1
  {
    var dial := if origin in v.active then [] else [Dial(origin, true)];
    var reply := Notify(origin, Rpc.ShuffleReply(Wires(sample)));
    EventWeightConcat(node, dial, [reply], degree);
    EventWeightOne(node, reply, degree);
    EventWeightOne(node, Dial(origin, true), degree);
  }

  lemma JoinWeight(lim: Limits, node: Peer, v: View, sender: Peer, peer: Peer, ttl: nat, c: Pick, degree: nat)
    requires JoinAllows(lim, v, sender, peer, c) && |JoinIn(lim, v, sender, peer, ttl, c).view.active| <= degree
    ensures EventWeight(node, JoinIn(lim, v, sender, peer, ttl, c).events, degree)
            <= 1 + degree * WalkWeight(ttl, degree)
  {
    hide EventWeight, AddActive, Enumerates, Absorbs;
    EventWeightNone(node, degree);
    if peer !in v.active {
      var o := Place(lim, v, peer, c);
      AddActiveWeight(node, v, peer, true, degree);
      Smaller(o.view.active - {peer, sender}, o.view.active);
      FanWeight(node, c.order, o.view.active - {peer, sender}, Rpc.ForwardJoin(ttl, Some(peer)), degree);
      EventWeightConcat(node, o.events, Fan(c.order, Rpc.ForwardJoin(ttl, Some(peer))), degree);
    }
  }

  lemma ForwardJoinWeight(lim: Limits, node: Peer, v: View, sender: Peer, peer: Peer, ttl: nat, c: Pick, degree: nat)
    requires ForwardJoinAllows(lim, v, sender, peer, ttl, c)
    requires |ForwardJoinIn(lim, v, sender, peer, ttl, c).view.active| <= degree
    ensures EventWeight(node, ForwardJoinIn(lim, v, sender, peer, ttl, c).events, degree) < WalkWeight(ttl, degree)
  {
    hide EventWeight, AddActive, FreeSlot, Enumerates, Absorbs;
    EventWeightNone(node, degree);
    if peer != v.local {
      var freed := Freed(lim, v, peer, ttl, c);
      var placed := Place(lim, freed.view, peer, c);
      FreeSlotWeight(lim, node, v, c, degree);
      AddActiveWeight(node, freed.view, peer, true, degree);
      EventWeightConcat(node, freed.events, placed.events, degree);
      var head := freed.events + placed.events;
      if ttl == 0 {
        assert ForwardJoinIn(lim, v, sender, peer, ttl, c).events == head;
      } else {
        var rpc := Rpc.ForwardJoin(ttl - 1, Some(peer));
        Smaller(placed.view.active - {sender, peer}, placed.view.active);
        FanWeight(node, c.order, placed.view.active - {sender, peer}, rpc, degree);
        EventWeightConcat(node, head, Fan(c.order, rpc), degree);
      }
    }
  }

  lemma ShuffleWeight(
    lim: Limits, node: Peer, v: View, from: Peer, ttl: nat, nodes: seq<Peer>, origin: Peer, c: Pick, degree: nat)
    ensures EventWeight(node, ShuffleIn(lim, v, from, ttl, nodes, origin, c).events, degree) < 2 * ttl + 2
  {
    var reply := ReplyTo(v, origin, c.sample);
    ReplyWeight(node, v, origin, c.sample, degree);
    if ttl != 0 {
      if v.active - {from, origin} != {} {
        var on := Notify(c.target, Rpc.Shuffle(ttl - 1, Some(origin), Wires(nodes)));
        EventWeightConcat(node, reply, [on], degree);
        EventWeightOne(node, on, degree);
      } else {
        var merged := v.(passive := c.passive);
        AddActiveWeight(node, merged, origin, true, degree);
        EventWeightConcat(node, reply, AddActive(merged, origin, true).events, degree);
      }
    }
  }

  // Everything a delivery makes a node send weighs less than what was delivered.
  lemma DeliveryLowersWeight(lim: Limits, v: View, from: Peer, rpc: Rpc, c: Pick, node: Peer, degree: nat)
    requires ReceiveAllows(lim, v, from, rpc, c)
    requires |Received(lim, v, from, rpc, c).view.active| <= degree
    ensures EventWeight(node, Received(lim, v, from, rpc, c).events, degree) < Weight(rpc, degree)
  {
    if Verdict(from, rpc).None? {
      match rpc
      case Join(ttl, peer) => JoinWeight(lim, node, v, from, peer.value, ttl, c, degree);
      case ForwardJoin(ttl, peer) => ForwardJoinWeight(lim, node, v, from, peer.value, ttl, c, degree);
      case Neighbor(peer, priority) => NeighborWeight(lim, node, v, peer.value, priority, c, degree);
      case Disconnect(alive) => DisconnectWeight(node, v, from, alive, c, degree);
      case Shuffle(ttl, origin, nodes) =>
        ShuffleWeight(lim, node, v, from, ttl, Decoded(nodes), origin.value, c, degree);
      case _ =>
    } else {
      WeightPositive(rpc, degree);
    }
  }

  lemma NeighborWeight(lim: Limits, node: Peer, v: View, peer: Peer, priority: int, c: Pick, degree: nat)
    ensures EventWeight(node, NeighborIn(lim, v, peer, priority, c).events, degree)
            < Weight(Rpc.Neighbor(Some(peer), priority), degree)
  {
    AddActiveWeight(node, v, peer, false, degree);
    DisconnectWeight(node, v, peer, true, c, degree);
    var freed := FreeSlot(lim, v, c);
    FreeSlotWeight(lim, node, v, c, degree);
    AddActiveWeight(node, freed.view, peer, false, degree);
    EventWeightConcat(node, freed.events, AddActive(freed.view, peer, false).events, degree);
  }

  lemma WeightPositive(rpc: Rpc, degree: nat)
    ensures Weight(rpc, degree) >= 1
  {}

  ghost predicate Arrivals(steps: seq<Step>) {
    forall s | s in steps :: s.move.Arrive?
  }

  lemma ArrivalLowersWeight(rules: Rules, n: Net, s: Step, degree: nat)
    requires Enabled(rules, n, s) && s.move.Arrive?
    requires |Apply(rules, n, s).views[n.flight[s.move.index].dst].active| <= degree
    ensures Total(Apply(rules, n, s).flight, PacketWeight(degree)) < Total(n.flight, PacketWeight(degree))
  {
    hide Received, Weight, Sends, Total;
    var i, w := s.move.index, PacketWeight(degree);
    var p := n.flight[i];
    DeliveryLowersWeight(rules(p.dst), n.views[p.dst], p.src, p.rpc, s.pick, p.dst, degree);
    TotalWithout(n.flight, i, w);
    var o := Received(rules(p.dst), n.views[p.dst], p.src, p.rpc, s.pick);
    TotalConcat(Without(n.flight, i), Sends(p.dst, o.events), w);
  }

  // No step leaves anybody with more than `degree` active peers.
  ghost predicate StaysSmall(rules: Rules, n: Net, steps: seq<Step>, degree: nat)
    requires Legal(rules, n, steps)
  {
    steps != [] ==>
      && StaysSmall(rules, n, steps[..|steps| - 1], degree)
      && forall x :: x in Run(rules, n, steps).views ==> |Run(rules, n, steps).views[x].active| <= degree
  }

  // With no ticks, connection events or new joins, deliveries in any order stop
  // after as many steps as the messages in flight weigh; whoever sent them.
  lemma {:induction false} MembershipQuiesces(rules: Rules, n: Net, steps: seq<Step>, degree: nat)
    requires Legal(rules, n, steps) && Arrivals(steps) && StaysSmall(rules, n, steps, degree)
    ensures |steps| + Total(Run(rules, n, steps).flight, PacketWeight(degree)) <= Total(n.flight, PacketWeight(degree))
  {
    hide Enabled, Total, Apply;
    if steps != [] {
      var init, last := steps[..|steps| - 1], steps[|steps| - 1];
      assert last in steps && forall s :: s in init ==> s in steps;
      MembershipQuiesces(rules, n, init, degree);
      var before := Run(rules, n, init);
      DstStays(rules, before, last);
      assert Run(rules, n, steps) == Apply(rules, before, last);
      assert |Run(rules, n, steps).views[before.flight[last.move.index].dst].active| <= degree;
      ArrivalLowersWeight(rules, before, last, degree);
    }
  }

  lemma DstStays(rules: Rules, n: Net, s: Step)
    requires Enabled(rules, n, s) && s.move.Arrive?
    ensures s.move.index < |n.flight| && n.flight[s.move.index].dst in Apply(rules, n, s).views
  {}

  // Among nodes that all run this code the largest active capacity is such a degree.
  lemma {:induction false} ClosedSystemStaysSmall(rules: Rules, n: Net, steps: seq<Step>, degree: nat)
    requires AllRoomy(rules, n) && CapacityKept(rules, n) && Legal(rules, n, steps)
    requires forall x :: x in n.views ==> rules(x).maxActive <= degree
    ensures CapacityKept(rules, Run(rules, n, steps)) && Run(rules, n, steps).views.Keys == n.views.Keys
    ensures StaysSmall(rules, n, steps, degree)
  {
    hide Apply, Enabled, Roomy;
    if steps != [] {
      var init, last := steps[..|steps| - 1], steps[|steps| - 1];
      ClosedSystemStaysSmall(rules, n, init, degree);
      StepKeepsCapacity(rules, Run(rules, n, init), last);
    }
  }

  function Power(base: nat, exponent: nat): nat {
    if exponent == 0 then 1 else base * Power(base, exponent - 1)
  }

  lemma {:induction false} WalkIsGeometric(ttl: nat, degree: nat)
    requires degree >= 2
    ensures WalkWeight(ttl, degree) + 2 <= 5 * Power(degree, ttl)
  {
    if ttl > 0 {
      WalkIsGeometric(ttl - 1, degree);
      Monotone(WalkWeight(ttl - 1, degree) + 2, 5 * Power(degree, ttl - 1), degree);
      assert degree * (5 * Power(degree, ttl - 1)) == 5 * (degree * Power(degree, ttl - 1));
      assert degree * (WalkWeight(ttl - 1, degree) + 2) == degree * WalkWeight(ttl - 1, degree) + 2 * degree;
    }
  }

  // A single join request, with everything it sets off, in a network whose largest
  // active capacity is at most `degree`.
  lemma JoinCascade(rules: Rules, n: Net, steps: seq<Step>, p: Packet, degree: nat)
    requires AllRoomy(rules, n) && CapacityKept(rules, n) && Legal(rules, n, steps) && Arrivals(steps)
    requires degree >= 2 && forall x :: x in n.views ==> rules(x).maxActive <= degree
    requires n.flight == [p] && p.rpc.Join?
    ensures |steps| <= 5 * Power(degree, p.rpc.ttl + 1)
  {
    ClosedSystemStaysSmall(rules, n, steps, degree);
    MembershipQuiesces(rules, n, steps, degree);
    TotalOne(p, PacketWeight(degree));
    WalkIsGeometric(p.rpc.ttl + 1, degree);
  }
}
