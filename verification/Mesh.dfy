/** How a topic keeps its broadcast tree in step with its membership view
    (topic.rs): active-view changes travel to the tree through the view's own
    queue. Replaying what is queued always accounts for every active peer. */
module Mesh {
  import opened Types
  import V = ViewSpec
  import T = TreeSpec

  datatype Mesh = Mesh(view: V.View, queue: seq<Action>, tree: T.Tree)

  datatype Step =
    | Membership(signal: V.Signal, pick: V.Pick)
    | Bridge
    | Broadcast(input: T.Input, at: Instant, choice: T.Choice)

  // The tree's reaction to an event on its way out of the view.
  function Bridged(t: T.Tree, a: Action): T.Tree {
    match a
    case PeerAdded(peer) => T.NeighborUp(t, peer)
    case PeerRemoved(peer) => T.NeighborDown(t, peer)
    case _ => t
  }

  ghost predicate Enabled(cfg: T.Settings, lim: V.Limits, m: Mesh, s: Step) {
    match s
    case Membership(signal, pick) => V.Allows(lim, m.view, signal, pick)
    case Bridge => m.queue != []
    case Broadcast(input, at, choice) => !input.Up? && !input.Down? && T.Permits(cfg, m.tree, input, at, choice)
  }

  function Apply(cfg: T.Settings, lim: V.Limits, m: Mesh, s: Step): Mesh
    requires s.Bridge? ==> m.queue != []
  {
    match s
    case Membership(signal, pick) =>
      var o := V.Next(lim, m.view, signal, pick);
      m.(view := o.view, queue := m.queue + o.events)
    case Bridge => m.(queue := m.queue[1..], tree := Bridged(m.tree, m.queue[0]))
    case Broadcast(input, at, choice) => m.(tree := T.Next(cfg, m.tree, input, at, choice).tree)
  }

  ghost predicate Legal(cfg: T.Settings, lim: V.Limits, m: Mesh, steps: seq<Step>)
    decreases |steps|, 0
  {
    steps != [] ==>
      && Legal(cfg, lim, m, steps[..|steps| - 1])
      && Enabled(cfg, lim, Run(cfg, lim, m, steps[..|steps| - 1]), steps[|steps| - 1])
  }

  ghost function Run(cfg: T.Settings, lim: V.Limits, m: Mesh, steps: seq<Step>): Mesh
    requires Legal(cfg, lim, m, steps)
    decreases |steps|, 1
  {
    if steps == [] then m
    else Apply(cfg, lim, Run(cfg, lim, m, steps[..|steps| - 1]), steps[|steps| - 1])
  }

  // -- Replaying membership events as set updates -------------------------------------

  function Replay(events: seq<Action>, s: set<Peer>): set<Peer> {
    if events == [] then s
    else
      var before := Replay(events[..|events| - 1], s);
      var last := events[|events| - 1];
      if last.PeerAdded? then before + {last.peer}
      else if last.PeerRemoved? then before - {last.peer}
      else before
  }

  // No peer is announced that the replay already has.
  ghost predicate Novel(events: seq<Action>, s: set<Peer>) {
    events != [] ==>
      var init, last := events[..|events| - 1], events[|events| - 1];
      Novel(init, s) && (last.PeerAdded? ==> last.peer !in Replay(init, s))
  }

  lemma {:induction false} ReplayConcat(a: seq<Action>, b: seq<Action>, s: set<Peer>)
    ensures Replay(a + b, s) == Replay(b, Replay(a, s))
    ensures Novel(a + b, s) <==> Novel(a, s) && Novel(b, Replay(a, s))
  {
    if b == [] {
      assert a + b == a;
    } else {
      ReplayConcat(a, b[..|b| - 1], s);
      assert (a + b)[..|a + b| - 1] == a + b[..|b| - 1];
    }
  }

  lemma ReplayOne(a: Action, s: set<Peer>)
    ensures Replay([a], s) == if a.PeerAdded? then s + {a.peer} else if a.PeerRemoved? then s - {a.peer} else s
    ensures Novel([a], s) <==> (a.PeerAdded? ==> a.peer !in s)
  {
    assert [a][..0] == [];
  }

  lemma {:induction false} ReplayMonotone(events: seq<Action>, s: set<Peer>, t: set<Peer>)
    requires s <= t
    ensures Replay(events, s) <= Replay(events, t)
  {
    if events != [] {
      ReplayMonotone(events[..|events| - 1], s, t);
    }
  }

  lemma {:induction false} ReplayInert(events: seq<Action>, s: set<Peer>)
    requires forall a :: a in events ==> !a.PeerAdded? && !a.PeerRemoved?
    ensures Replay(events, s) == s && Novel(events, s)
  {
    if events != [] {
      assert forall a :: a in events[..|events| - 1] ==> a in events;
      assert events[|events| - 1] in events;
      ReplayInert(events[..|events| - 1], s);
    }
  }

  // -- Every input of the view says what it does to the active set ----------------------

  ghost predicate Tells(v: V.View, o: V.Outcome) {
    Replay(o.events, v.active) == o.view.active && Novel(o.events, v.active)
  }

  lemma TellsThen(v: V.View, middle: V.View, o: V.Outcome, a: seq<Action>, b: seq<Action>)
    requires Tells(v, V.Outcome(middle, a)) && Tells(middle, V.Outcome(o.view, b)) && o.events == a + b
    ensures Tells(v, o)
  {
    ReplayConcat(a, b, v.active);
  }

  lemma AddActiveTells(v: V.View, node: Peer, initiator: bool)
    ensures Tells(v, V.AddActive(v, node, initiator))
  {
    var o := V.AddActive(v, node, initiator);
    if o.events != [] {
      var init := o.events[..|o.events| - 1];
      ReplayInert(init, v.active);
    }
  }

  lemma FreeSlotTells(lim: V.Limits, v: V.View, c: V.Pick)
    ensures Tells(v, V.FreeSlot(lim, v, c))
  {
    var o := V.FreeSlot(lim, v, c);
    if o.events != [] {
      assert o.events[..1] == [o.events[0]];
      ReplayOne(o.events[0], v.active);
    }
  }

  lemma DisconnectTells(v: V.View, peer: Peer, alive: bool, c: V.Pick)
    ensures Tells(v, V.DisconnectIn(v, peer, alive, c))
  {
    ReplayOne(PeerRemoved(peer), v.active);
  }

  lemma QuietTells(v: V.View, o: V.Outcome)
    requires o.view.active == v.active && forall a :: a in o.events ==> !a.PeerAdded? && !a.PeerRemoved?
    ensures Tells(v, o)
  {
    ReplayInert(o.events, v.active);
  }

  lemma FanQuiet(order: seq<Peer>, rpc: Rpc)
    ensures forall a :: a in Fan(order, rpc) ==> !a.PeerAdded? && !a.PeerRemoved?
  {}

  lemma PlaceTells(lim: V.Limits, v: V.View, peer: Peer, c: V.Pick)
    ensures Tells(v, V.Place(lim, v, peer, c))
  {
    AddActiveTells(v, peer, true);
    QuietTells(v, V.AddPassive(v, c));
  }

  lemma ForwardJoinTells(lim: V.Limits, v: V.View, sender: Peer, peer: Peer, ttl: nat, c: V.Pick)
    ensures Tells(v, V.ForwardJoinIn(lim, v, sender, peer, ttl, c))
  {
    hide Tells, V.AddActive, V.FreeSlot;
    if peer == v.local {
      QuietTells(v, V.Outcome(v, []));
    } else {
      var freed := V.Freed(lim, v, peer, ttl, c);
      var placed := V.Place(lim, freed.view, peer, c);
      var tail := if ttl == 0 then [] else Fan(c.order, Rpc.ForwardJoin(ttl - 1, Some(peer)));
      FreeSlotTells(lim, v, c);
      QuietTells(v, V.Outcome(v, []));
      PlaceTells(lim, freed.view, peer, c);
      var o := V.Outcome(placed.view, freed.events + placed.events);
      TellsThen(v, freed.view, o, freed.events, placed.events);
      FanQuiet(c.order, Rpc.ForwardJoin(if ttl == 0 then 0 else ttl - 1, Some(peer)));
      QuietTells(placed.view, V.Outcome(placed.view, tail));
      TellsThen(v, placed.view, V.ForwardJoinIn(lim, v, sender, peer, ttl, c), o.events, tail);
    }
  }

  lemma JoinTells(lim: V.Limits, v: V.View, sender: Peer, peer: Peer, ttl: nat, c: V.Pick)
    ensures Tells(v, V.JoinIn(lim, v, sender, peer, ttl, c))
  {
    hide Tells, V.Place;
    if peer in v.active {
      QuietTells(v, V.Outcome(v, []));
    } else {
      var o := V.Place(lim, v, peer, c);
      var tail := Fan(c.order, Rpc.ForwardJoin(ttl, Some(peer)));
      PlaceTells(lim, v, peer, c);
      FanQuiet(c.order, Rpc.ForwardJoin(ttl, Some(peer)));
      QuietTells(o.view, V.Outcome(o.view, tail));
      TellsThen(v, o.view, V.JoinIn(lim, v, sender, peer, ttl, c), o.events, tail);
    }
  }

  lemma NeighborTells(lim: V.Limits, v: V.View, peer: Peer, priority: int, c: V.Pick)
    ensures Tells(v, V.NeighborIn(lim, v, peer, priority, c))
  {
    hide Tells, V.AddActive, V.FreeSlot, V.DisconnectIn;
    QuietTells(v, V.Outcome(v, []));
    AddActiveTells(v, peer, false);
    DisconnectTells(v, peer, true, c);
    var freed := V.FreeSlot(lim, v, c);
    var added := V.AddActive(freed.view, peer, false);
    FreeSlotTells(lim, v, c);
    AddActiveTells(freed.view, peer, false);
    TellsThen(v, freed.view, V.Outcome(added.view, freed.events + added.events), freed.events, added.events);
  }

  lemma ShuffleTells(
    lim: V.Limits, v: V.View, from: Peer, ttl: nat, nodes: seq<Peer>, origin: Peer, c: V.Pick)
    ensures Tells(v, V.ShuffleIn(lim, v, from, ttl, nodes, origin, c))
  {
    hide Tells, V.AddActive;
    var o := V.ShuffleIn(lim, v, from, ttl, nodes, origin, c);
    var merged, reply := v.(passive := c.passive), V.ReplyTo(v, origin, c.sample);
    if ttl != 0 && v.active - {from, origin} == {} {
      QuietTells(v, V.Outcome(merged, reply));
      AddActiveTells(merged, origin, true);
      TellsThen(v, merged, o, reply, V.AddActive(merged, origin, true).events);
    } else {
      QuietTells(v, o);
    }
  }

  // Replaying what an input queues turns the old active view into the new one,
  // announcing only peers that were not in it.
  lemma NextTells(lim: V.Limits, v: V.View, s: V.Signal, c: V.Pick)
    ensures Tells(v, V.Next(lim, v, s, c))
  {
    hide Tells, V.AddActive, V.JoinIn, V.ForwardJoinIn, V.NeighborIn, V.DisconnectIn, V.ShuffleIn;
    match s
    case Receive(from, rpc) =>
      if V.Verdict(from, rpc).Some? {
        QuietTells(v, V.Outcome(v, []));
      } else {
        match rpc
        case Join(ttl, peer) => JoinTells(lim, v, from, peer.value, ttl, c);
        case ForwardJoin(ttl, peer) => ForwardJoinTells(lim, v, from, peer.value, ttl, c);
        case Neighbor(peer, priority) => NeighborTells(lim, v, peer.value, priority, c);
        case Disconnect(alive) => DisconnectTells(v, from, alive, c);
        case Shuffle(ttl, origin, nodes) => ShuffleTells(lim, v, from, ttl, V.Decoded(nodes), origin.value, c);
        case _ => QuietTells(v, V.Next(lim, v, s, c));
      }
    case Dropped(peer, alive) => DisconnectTells(v, peer, alive, c);
    case TopUpDue =>
      PromoteTells(lim, v, c);
    case _ => QuietTells(v, V.Next(lim, v, s, c));
  }

  lemma PromoteTells(lim: V.Limits, v: V.View, c: V.Pick)
    ensures Tells(v, V.Promote(lim, v, c))
  {
    AddActiveTells(v.(passive := v.passive - {c.victim}), c.victim, true);
    QuietTells(v, V.Outcome(v, []));
  }

  // -- Agreement -------------------------------------------------------------------------

  function Known(t: T.Tree): set<Peer> {
    t.eager + t.lazy
  }

  // Every active peer is a tree neighbour once the queue is drained.
  ghost predicate Follows(m: Mesh) {
    m.view.active <= Replay(m.queue, Known(m.tree))
  }

  // Nobody else is, and no neighbour is both eager and lazy.
  ghost predicate Agrees(m: Mesh) {
    && m.view.active == Replay(m.queue, Known(m.tree))
    && Novel(m.queue, Known(m.tree))
    && m.tree.eager !! m.tree.lazy
  }

  lemma Drained(m: Mesh)
    requires m.queue == []
    ensures Follows(m) <==> m.view.active <= Known(m.tree)
    ensures Agrees(m) <==> m.view.active == Known(m.tree) && m.tree.eager !! m.tree.lazy
  {}

  // Prunes and grafts come from current neighbours only.
  ghost predicate Polite(m: Mesh, s: Step) {
    s.Broadcast? && s.input.Receive? && (s.input.rpc.Prune? || s.input.rpc.Graft?) ==> s.input.from in Known(m.tree)
  }

  ghost predicate AllPolite(cfg: T.Settings, lim: V.Limits, m: Mesh, steps: seq<Step>)
    requires Legal(cfg, lim, m, steps)
  {
    steps != [] ==>
      && AllPolite(cfg, lim, m, steps[..|steps| - 1])
      && Polite(Run(cfg, lim, m, steps[..|steps| - 1]), steps[|steps| - 1])
  }

  lemma TreeTurnKnown(cfg: T.Settings, t: T.Tree, i: T.Input, now: Instant, c: T.Choice)
    requires !i.Up? && !i.Down?
    ensures var t' := T.Next(cfg, t, i, now, c).tree;
      && Known(t) <= Known(t')
      && (!(i.Receive? && (i.rpc.Prune? || i.rpc.Graft?) && i.from !in Known(t)) ==> Known(t') == Known(t))
      && (t.eager !! t.lazy ==> t'.eager !! t'.lazy)
  {
    if i.Receive? && i.rpc.IHave? {
      T.IHavesFrame(t, i.from, i.rpc.ihaves, now);
    }
  }

  lemma BridgeReplays(m: Mesh)
    requires m.queue != []
    ensures var t' := Bridged(m.tree, m.queue[0]);
      && Replay(m.queue[1..], Known(t')) == Replay(m.queue, Known(m.tree))
      && (Novel(m.queue, Known(m.tree)) ==> Novel(m.queue[1..], Known(t')))
      && (Novel(m.queue, Known(m.tree)) && m.tree.eager !! m.tree.lazy ==> t'.eager !! t'.lazy)
  {
    var a := m.queue[0];
    assert m.queue == [a] + m.queue[1..];
    ReplayConcat([a], m.queue[1..], Known(m.tree));
    ReplayOne(a, Known(m.tree));
    assert Known(Bridged(m.tree, a)) == Replay([a], Known(m.tree));
  }

  lemma StepKeepsFollowing(cfg: T.Settings, lim: V.Limits, m: Mesh, s: Step)
    requires Enabled(cfg, lim, m, s) && Follows(m)
    ensures Follows(Apply(cfg, lim, m, s))
  {
    hide V.Next, T.Next, V.Allows, T.Permits;
    var known := Known(m.tree);
    match s
    case Membership(signal, pick) =>
      var o := V.Next(lim, m.view, signal, pick);
      NextTells(lim, m.view, signal, pick);
      ReplayConcat(m.queue, o.events, known);
      ReplayMonotone(o.events, m.view.active, Replay(m.queue, known));
    case Bridge => BridgeReplays(m);
    case Broadcast(input, at, choice) =>
      TreeTurnKnown(cfg, m.tree, input, at, choice);
      ReplayMonotone(m.queue, known, Known(T.Next(cfg, m.tree, input, at, choice).tree));
  }

  lemma StepKeepsAgreement(cfg: T.Settings, lim: V.Limits, m: Mesh, s: Step)
    requires Enabled(cfg, lim, m, s) && Agrees(m) && Polite(m, s)
    ensures Agrees(Apply(cfg, lim, m, s))
  {
    hide V.Next, T.Next, V.Allows, T.Permits;
    match s
    case Membership(signal, pick) =>
      var o := V.Next(lim, m.view, signal, pick);
      NextTells(lim, m.view, signal, pick);
      ReplayConcat(m.queue, o.events, Known(m.tree));
    case Bridge => BridgeReplays(m);
    case Broadcast(input, at, choice) => TreeTurnKnown(cfg, m.tree, input, at, choice);
  }

  // A topic starts with nobody in its views, its queue or its tree.
  ghost predicate Fresh(m: Mesh) {
    m.view.active == {} && m.queue == [] && m.tree.eager == {} && m.tree.lazy == {}
  }

  // In every reachable state, whatever peers send; with equality as long as prunes
  // and grafts come from current neighbours.
  lemma {:induction false} ViewTreeAgreement(cfg: T.Settings, lim: V.Limits, m: Mesh, steps: seq<Step>)
    requires Fresh(m) && Legal(cfg, lim, m, steps)
    ensures Follows(Run(cfg, lim, m, steps))
    ensures AllPolite(cfg, lim, m, steps) ==> Agrees(Run(cfg, lim, m, steps))
  {
    hide Apply, Enabled, Polite;
    if steps != [] {
      var init, last := steps[..|steps| - 1], steps[|steps| - 1];
      ViewTreeAgreement(cfg, lim, m, init);
      hide Follows, Agrees;
      StepKeepsFollowing(cfg, lim, Run(cfg, lim, m, init), last);
      if AllPolite(cfg, lim, m, steps) {
        StepKeepsAgreement(cfg, lim, Run(cfg, lim, m, init), last);
      }
    }
  }

  // The first the queue says of `p` is that it left.
  ghost predicate Dismisses(events: seq<Action>, p: Peer) {
    events != [] &&
    var init := events[..|events| - 1];
    (Dismisses(init, p) || (events[|events| - 1] == PeerRemoved(p) && PeerAdded(p) !in init))
  }

  // What replaying over one more peer than the tree knew comes to.
  lemma {:induction false} OneStranger(events: seq<Action>, s: set<Peer>, p: Peer)
    requires p !in s && Novel(events, s)
    ensures Dismisses(events, p) ==> Novel(events, s + {p}) && Replay(events, s + {p}) == Replay(events, s)
    ensures !Dismisses(events, p) ==>
              || (PeerAdded(p) in events && !Novel(events, s + {p}))
              || (PeerAdded(p) !in events && Novel(events, s + {p})
                  && p in Replay(events, s + {p}) && p !in Replay(events, s))
    ensures forall x :: x != p ==> (x in Replay(events, s + {p}) <==> x in Replay(events, s))
  {
    if events != [] {
      var init, last := events[..|events| - 1], events[|events| - 1];
      assert events == init + [last];
      OneStranger(init, s, p);
    }
  }

  // Exactly when a prune or graft keeps the agreement: its sender is a neighbour, or
  // the next the tree will hear of that peer is that it left.
  lemma StrangersBreakAgreement(
    cfg: T.Settings, lim: V.Limits, m: Mesh, from: Peer, ids: seq<Id>, at: Instant, choice: T.Choice)
    requires Agrees(m)
    ensures var welcome := from in Known(m.tree) || Dismisses(m.queue, from);
      && (Agrees(Apply(cfg, lim, m, Broadcast(T.Receive(from, Rpc.Prune), at, choice))) <==> welcome)
      && (Agrees(Apply(cfg, lim, m, Broadcast(T.Receive(from, Rpc.Graft(ids)), at, choice))) <==> welcome)
  {
    var known := Known(m.tree);
    var pruned, grafted := T.PruneIn(m.tree, from), T.GraftIn(m.tree, from, ids).tree;
    assert Known(pruned) == known + {from} && Known(grafted) == known + {from};
    if from in known {
      assert known + {from} == known;
    } else {
      OneStranger(m.queue, known, from);
    }
  }
}
