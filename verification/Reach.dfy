/** Whom a broadcast reaches, over any eager links, symmetric or not: when nothing is
    left to deliver, every node the origin's eager links lead to has the message. */
module Reach {
  import opened Types
  import opened Cache
  import opened TreeSpec
  import opened Network
  import opened Gossip
  import opened GossipRuns
  import opened Broadcast
  import opened Graphs

  ghost function EagerGraph(n: Net): Graph {
    map x | x in n.nodes :: n.nodes[x].eager
  }

  // Nothing in flight but announcements, and an id new to the network that the
  // origin may publish.
  ghost predicate Idle(n: Net, origin: Peer, id: Id) {
    && AllSound(n) && (forall p :: p in n.flight ==> p.rpc.IHave?)
    && origin in n.nodes && id !in n.nodes[origin].observed.data
    && (forall x :: x in n.nodes ==> id !in n.nodes[x].received.data)
  }

  // A delivery, or a tick that expires nothing and asks for no other message.
  ghost predicate Focused(cfg: Settings, n: Net, s: Step, id: Id) {
    || s.move.Arrive?
    || (s.move.Local? && s.move.input.Tick? && KeepsHistory(cfg, n, s)
        && (s.move.node in n.nodes ==> AsksOnly(cfg, n.nodes[s.move.node], s.choice, id)))
  }

  ghost predicate AsksOnly(cfg: Settings, t: Tree, c: Choice, id: Id) {
    forall p, k :: p in Grafts(cfg, t.received, c.infos) && k in Grafts(cfg, t.received, c.infos)[p] ==> k == id
  }

  // The origin publishes the only message there is; prunes, grafts and announcements
  // come as they may.
  ghost predicate SingleBroadcast(cfg: Settings, n: Net, steps: seq<Step>, origin: Peer, id: Id, payload: Bytes)
    requires Legal(cfg, n, steps)
  {
    steps != [] &&
    var init, last := steps[..|steps| - 1], steps[|steps| - 1];
    if init == [] then last.move == Local(origin, Publish(id, payload))
    else SingleBroadcast(cfg, n, init, origin, id, payload) && Focused(cfg, Run(cfg, n, init), last, id)
  }

  lemma {:induction false} OneIsSingle(cfg: Settings, n: Net, steps: seq<Step>, origin: Peer, id: Id, payload: Bytes)
    requires Legal(cfg, n, steps) && OneBroadcast(cfg, n, steps, origin, id, payload)
    ensures SingleBroadcast(cfg, n, steps, origin, id, payload)
  {
    hide Apply, Enabled;
    if |steps| > 1 {
      OneIsSingle(cfg, n, steps[..|steps| - 1], origin, id, payload);
    }
  }

  // -- The invariant -------------------------------------------------------------------

  // Copies come from holders; prunes go from holders to holders.
  ghost predicate Carries(n: Net, p: Packet, id: Id) {
    || p.rpc.IHave?
    || (p.rpc.Message? && p.rpc.id == id && Holds(n, p.src, id))
    || (p.rpc.Prune? && Holds(n, p.src, id) && Holds(n, p.dst, id))
    || (p.rpc.Graft? && forall k :: k in p.rpc.ids ==> k == id)
  }

  // Non-holders still have their eager links, and holders have served theirs.
  ghost predicate Spreading(n: Net, links: Graph, id: Id) {
    && n.nodes.Keys == links.Keys
    && (forall p :: p in n.flight ==> Carries(n, p, id))
    && (forall x :: x in n.nodes && !Holds(n, x, id) ==> links[x] <= n.nodes[x].eager)
    && (forall x, q :: Holds(n, x, id) && q in links[x] && q in n.nodes ==> Holds(n, q, id) || EnRoute(n, x, q, id))
  }

  // What a node may hear during a single broadcast.
  ghost predicate Expects(cfg: Settings, t: Tree, i: Input, now: Instant, c: Choice, id: Id) {
    match i
    case Receive(_, IHave(_)) => true
    case Receive(_, Message(k, _, _)) => k == id
    case Receive(_, Prune) => id in t.received.data
    case Receive(_, Graft(ids)) => forall k :: k in ids ==> k == id
    case Tick => Expired(t.received, now - cfg.historyWindow) == t.received && AsksOnly(cfg, t, c, id)
    case _ => false
  }

  // What it may send in return.
  ghost predicate Answers(t: Tree, i: Input, to: Peer, rpc: Rpc, id: Id) {
    || rpc.IHave?
    || (rpc.Message? && rpc.id == id && id in t.received.data)
    || (rpc.Prune? && id in t.received.data && i.Receive? && i.rpc.Message? && i.from == to)
    || (rpc.Graft? && forall k :: k in rpc.ids ==> k == id)
  }

  lemma TurnAnswers(cfg: Settings, t: Tree, i: Input, now: Instant, c: Choice, id: Id, to: Peer, rpc: Rpc)
    requires Permits(cfg, t, i, now, c) && Coherent(t.received) && Expects(cfg, t, i, now, c, id)
    requires Notify(to, rpc) in Next(cfg, t, i, now, c).events
    ensures Answers(Next(cfg, t, i, now, c).tree, i, to, rpc, id)
  {
    hide Coherent, IsSearch, LazyWindow, Expected, Grafts, RepairSlice;
    var a := Notify(to, rpc);
    match i
    case Receive(from, r) =>
      match r {
        case Message(k, hop, payload) => FanMembers(c.peers, Message(k, NextHop(hop), payload), a);
        case Graft(ids) => RepliesMembers(t.received, from, ids, a);
        case _ =>
      }
    case Tick =>
      FanMembers(c.peers, IHave(Announcements(LazyWindow(cfg, t, now, c.lazySearch))), a);
    case _ =>
  }

  lemma TurnKeepsLinks(cfg: Settings, t: Tree, i: Input, now: Instant, c: Choice, id: Id)
    requires Permits(cfg, t, i, now, c) && Expects(cfg, t, i, now, c, id)
    ensures var e := Next(cfg, t, i, now, c);
      && t.received.data.Keys <= e.tree.received.data.Keys
      && (id !in e.tree.received.data ==> t.eager <= e.tree.eager)
      && (id in e.tree.received.data && id !in t.received.data ==>
            i.Receive? && i.rpc.Message? && forall q :: q in t.eager - {i.from} ==>
              Notify(q, Message(id, NextHop(i.rpc.hop), i.rpc.payload)) in e.events)
  {
    HoldersGrow(cfg, t, i, now, c);
    if i.Receive? && i.rpc.IHave? {
      IHavesFrame(t, i.from, i.rpc.ihaves, now);
    }
    if i.Receive? && i.rpc.Message? && id !in t.received.data {
      var rpc := Message(id, NextHop(i.rpc.hop), i.rpc.payload);
      forall q | q in t.eager - {i.from} ensures Notify(q, rpc) in Next(cfg, t, i, now, c).events {
        FanMembers(c.peers, rpc, Notify(q, rpc));
      }
    }
  }

  lemma StepIsExpected(cfg: Settings, n: Net, s: Step, links: Graph, id: Id)
    requires Enabled(cfg, n, s) && Focused(cfg, n, s, id) && Spreading(n, links, id)
    ensures !s.move.Lose? && Expects(cfg, n.nodes[Actor(n, s.move)], InputOf(n, s.move), s.at, s.choice, id)
    ensures s.move.Arrive? && n.flight[s.move.index].rpc.Message? ==> Holds(n, n.flight[s.move.index].src, id)
  {
    if s.move.Arrive? {
      assert n.flight[s.move.index] in n.flight;
    }
  }

  lemma StepKeepsSpreading(cfg: Settings, n: Net, s: Step, links: Graph, id: Id)
    requires AllSound(n) && Enabled(cfg, n, s) && Focused(cfg, n, s, id) && Spreading(n, links, id)
    ensures Spreading(Apply(cfg, n, s), links, id)
  {
    hide Sound, Next, Focused, Expects, Permits, Carries;
    StepIsExpected(cfg, n, s, links, id);
    var n', node, input := Apply(cfg, n, s), Actor(n, s.move), InputOf(n, s.move);
    var t, e := n.nodes[node], Next(cfg, n.nodes[node], input, s.at, s.choice);
    TurnKeepsLinks(cfg, t, input, s.at, s.choice, id);
    HoldersStay(n, n', node, id);
    forall p | p in n'.flight ensures Carries(n', p, id) {
      FlightCarries(cfg, n, s, links, id, p);
    }
    forall x, q | Holds(n', x, id) && q in links[x] && q in n'.nodes
      ensures Holds(n', q, id) || EnRoute(n', x, q, id)
    {
      if Holds(n, x, id) {
        OldLinkServed(cfg, n, s, x, q, links, id);
      } else if !Holds(n', q, id) {
        assert q in t.eager - {input.from};
        var p := Packet(node, q, Message(id, NextHop(input.rpc.hop), input.rpc.payload));
        SendsMembers(node, e.events, p);
        assert p in n'.flight;
      }
    }
  }

  lemma FlightCarries(cfg: Settings, n: Net, s: Step, links: Graph, id: Id, p: Packet)
    requires AllSound(n) && Enabled(cfg, n, s) && Focused(cfg, n, s, id) && Spreading(n, links, id)
    requires p in Apply(cfg, n, s).flight
    ensures Carries(Apply(cfg, n, s), p, id)
  {
    hide Coherent, NotAfter, Next, Focused, Expects, Permits;
    StepIsExpected(cfg, n, s, links, id);
    var n', node, input := Apply(cfg, n, s), Actor(n, s.move), InputOf(n, s.move);
    var t, e := n.nodes[node], Next(cfg, n.nodes[node], input, s.at, s.choice);
    TurnKeepsLinks(cfg, t, input, s.at, s.choice, id);
    HoldersStay(n, n', node, id);
    if p in Rest(n, s.move) {
      if s.move.Arrive? {
        WithoutMembers(n.flight, s.move.index, p);
      }
    } else {
      SendsMembers(node, e.events, p);
      TurnAnswers(cfg, t, input, s.at, s.choice, id, p.dst, p.rpc);
      if s.move.Arrive? {
        assert n.flight[s.move.index] in n.flight;
      }
    }
  }

  lemma HoldersStay(n: Net, n': Net, node: Peer, id: Id)
    requires node in n.nodes && node in n'.nodes && n'.nodes == n.nodes[node := n'.nodes[node]]
    requires n.nodes[node].received.data.Keys <= n'.nodes[node].received.data.Keys
    ensures forall x :: Holds(n, x, id) ==> Holds(n', x, id)
    ensures forall x :: x != node ==> (Holds(n, x, id) <==> Holds(n', x, id))
  {}

  lemma OldLinkServed(cfg: Settings, n: Net, s: Step, x: Peer, q: Peer, links: Graph, id: Id)
    requires Enabled(cfg, n, s) && !s.move.Lose? && Spreading(n, links, id)
    requires forall y :: Holds(n, y, id) ==> Holds(Apply(cfg, n, s), y, id)
    requires Holds(n, x, id) && q in links[x] && q in n.nodes
    ensures Holds(Apply(cfg, n, s), q, id) || EnRoute(Apply(cfg, n, s), x, q, id)
  {
    hide Coherent, NotAfter, Next, Permits;
    var n' := Apply(cfg, n, s);
    if !Holds(n, q, id) {
      var p :| p in n.flight && p.src == x && p.dst == q && p.rpc.Message? && p.rpc.id == id;
      if s.move.Arrive? {
        WithoutMembers(n.flight, s.move.index, p);
        if p == n.flight[s.move.index] {
          MessageIsHeld(cfg, n.nodes[q], InputOf(n, s.move), s.at, s.choice);
        }
      }
      assert p in Rest(n, s.move) ==> p in n'.flight;
    }
  }

  lemma PublicationSpreads(cfg: Settings, n: Net, s: Step, origin: Peer, id: Id, payload: Bytes)
    requires Idle(n, origin, id) && Enabled(cfg, n, s) && s.move == Local(origin, Publish(id, payload))
    ensures Spreading(Apply(cfg, n, s), EagerGraph(n), id)
  {
    hide Coherent, NotAfter;
    var n', rpc := Apply(cfg, n, s), Message(id, 1, payload);
    var sent := Sends(origin, Fan(s.choice.peers, rpc));
    assert n'.flight == n.flight + sent;
    assert forall x :: Holds(n', x, id) <==> x == origin;
    hide Next;
    forall p | p in n'.flight ensures Carries(n', p, id) {
      SendsMembers(origin, Fan(s.choice.peers, rpc), p);
      FanMembers(s.choice.peers, rpc, Notify(p.dst, p.rpc));
    }
    forall q | q in n.nodes[origin].eager ensures EnRoute(n', origin, q, id) {
      FanMembers(s.choice.peers, rpc, Notify(q, rpc));
      SendsMembers(origin, Fan(s.choice.peers, rpc), Packet(origin, q, rpc));
      assert Packet(origin, q, rpc) in n'.flight;
    }
  }

  lemma {:induction false} BroadcastSpreads(
    cfg: Settings, n: Net, steps: seq<Step>, origin: Peer, id: Id, payload: Bytes)
    requires Idle(n, origin, id) && Legal(cfg, n, steps) && SingleBroadcast(cfg, n, steps, origin, id, payload)
    ensures AllSound(Run(cfg, n, steps)) && Spreading(Run(cfg, n, steps), EagerGraph(n), id)
    ensures Holds(Run(cfg, n, steps), origin, id)
    decreases |steps|
  {
    hide Sound, Spreading, Apply, Enabled, Focused, EagerGraph;
    var init, last := steps[..|steps| - 1], steps[|steps| - 1];
    if init == [] {
      PublicationSpreads(cfg, n, last, origin, id, payload);
      PublisherHolds(cfg, n, last, origin, id, payload);
      StepKeepsSound(cfg, n, last);
    } else {
      BroadcastSpreads(cfg, n, init, origin, id, payload);
      StepKeepsSpreading(cfg, Run(cfg, n, init), last, EagerGraph(n), id);
      StepKeepsHolder(cfg, Run(cfg, n, init), last, EagerGraph(n), origin, id);
      StepKeepsSound(cfg, Run(cfg, n, init), last);
    }
  }

  lemma PublisherHolds(cfg: Settings, n: Net, s: Step, origin: Peer, id: Id, payload: Bytes)
    requires Idle(n, origin, id) && Enabled(cfg, n, s) && s.move == Local(origin, Publish(id, payload))
    ensures Holders(Apply(cfg, n, s), id) == {origin} && Holds(Apply(cfg, n, s), origin, id)
  {
    hide Coherent, NotAfter;
  }

  lemma StepKeepsHolder(cfg: Settings, n: Net, s: Step, links: Graph, x: Peer, id: Id)
    requires Enabled(cfg, n, s) && Focused(cfg, n, s, id) && Spreading(n, links, id) && Holds(n, x, id)
    ensures Holds(Apply(cfg, n, s), x, id)
  {
    StepIsExpected(cfg, n, s, links, id);
    var node, input := Actor(n, s.move), InputOf(n, s.move);
    TurnKeepsLinks(cfg, n.nodes[node], input, s.at, s.choice, id);
    hide Next;
  }

  // -- The theorem ----------------------------------------------------------------------

  lemma {:induction false} PathGets(n: Net, links: Graph, id: Id, p: seq<Peer>)
    requires Spreading(n, links, id) && Quiescent(n)
    requires Path(links, p) && Holds(n, p[0], id) && p[|p| - 1] in n.nodes
    ensures Holds(n, p[|p| - 1], id)
  {
    var k := |p| - 1;
    if k > 0 {
      assert Edge(links, p[k - 1], p[k]);
      PathGets(n, links, id, p[..k]);
      assert p[..k][k - 1] == p[k - 1];
    }
  }

  // With prunes and grafts allowed, over whatever eager links there were.
  lemma ReachedNodesHold(cfg: Settings, n: Net, steps: seq<Step>, origin: Peer, id: Id, payload: Bytes, x: Peer)
    requires Idle(n, origin, id) && Legal(cfg, n, steps) && SingleBroadcast(cfg, n, steps, origin, id, payload)
    requires Quiescent(Run(cfg, n, steps)) && x in n.nodes && Reaches(EagerGraph(n), origin, x)
    ensures Holds(Run(cfg, n, steps), x, id)
  {
    hide *;
    BroadcastSpreads(cfg, n, steps, origin, id, payload);
    SameNodes(n, Run(cfg, n, steps), id);
    AllReachedGet(Run(cfg, n, steps), EagerGraph(n), id, origin, x);
  }

  lemma SameNodes(n: Net, n': Net, id: Id)
    requires Spreading(n', EagerGraph(n), id)
    ensures n'.nodes.Keys == n.nodes.Keys
  {}

  lemma AllReachedGet(n: Net, links: Graph, id: Id, origin: Peer, x: Peer)
    requires Spreading(n, links, id) && Quiescent(n) && Holds(n, origin, id) && x in n.nodes
    requires Reaches(links, origin, x)
    ensures Holds(n, x, id)
  {
    hide Spreading, Quiescent;
    var p :| Path(links, p) && p[0] == origin && p[|p| - 1] == x;
    PathGets(n, links, id, p);
  }
}
