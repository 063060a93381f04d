/** What a broadcast comes to: it ends within a stated number of deliveries, and over
    connected symmetric links the eager links left over are a spanning tree. */
module BroadcastOutcome {
  import opened Types
  import opened Cache
  import opened TreeSpec
  import opened Network
  import opened Gossip
  import opened Broadcast
  import opened BroadcastInvariants
  import opened Reach
  import opened Graphs

  // Whose copy of the id a node put on record first.
  ghost predicate FirstFrom(n: Net, x: Peer, id: Id, from: Peer) {
    && x in n.nodes && Find(n.nodes[x].received.byTime, id).Some?
    && Find(n.nodes[x].received.byTime, id).value.item.sender == from
  }

  // -- Reading the invariant when nothing is left to deliver ----------------------------

  lemma NothingUnderWay(n: Net, b: Cast, x: Peer, y: Peer)
    requires Quiescent(n)
    ensures y in n.nodes ==> Copies(n, b.id, x, y) == 0 && !PruneEnRoute(n, x, y)
  {
    TotalZero(n.flight, IsCopy(b.id, x, y));
  }

  // Links still eager are those a first copy came over.
  lemma EagerExactly(cfg: Settings, n: Net, b: Cast, x: Peer, y: Peer)
    requires Invariant(cfg, n, b) && Quiescent(n) && cfg.optimizeSenderTree
    requires Edge(b.links, x, y) && Got(n, b, x) && Got(n, b, y)
    ensures y in n.nodes[x].eager <==> Parent(n, b, x) == y || Parent(n, b, y) == x
    ensures y in n.nodes[x].eager <==> x in n.nodes[y].eager
  {
    hide Find, Rank, Copies, Quiescent;
    NothingUnderWay(n, b, x, y);
    NothingUnderWay(n, b, y, x);
    assert Link(cfg, n, b, x, y) && Link(cfg, n, b, y, x);
  }

  // -- The main theorem --------------------------------------------------------------------

  ghost function Parents(n: Net, b: Cast): map<Peer, Peer> {
    map x | x in n.nodes :: Parent(n, b, x)
  }

  ghost function Ranks(n: Net, b: Cast): map<Peer, nat> {
    map x | x in n.nodes :: Rank(n.log, x, b.id)
  }

  lemma ParentsLeadUp(cfg: Settings, n: Net, b: Cast)
    requires Invariant(cfg, n, b) && forall x :: x in n.nodes ==> Got(n, b, x)
    ensures Undirected(b.links) && n.nodes.Keys == b.links.Keys
    ensures b.origin in n.nodes && Parents(n, b)[b.origin] == b.origin
    ensures forall x :: x in n.nodes && x != b.origin ==>
      Edge(b.links, x, Parents(n, b)[x]) && Parents(n, b)[x] in n.nodes
      && Ranks(n, b)[Parents(n, b)[x]] < Ranks(n, b)[x]
    ensures forall x, y :: Edge(EagerGraph(n), x, y) ==> Edge(b.links, x, y)
  {
    hide Find, Rank, Link, Got, Links, Parent;
  }

  lemma EagerLinksAreTree(cfg: Settings, n: Net, b: Cast)
    requires Invariant(cfg, n, b) && Quiescent(n) && cfg.optimizeSenderTree
    requires forall x :: x in n.nodes ==> Got(n, b, x)
    ensures Graphs.SpanningTree(EagerGraph(n), b.origin)
    ensures forall x, y :: Edge(b.links, x, y) ==>
      (Edge(EagerGraph(n), x, y) <==> Parent(n, b, x) == y || Parent(n, b, y) == x)
  {
    hide Invariant, Rank, Got, Parent;
    ParentsLeadUp(cfg, n, b);
    var g := EagerGraph(n);
    forall x, y | Edge(b.links, x, y) ensures Edge(g, x, y) <==> Parent(n, b, x) == y || Parent(n, b, y) == x {
      EagerExactly(cfg, n, b, x, y);
    }
    hide Graphs.SpanningTree;
    ParentLinksAreSpanningTree(b.links, g, b.origin, Parents(n, b), Ranks(n, b));
  }

  // From connected, symmetric eager links, in whatever order packets arrive and whatever
  // is announced in between: once nothing is left to deliver everyone has the message, a
  // link is still eager exactly when one end had the message from the other first, every
  // other link has turned lazy, and the eager links are a spanning tree.
  lemma SpanningTreeTheorem(cfg: Settings, n: Net, steps: seq<Step>, origin: Peer, id: Id, payload: Bytes)
    requires Ready(n, origin, id) && Connected(EagerGraph(n), origin) && cfg.optimizeSenderTree
    requires Legal(cfg, n, steps) && OneBroadcast(cfg, n, steps, origin, id, payload)
    requires Quiescent(Run(cfg, n, steps))
    ensures Run(cfg, n, steps).nodes.Keys == n.nodes.Keys
    ensures forall x :: x in n.nodes ==> Holds(Run(cfg, n, steps), x, id)
    ensures forall x, y :: Edge(EagerGraph(n), x, y) ==>
      (Edge(EagerGraph(Run(cfg, n, steps)), x, y) <==>
       FirstFrom(Run(cfg, n, steps), x, id, y) || FirstFrom(Run(cfg, n, steps), y, id, x))
    ensures forall x :: x in n.nodes ==>
      && Run(cfg, n, steps).nodes[x].eager <= n.nodes[x].eager
      && Run(cfg, n, steps).nodes[x].lazy == n.nodes[x].lazy + (n.nodes[x].eager - Run(cfg, n, steps).nodes[x].eager)
    ensures Graphs.SpanningTree(EagerGraph(Run(cfg, n, steps)), origin)
  {
    var m, b := Run(cfg, n, steps), CastOf(n, origin, id);
    BroadcastInvariant(cfg, n, steps, origin, id, payload);
    EveryoneGets(cfg, n, steps, origin, id, payload);
    LinksAccounted(cfg, n, m, origin, id);
    hide Legal, Run, OneBroadcast, Invariant, AllSound, Connected, Quiescent, Ready, CastOf, EagerGraph, Got;
    hide Graphs.SpanningTree;
    EagerLinksAreTree(cfg, m, b);
    forall x, y | Edge(EagerGraph(n), x, y)
      ensures Edge(EagerGraph(m), x, y) <==> FirstFrom(m, x, id, y) || FirstFrom(m, y, id, x)
    {
      FirstIsParent(cfg, m, b, x, y);
    }
  }

  lemma FirstIsParent(cfg: Settings, n: Net, b: Cast, x: Peer, y: Peer)
    requires Edge(b.links, x, y) && Invariant(cfg, n, b) && Got(n, b, x) && Got(n, b, y)
    ensures FirstFrom(n, x, b.id, y) <==> Parent(n, b, x) == y
    ensures FirstFrom(n, y, b.id, x) <==> Parent(n, b, y) == x
  {
    hide Find, Invariant;
  }

  // Eager links are given up to laziness only.
  lemma LinksAccounted(cfg: Settings, n: Net, m: Net, origin: Peer, id: Id)
    requires Invariant(cfg, m, CastOf(n, origin, id))
    ensures m.nodes.Keys == n.nodes.Keys && EagerGraph(n) == CastOf(n, origin, id).links
    ensures forall x :: x in n.nodes ==>
      && m.nodes[x].eager <= n.nodes[x].eager
      && m.nodes[x].lazy == n.nodes[x].lazy + (n.nodes[x].eager - m.nodes[x].eager)
  {
    hide Links, Rooted;
  }

  lemma EveryoneGets(cfg: Settings, n: Net, steps: seq<Step>, origin: Peer, id: Id, payload: Bytes)
    requires Ready(n, origin, id) && Connected(EagerGraph(n), origin)
    requires Legal(cfg, n, steps) && OneBroadcast(cfg, n, steps, origin, id, payload)
    requires Quiescent(Run(cfg, n, steps))
    ensures forall x :: x in n.nodes ==> Holds(Run(cfg, n, steps), x, id)
    ensures forall x :: x in n.nodes ==> Got(Run(cfg, n, steps), CastOf(n, origin, id), x)
  {
    ReadyIsIdle(n, origin, id);
    OneIsSingle(cfg, n, steps, origin, id, payload);
    hide Ready, Idle, Legal, Run, OneBroadcast, SingleBroadcast, Quiescent, Reaches;
    hide Got, Holds, Invariant, AllSound, Alone;
    BroadcastInvariant(cfg, n, steps, origin, id, payload);
    forall x | x in n.nodes
      ensures Holds(Run(cfg, n, steps), x, id) && Got(Run(cfg, n, steps), CastOf(n, origin, id), x)
    {
      ReachedNodesHold(cfg, n, steps, origin, id, payload, x);
      HeldIsGot(Run(cfg, n, steps), CastOf(n, origin, id), x);
    }
  }

  lemma ReadyIsIdle(n: Net, origin: Peer, id: Id)
    requires Ready(n, origin, id)
    ensures Idle(n, origin, id)
  {
    hide Sound;
  }

  lemma HeldIsGot(n: Net, b: Cast, x: Peer)
    requires AllSound(n) && x in n.nodes
    ensures Holds(n, x, b.id) <==> Got(n, b, x)
  {
    OnRecord(n.nodes[x].received, b.id);
  }

  // -- How long it takes ------------------------------------------------------------------

  lemma {:induction false} OneIsLively(
    cfg: Settings, n: Net, steps: seq<Step>, origin: Peer, id: Id, payload: Bytes)
    requires Legal(cfg, n, steps) && OneBroadcast(cfg, n, steps, origin, id, payload)
    ensures AllLively(cfg, n, steps, {id})
  {
    hide Run, Calm, Enabled;
    var init := steps[..|steps| - 1];
    if init != [] {
      OneIsLively(cfg, n, init, origin, id, payload);
    }
  }

  lemma IdleWork(n: Net, origin: Peer, id: Id, degree: nat)
    requires Idle(n, origin, id)
    ensures AllSound(n) && OnlyBroadcasts(n, {id}) && Work(n, {id}, degree) == 2 * degree * |n.nodes|
  {
    hide Sound, Total;
    TotalZero(n.flight, Load());
    assert Missing(n, {id}) == Pairs(n.nodes.Keys, id);
    PairUp(n.nodes.Keys, id);
  }

  // A broadcast among N nodes of degree at most D is over after 2*D*N deliveries,
  // over any eager links.
  lemma BroadcastBound(
    cfg: Settings, n: Net, steps: seq<Step>, origin: Peer, id: Id, payload: Bytes, degree: nat)
    requires Idle(n, origin, id) && FanOut(n, degree)
    requires Legal(cfg, n, steps) && OneBroadcast(cfg, n, steps, origin, id, payload)
    ensures Deliveries(cfg, n, steps) <= 2 * degree * |n.nodes|
    ensures OnlyBroadcasts(Run(cfg, n, steps), {id})
  {
    hide *;
    OneIsLively(cfg, n, steps, origin, id, payload);
    IdleWork(n, origin, id, degree);
    BroadcastTerminates(cfg, n, steps, {id}, degree);
  }

  ghost function Pairs(s: set<Peer>, id: Id): set<(Peer, Id)> {
    set x | x in s :: (x, id)
  }

  lemma {:induction false} PairUp(s: set<Peer>, id: Id)
    ensures |Pairs(s, id)| == |s|
  {
    if s == {} {
      assert Pairs(s, id) == {};
    } else {
      var y :| y in s;
      PairUp(s - {y}, id);
      assert Pairs(s, id) == Pairs(s - {y}, id) + {(y, id)};
    }
  }

  // And it can always be brought to its end.
  lemma BroadcastCompletes(cfg: Settings, n: Net, steps: seq<Step>, origin: Peer, id: Id, payload: Bytes)
    returns (all: seq<Step>)
    requires Idle(n, origin, id) && Legal(cfg, n, steps) && OneBroadcast(cfg, n, steps, origin, id, payload)
    ensures steps <= all && Legal(cfg, n, all) && OneBroadcast(cfg, n, all, origin, id, payload)
    ensures Quiescent(Run(cfg, n, all))
  {
    hide Sound, Apply, Idle, Enabled, Work, OnlyBroadcasts, Quiescent;
    all := steps;
    var degree := LargestDegree(n);
    BroadcastBound(cfg, n, all, origin, id, payload, degree);
    while !Quiescent(Run(cfg, n, all))
      invariant steps <= all && Legal(cfg, n, all) && OneBroadcast(cfg, n, all, origin, id, payload)
      decreases 2 * degree * |n.nodes| - Deliveries(cfg, n, all)
    {
      BroadcastBound(cfg, n, all, origin, id, payload, degree);
      var s := NextDelivery(cfg, Run(cfg, n, all), {id});
      var more := all + [s];
      assert more[..|more| - 1] == all;
      BroadcastBound(cfg, n, more, origin, id, payload, degree);
      all := more;
    }
  }

  lemma NextDelivery(cfg: Settings, n: Net, ids: set<Id>) returns (s: Step)
    requires OnlyBroadcasts(n, ids) && !Quiescent(n)
    ensures Enabled(cfg, n, s) && Delivers(n, s) && Calm(cfg, n, s)
  {
    var p :| p in n.flight && p.dst in n.nodes && !p.rpc.IHave?;
    var i :| 0 <= i < |n.flight| && n.flight[i] == p;
    s := ArrivalPossible(cfg, n, i);
  }
}
