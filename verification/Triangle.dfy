/** The smallest network with a redundant link. One broadcast over it gives up a link
    and leaves a spanning tree; two at once can give up two links and cut a node off. */
module Triangle {
  import opened Types
  import opened Cache
  import opened TreeSpec
  import opened Network
  import opened Gossip
  import opened GossipRuns
  import opened Broadcast
  import opened Reach
  import opened BroadcastInvariants
  import opened BroadcastOutcome
  import opened Graphs
  import opened StableTree
  import opened Cuts
  import opened CrossTraffic
  import opened Cycles

  function Corner(local: Peer, eager: set<Peer>): Tree {
    Tree(local, eager, {}, 0, Store(map[], []), Store(map[], []))
  }

  function Corners(): Net {
    Net(map[0 := Corner(0, {1, 2}), 1 := Corner(1, {0, 2}), 2 := Corner(2, {0, 1})], [], 0, [])
  }

  lemma CornersAreReady(id: Id)
    ensures Ready(Corners(), 0, id) && Idle(Corners(), 0, id)
  {
    CornersAreFresh();
    FreshIsSound(Corners());
    LinksAreUndirected();
    LinksAreSymmetric(Corners(), 0, id);
    hide AllSound, Symmetric, CastOf, EagerGraph, Undirected;
  }

  lemma CornersAreFresh()
    ensures Fresh(Corners())
  {}

  lemma LinksAreUndirected()
    ensures Undirected(EagerGraph(Corners()))
  {
    var g: Graph := map[0 := {1, 2}, 1 := {0, 2}, 2 := {0, 1}];
    assert EagerGraph(Corners()) == g;
    assert Undirected(g);
  }

  lemma CornersAreConnected()
    ensures Connected(EagerGraph(Corners()), 0) && Cycle(EagerGraph(Corners()), [0, 1, 2])
  {
    var g := EagerGraph(Corners());
    assert Edge(g, 0, 1) && Edge(g, 1, 2) && Edge(g, 2, 0) && Edge(g, 0, 2);
    assert Path(g, [0]) && Path(g, [0, 1]) && Path(g, [0, 2]) && Path(g, [0, 1, 2]);
    assert [0][0] == 0 && [0, 1][0] == 0 && [0, 1][1] == 1 && [0, 2][0] == 0 && [0, 2][1] == 2;
  }

  // -- One broadcast -----------------------------------------------------------------------

  lemma FirstStep(cfg: Settings, id: Id, payload: Bytes) returns (steps: seq<Step>)
    ensures Legal(cfg, Corners(), steps) && OneBroadcast(cfg, Corners(), steps, 0, id, payload)
  {
    var s := Step(Local(0, Publish(id, payload)), 0, Walk([1, 2]));
    steps := [s];
    assert Enabled(cfg, Corners(), s);
    assert steps[..0] == [];
  }

  lemma TriangleLosesALink(cfg: Settings, id: Id, payload: Bytes) returns (steps: seq<Step>)
    requires cfg.optimizeSenderTree
    ensures Ready(Corners(), 0, id) && Connected(EagerGraph(Corners()), 0)
    ensures Legal(cfg, Corners(), steps) && OneBroadcast(cfg, Corners(), steps, 0, id, payload)
    ensures Quiescent(Run(cfg, Corners(), steps))
    ensures EagerGraph(Run(cfg, Corners(), steps)) != EagerGraph(Corners())
  {
    CornersAreReady(id);
    CornersAreConnected();
    hide Ready, Idle, Connected, Cycle, Corners, Legal, Run, OneBroadcast, EagerGraph, Quiescent;
    var start := FirstStep(cfg, id, payload);
    steps := BroadcastCompletes(cfg, Corners(), start, 0, id, payload);
    SpanningTreeTheorem(cfg, Corners(), steps, 0, id, payload);
  }

  // -- Two broadcasts ------------------------------------------------------------------------

  // Two broadcasts at once, every delivery made: all have both messages, and some node
  // has no eager link left.
  lemma TwoBroadcastsCutANodeOff(cfg: Settings, a: Id, b: Id) returns (steps: seq<Step>, x: Peer)
    requires cfg.optimizeSenderTree && a != b
    ensures Settled(Corners()) && Connected(EagerGraph(Corners()), 0)
    ensures Legal(cfg, Corners(), steps) && Broadcasts(cfg, Corners(), steps)
    ensures var m := Run(cfg, Corners(), steps);
      && Quiescent(m) && m.nodes.Keys == {0, 1, 2} && x in m.nodes && m.nodes[x].eager == {}
      && (forall y :: y in m.nodes ==> Holds(m, y, a) && Holds(m, y, b) && x !in m.nodes[y].eager)
      && !Connected(EagerGraph(m), 0)
  {
    CornersAreConnected();
    CornersAreSettled();
    hide Settled, Connected, Cycle, Legal, Broadcasts, Run, EagerGraph, Quiescent, Split;
    var side;
    steps, side := CycleAllowsCut(cfg, Corners(), 0, a, b);
    var m := Run(cfg, Corners(), steps);
    SplitDisconnects(EagerGraph(m), side, 0);
    x := Lonely(m, side);
    forall y | y in m.nodes ensures Holds(m, y, a) && Holds(m, y, b) {
      assert a in {a, b} && b in {a, b};
    }
  }

  // Of three nodes split in two parts, one is on its own.
  lemma Lonely(n: Net, side: set<Peer>) returns (x: Peer)
    requires n.nodes.Keys == {0, 1, 2} && Split(EagerGraph(n), side)
    requires forall y :: y in n.nodes ==> n.nodes[y].eager <= Corners().nodes[y].eager
    ensures x in n.nodes && n.nodes[x].eager == {} && forall y :: y in n.nodes ==> x !in n.nodes[y].eager
  {
    var g := EagerGraph(n);
    assert forall u, v :: u in n.nodes && v in n.nodes[u].eager ==> Edge(g, u, v);
    assert side <= {0, 1, 2};
    x := if (0 in side) == (1 in side) then 2 else if (0 in side) == (2 in side) then 1 else 0;
    Apart(side, x);
    assert forall y :: y in n.nodes[x].eager ==> y in {0, 1, 2} && y != x && Edge(g, x, y);
    assert forall y :: y in n.nodes && x in n.nodes[y].eager ==> Edge(g, y, x) && y != x;
  }

  lemma Apart(side: set<Peer>, x: Peer)
    requires side != {} && side < {0, 1, 2}
    requires x == if (0 in side) == (1 in side) then 2 else if (0 in side) == (2 in side) then 1 else 0
    ensures forall y :: y in {0, 1, 2} && y != x ==> (y in side <==> x !in side)
  {
    var z :| z in side;
    assert side != {0, 1, 2};
    assert 0 in side && 1 in side && 2 in side ==> side == {0, 1, 2};
  }

  lemma CornersAreSettled()
    ensures Settled(Corners())
  {
    CornersAreFresh();
    FreshIsSound(Corners());
    LinksAreUndirected();
    hide AllSound, Undirected, EagerGraph;
  }
}
