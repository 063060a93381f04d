/** With duplicates pruned, trees and only trees keep a network connected under
    concurrent broadcasts: round any cycle of eager links two broadcasts can cross so
    that a link, and every way round it, is given up at both ends. */
module CrossTraffic {
  import opened Types
  import opened Cache
  import opened TreeSpec
  import opened Network
  import opened Gossip
  import opened GossipRuns
  import opened Broadcast
  import opened Reach
  import opened BroadcastInvariants
  import opened BroadcastOutcome
  import opened Cycles
  import opened StableTree
  import opened Cuts
  import opened Graphs

  // -- Runs under construction -----------------------------------------------------------

  ghost predicate Makes(cfg: Settings, n0: Net, steps: seq<Step>, n: Net, origins: map<Id, Peer>) {
    && Legal(cfg, n0, steps) && Broadcasts(cfg, n0, steps)
    && Run(cfg, n0, steps) == n && Origins(steps) == origins
  }

  lemma MakesNothing(cfg: Settings, n: Net)
    ensures Makes(cfg, n, [], n, map[])
  {}

  lemma Onwards(cfg: Settings, n0: Net, steps: seq<Step>, n: Net, origins: map<Id, Peer>, s: Step)
    requires Makes(cfg, n0, steps, n, origins) && Enabled(cfg, n, s) && Steady(cfg, n, s)
    ensures Makes(cfg, n0, steps + [s], Apply(cfg, n, s), Noted(origins, s))
  {
    hide Enabled, Steady, Apply, Noted;
    var more := steps + [s];
    assert more[..|more| - 1] == steps && more[|more| - 1] == s;
  }

  // First records are never lost or replaced.
  ghost predicate Remembers(n: Net, n': Net) {
    && n'.nodes.Keys == n.nodes.Keys
    && forall x, id :: x in n.nodes && Find(n.nodes[x].received.byTime, id).Some? ==>
         Find(n'.nodes[x].received.byTime, id) == Find(n.nodes[x].received.byTime, id)
  }

  lemma RemembersOn(n: Net, n1: Net, n2: Net)
    requires Remembers(n, n1) && Remembers(n1, n2)
    ensures Remembers(n, n2)
  {
    hide Find;
  }

  lemma RemembersGot(n: Net, n': Net, b: Cast, x: Peer)
    requires Remembers(n, n') && Got(n, b, x)
    ensures Got(n', b, x) && Parent(n', b, x) == Parent(n, b, x)
  {
    hide Find;
  }

  // An id the network knows nothing of.
  ghost predicate Unseen(n: Net, id: Id) {
    && (forall x :: x in n.nodes ==> id !in n.nodes[x].received.data && id !in n.nodes[x].observed.data)
    && (forall r :: r in n.log ==> r.id != id)
  }

  // What a publication or a first receipt of `id` at x leaves as it was.
  ghost predicate Learns(n: Net, n': Net, x: Peer, id: Id) {
    && x in n.nodes && id !in n.nodes[x].received.data
    && Remembers(n, n')
    && (forall k :: k != id && Unseen(n, k) ==> Unseen(n', k))
    && Holders(n', id) == Holders(n, id) + {x}
  }

  lemma LearnsFacts(n: Net, n': Net, x: Peer, id: Id)
    requires AllSound(n) && x in n.nodes && x in n'.nodes && n'.nodes == n.nodes[x := n'.nodes[x]]
    requires id !in n.nodes[x].received.data
    requires n'.nodes[x].received.data.Keys == n.nodes[x].received.data.Keys + {id}
    requires n'.nodes[x].observed == n.nodes[x].observed
    requires forall k :: k != id ==>
      Find(n'.nodes[x].received.byTime, k) == Find(n.nodes[x].received.byTime, k)
    requires forall r :: r in n'.log ==> r in n.log || r.id == id
    ensures Learns(n, n', x, id)
  {
    SoundHasCoherent(n, x);
    OnRecord(n.nodes[x].received, id);
    hide AllSound, Coherent, Find, Remembers, Unseen;
    OneNodeRemembers(n, n', x, id);
    forall k | k != id && Unseen(n, k) ensures Unseen(n', k) {
      OneNodeUnseen(n, n', x, id, k);
    }
  }

  lemma OneNodeRemembers(n: Net, n': Net, x: Peer, id: Id)
    requires x in n.nodes && x in n'.nodes && n'.nodes == n.nodes[x := n'.nodes[x]]
    requires Find(n.nodes[x].received.byTime, id).None?
    requires forall k :: k != id ==>
      Find(n'.nodes[x].received.byTime, k) == Find(n.nodes[x].received.byTime, k)
    ensures Remembers(n, n')
  {
    hide Find;
  }

  lemma OneNodeUnseen(n: Net, n': Net, x: Peer, id: Id, k: Id)
    requires x in n.nodes && x in n'.nodes && n'.nodes == n.nodes[x := n'.nodes[x]]
    requires n'.nodes[x].received.data.Keys == n.nodes[x].received.data.Keys + {id}
    requires n'.nodes[x].observed == n.nodes[x].observed
    requires forall r :: r in n'.log ==> r in n.log || r.id == id
    requires k != id && Unseen(n, k)
    ensures Unseen(n', k)
  {}

  // -- Publishing ---------------------------------------------------------------------------

  lemma PublicationLearns(cfg: Settings, n: Net, s: Step, x: Peer, id: Id)
    requires AllSound(n) && Enabled(cfg, n, s) && s.move == Local(x, Publish(id, [])) && x in n.nodes
    requires Publishable(n.nodes[x], id)
    ensures Learns(n, Apply(cfg, n, s), x, id)
  {
    forall k ensures k != id ==>
        Find(Apply(cfg, n, s).nodes[x].received.byTime, k) == Find(n.nodes[x].received.byTime, k)
    {
      PublisherRecords(cfg, n, s, k);
    }
    PublicationLogs(cfg, n, s, x, id);
    hide AllSound, Enabled, Apply, Find, Learns;
    LearnsFacts(n, Apply(cfg, n, s), x, id);
  }

  lemma PublicationLogs(cfg: Settings, n: Net, s: Step, x: Peer, id: Id)
    requires Enabled(cfg, n, s) && s.move == Local(x, Publish(id, [])) && x in n.nodes
    ensures forall r :: r in Apply(cfg, n, s).log ==> r in n.log || r.id == id
    ensures Apply(cfg, n, s).nodes[x].observed == n.nodes[x].observed
  {
    hide Enumerates;
  }

  lemma MayPublish(cfg: Settings, n0: Net, n: Net, origins: map<Id, Peer>, x: Peer, id: Id) returns (s: Step)
    requires Together(cfg, n0, n, origins) && x in n.nodes && Unseen(n, id) && id !in origins
    ensures s.move == Local(x, Publish(id, [])) && Enabled(cfg, n, s) && Steady(cfg, n, s)
    ensures Fresher(n, x, id) && Publishable(n.nodes[x], id)
  {
    hide AllSound, SameLinks, NoPrunes, EachFollowed;
    var order := SomeOrder(n.nodes[x].eager);
    s := Step(Local(x, Publish(id, [])), n.clock, Walk(order));
  }

  lemma PublishNew(
    cfg: Settings, n0: Net, steps: seq<Step>, n: Net, origins: map<Id, Peer>, x: Peer, id: Id)
    returns (more: seq<Step>, n': Net)
    requires Settled(n0) && Makes(cfg, n0, steps, n, origins) && Together(cfg, n0, n, origins)
    requires x in n.nodes && Unseen(n, id) && id !in origins
    ensures Makes(cfg, n0, more, n', origins[id := x]) && Together(cfg, n0, n', origins[id := x])
    ensures Learns(n, n', x, id)
  {
    var s := MayPublish(cfg, n0, n, origins, x, id);
    assert AllSound(n);
    hide Settled, Makes, Together, Unseen, AllSound, Enabled, Steady, Apply, Fresher, Learns, Publishable;
    PublicationTogether(cfg, n0, n, s, origins, x, id, []);
    PublicationLearns(cfg, n, s, x, id);
    Onwards(cfg, n0, steps, n, origins, s);
    more, n' := steps + [s], Apply(cfg, n, s);
  }

  // -- Delivering first copies -----------------------------------------------------------------

  lemma MayDeliver(cfg: Settings, n: Net, i: nat) returns (s: Step)
    requires i < |n.flight| && n.flight[i].dst in n.nodes && (n.flight[i].rpc.Message? || n.flight[i].rpc.Prune?)
    ensures s.move == Arrive(i) && Enabled(cfg, n, s) && Steady(cfg, n, s) && Delivers(n, s)
  {
    s := ArrivalPossible(cfg, n, i);
  }

  lemma ReceiptLearns(cfg: Settings, n: Net, s: Step, p: Packet)
    requires AllSound(n) && Enabled(cfg, n, s) && s.move.Arrive? && n.flight[s.move.index] == p && p.rpc.Message?
    requires p.dst in n.nodes && p.rpc.id !in n.nodes[p.dst].received.data
    ensures Learns(n, Apply(cfg, n, s), p.dst, p.rpc.id)
    ensures FirstFrom(Apply(cfg, n, s), p.dst, p.rpc.id, p.src)
  {
    forall k ensures k != p.rpc.id ==>
        Find(Apply(cfg, n, s).nodes[p.dst].received.byTime, k) == Find(n.nodes[p.dst].received.byTime, k)
    {
      ReceiverRecords(cfg, n, s, k);
    }
    ReceiptLogs(cfg, n, s, p);
    hide AllSound, Enabled, Apply, Find, Learns;
    LearnsFacts(n, Apply(cfg, n, s), p.dst, p.rpc.id);
  }

  lemma ReceiptLogs(cfg: Settings, n: Net, s: Step, p: Packet)
    requires AllSound(n) && Enabled(cfg, n, s) && s.move.Arrive? && n.flight[s.move.index] == p && p.rpc.Message?
    requires p.dst in n.nodes && p.rpc.id !in n.nodes[p.dst].received.data
    ensures forall r :: r in Apply(cfg, n, s).log ==> r in n.log || r.id == p.rpc.id
    ensures Apply(cfg, n, s).nodes[p.dst].observed == n.nodes[p.dst].observed
    ensures FirstFrom(Apply(cfg, n, s), p.dst, p.rpc.id, p.src)
  {
    SoundHasCoherent(n, p.dst);
    hide Sound, Coherent, Enumerates, Find;
    FirstArrival(cfg, n.nodes[p.dst], p.src, p.rpc.id, p.rpc.hop, p.rpc.payload, s.at, s.choice);
  }

  lemma DeliverFirst(
    cfg: Settings, n0: Net, steps: seq<Step>, n: Net, origins: map<Id, Peer>, i: nat)
    returns (more: seq<Step>, n': Net)
    requires Makes(cfg, n0, steps, n, origins) && Together(cfg, n0, n, origins)
    requires i < |n.flight| && n.flight[i].rpc.Message? && n.flight[i].dst in n.nodes
    requires n.flight[i].rpc.id !in n.nodes[n.flight[i].dst].received.data
    ensures Makes(cfg, n0, more, n', origins) && Together(cfg, n0, n', origins)
    ensures Learns(n, n', n.flight[i].dst, n.flight[i].rpc.id)
    ensures FirstFrom(n', n.flight[i].dst, n.flight[i].rpc.id, n.flight[i].src)
  {
    var s := MayDeliver(cfg, n, i);
    assert AllSound(n) && Noted(origins, s) == origins;
    hide Makes, Together, AllSound, Enabled, Steady, Apply, Delivers, Learns, FirstFrom;
    FirstTogether(cfg, n0, n, s, origins);
    ReceiptLearns(cfg, n, s, n.flight[i]);
    Onwards(cfg, n0, steps, n, origins, s);
    more, n' := steps + [s], Apply(cfg, n, s);
  }

  // Where a message has not come yet, a copy is on its way over some link.
  lemma CopyOnLink(cfg: Settings, n: Net, b: Cast, u: Peer, v: Peer) returns (i: nat)
    requires Invariant(cfg, n, b) && Edge(b.links, u, v) && Got(n, b, u) && !Got(n, b, v)
    ensures i < |n.flight| && n.flight[i].src == u && n.flight[i].dst == v
    ensures n.flight[i].rpc.Message? && n.flight[i].rpc.id == b.id && v in n.nodes
  {
    hide Find, Rank, Copies;
    assert Link(cfg, n, b, u, v);
    assert Copies(n, b.id, u, v) == 1;
    OneCopy(n, b.id, u, v);
    var p :| p in n.flight && IsCopy(b.id, u, v)(p) > 0;
    i :| 0 <= i < |n.flight| && n.flight[i] == p;
  }

  lemma OneCopy(n: Net, id: Id, u: Peer, v: Peer)
    ensures Copies(n, id, u, v) > 0 <==> exists p :: p in n.flight && IsCopy(id, u, v)(p) > 0
  {
    TotalZero(n.flight, IsCopy(id, u, v));
  }

  lemma TogetherMeans(cfg: Settings, n0: Net, n: Net, origins: map<Id, Peer>, id: Id)
    requires Together(cfg, n0, n, origins) && id in origins
    ensures AllSound(n) && SameLinks(n0, n) && n.nodes.Keys == n0.nodes.Keys
    ensures Invariant(cfg, n, CastOf(n0, origins[id], id))
  {
    hide AllSound, NoPrunes, OnlyBroadcasts, Invariant, CastOf;
  }

  lemma NextCopy(cfg: Settings, n0: Net, n: Net, origins: map<Id, Peer>, root: Peer, id: Id, x: Peer) returns (i: nat)
    requires Settled(n0) && Connected(EagerGraph(n0), root) && Together(cfg, n0, n, origins)
    requires id in origins && x in n.nodes && !Holds(n, x, id)
    ensures i < |n.flight| && n.flight[i].rpc.Message? && n.flight[i].rpc.id == id
    ensures n.flight[i].dst in n.nodes && !Holds(n, n.flight[i].dst, id)
  {
    var g, b := EagerGraph(n0), CastOf(n0, origins[id], id);
    assert Undirected(g) && n0.nodes.Keys == g.Keys;
    hide *;
    TogetherMeans(cfg, n0, n, origins, id);
    LinksOfCast(n0, origins[id], id);
    CastIds(n0, origins[id], id);
    OriginGot(cfg, n, b);
    ConnectedFromAll(g, root, b.origin, x);
    var u, v := FrontierTo(g, b.origin, x, Holders(n, id));
    HeldIsGot(n, b, b.origin);
    HeldIsGot(n, b, u);
    LinkInside(cfg, n, b, u, v);
    HeldIsGot(n, b, v);
    i := CopyOnLink(cfg, n, b, u, v);
  }

  lemma LinkInside(cfg: Settings, n: Net, b: Cast, u: Peer, v: Peer)
    requires Invariant(cfg, n, b) && Edge(b.links, u, v)
    ensures u in n.nodes && v in n.nodes && u != v && Edge(b.links, v, u)
  {
    hide Links, Rooted;
  }

  lemma FrontierTo(g: Graph, origin: Peer, x: Peer, s: set<Peer>) returns (u: Peer, v: Peer)
    requires Reaches(g, origin, x) && origin in s && x !in s
    ensures Edge(g, u, v) && u in s && v !in s
  {
    var p :| Path(g, p) && p[0] == origin && p[|p| - 1] == x;
    u, v := Frontier(g, p, s);
  }

  // -- Flooding ------------------------------------------------------------------------------

  lemma HoldersBound(n: Net, id: Id)
    ensures Holders(n, id) <= n.nodes.Keys && |Holders(n, id)| <= |n.nodes|
  {
    Smaller(Holders(n, id), n.nodes.Keys);
  }

  // First copies can be delivered until everyone has the message.
  lemma {:induction false} Flood(
    cfg: Settings, n0: Net, steps: seq<Step>, n: Net, origins: map<Id, Peer>, root: Peer, id: Id)
    returns (more: seq<Step>, n': Net)
    requires Settled(n0) && Connected(EagerGraph(n0), root) && id in origins
    requires Makes(cfg, n0, steps, n, origins) && Together(cfg, n0, n, origins)
    ensures Makes(cfg, n0, more, n', origins) && Together(cfg, n0, n', origins)
    ensures Remembers(n, n') && (forall k :: k != id && Unseen(n, k) ==> Unseen(n', k))
    ensures forall x :: x in n'.nodes ==> Holds(n', x, id)
    decreases |n.nodes| - |Holders(n, id)|
  {
    hide Settled, Connected, Makes, Together, Unseen, Find;
    HoldersBound(n, id);
    if x :| x in n.nodes && !Holds(n, x, id) {
      var i := NextCopy(cfg, n0, n, origins, root, id, x);
      var y := n.flight[i].dst;
      var further, m := DeliverFirst(cfg, n0, steps, n, origins, i);
      assert |Holders(m, id)| == |Holders(n, id)| + 1;
      HoldersBound(m, id);
      assert |m.nodes| == |n.nodes| by {
        assert m.nodes.Keys == n.nodes.Keys;
        assert |m.nodes.Keys| == |m.nodes| && |n.nodes.Keys| == |n.nodes|;
      }
      more, n' := Flood(cfg, n0, further, m, origins, root, id);
      RemembersOn(n, m, n');
    } else {
      more, n' := steps, n;
    }
  }

  // -- A link the first broadcast did not use ---------------------------------------------------

  lemma SpareLink(cfg: Settings, n: Net, b: Cast) returns (x: Peer, y: Peer)
    requires Invariant(cfg, n, b) && (forall z :: z in n.nodes ==> Got(n, b, z)) && !Acyclic(b.links)
    ensures Edge(b.links, x, y) && Parent(n, b, x) != y && Parent(n, b, y) != x
  {
    ParentsLeadUp(cfg, n, b);
    if forall u, v :: Edge(b.links, u, v) ==> Parent(n, b, u) == v || Parent(n, b, v) == u {
      LinksInside(cfg, n, b);
      hide Invariant, Got, Parent, Cycle, Undirected;
      ParentLinksAreSpanningTree(b.links, b.links, b.origin, Parents(n, b), Ranks(n, b));
      assert false;
    }
    x, y :| Edge(b.links, x, y) && Parent(n, b, x) != y && Parent(n, b, y) != x;
  }

  lemma LinksInside(cfg: Settings, n: Net, b: Cast)
    requires Invariant(cfg, n, b)
    ensures n.nodes.Keys == b.links.Keys && forall u, v :: Edge(b.links, u, v) ==> u in n.nodes && v in n.nodes
  {
    hide Links, Rooted;
  }

  // -- Draining --------------------------------------------------------------------------------

  // Everyone has everything.
  ghost predicate Saturated(n: Net, ids: set<Id>) {
    forall x, id :: x in n.nodes && id in ids ==> Holds(n, x, id)
  }

  // A link the message crossed on still has the copy on it, or is given up where that went.
  ghost predicate CutLinks(n: Net, b: Cast) {
    forall u, v :: Edge(b.links, u, v) && Crossed(n, b, u, v) ==>
      EnRoute(n, u, v, b.id) || u !in n.nodes[v].eager
  }

  lemma CrossedCopies(cfg: Settings, n: Net, b: Cast)
    requires Invariant(cfg, n, b) && cfg.optimizeSenderTree
    ensures CutLinks(n, b)
  {
    hide Find, Rank, Link, Shape, Rooted, Symmetric;
    forall u, v | Edge(b.links, u, v) && Crossed(n, b, u, v)
      ensures EnRoute(n, u, v, b.id) || u !in n.nodes[v].eager
    {
      assert Link(cfg, n, b, u, v);
      CrossedCopy(cfg, n, b, u, v);
    }
  }

  lemma CrossedCopy(cfg: Settings, n: Net, b: Cast, u: Peer, v: Peer)
    requires Link(cfg, n, b, u, v) && Crossed(n, b, u, v) && cfg.optimizeSenderTree
    ensures EnRoute(n, u, v, b.id) || u !in n.nodes[v].eager
  {
    hide Got, Parent, Copies;
    OneCopy(n, b.id, u, v);
  }

  // What a duplicate or a prune does.
  ghost predicate Lessens(n: Net, n': Net, p: Packet) {
    && n'.nodes.Keys == n.nodes.Keys && p.dst in n.nodes
    && (forall x :: x in n.nodes ==>
          && n'.nodes[x].received.byTime == n.nodes[x].received.byTime
          && n'.nodes[x].received.data.Keys == n.nodes[x].received.data.Keys
          && n'.nodes[x].eager <= n.nodes[x].eager)
    && (p.rpc.Message? ==> p.src !in n'.nodes[p.dst].eager)
    && (forall q :: q in n.flight && q != p ==> q in n'.flight)
  }

  lemma DuplicateLessens(cfg: Settings, n: Net, s: Step, ids: set<Id>)
    requires cfg.optimizeSenderTree && Enabled(cfg, n, s) && Delivers(n, s)
    requires OnlyBroadcasts(n, ids) && Saturated(n, ids)
    ensures Lessens(n, Apply(cfg, n, s), n.flight[s.move.index])
  {
    var n', i := Apply(cfg, n, s), s.move.index;
    var p := n.flight[i];
    assert p in n.flight;
    assert p.rpc.Message? ==> Holds(n, p.dst, p.rpc.id);
    hide Enumerates, OnlyBroadcasts, Saturated, Sends;
    LaterArrival(cfg, n.nodes[p.dst], p.src, p.rpc, s.at, s.choice);
    forall q | q in n.flight && q != p ensures q in n'.flight {
      WithoutMembers(n.flight, i, q);
    }
  }

  lemma LessensKeepsCuts(n: Net, n': Net, p: Packet, b: Cast)
    requires CutLinks(n, b) && Lessens(n, n', p)
    ensures CutLinks(n', b)
  {
    hide Find;
    forall u, v | Edge(b.links, u, v) && Crossed(n', b, u, v)
      ensures EnRoute(n', u, v, b.id) || u !in n'.nodes[v].eager
    {
      assert Crossed(n, b, u, v);
      if EnRoute(n, u, v, b.id) {
        var q :| q in n.flight && q.src == u && q.dst == v && q.rpc.Message? && q.rpc.id == b.id;
        assert q != p ==> q in n'.flight;
      }
    }
  }

  // What draining keeps: who learned what from whom, eager links but for some.
  ghost predicate Fades(n: Net, n': Net) {
    && Remembers(n, n')
    && forall x :: x in n.nodes ==> x in n'.nodes && n'.nodes[x].eager <= n.nodes[x].eager
  }

  lemma LessensFades(n: Net, n1: Net, p: Packet, n2: Net)
    requires Lessens(n, n1, p) && Fades(n1, n2)
    ensures Fades(n, n2)
  {
    hide Find;
  }

  ghost predicate Crossing(n: Net, ids: set<Id>, a: Cast, b: Cast) {
    AllSound(n) && OnlyBroadcasts(n, ids) && Saturated(n, ids) && CutLinks(n, a) && CutLinks(n, b)
  }

  lemma LessensKeepsCrossing(cfg: Settings, n: Net, s: Step, ids: set<Id>, a: Cast, b: Cast, degree: nat)
    requires cfg.optimizeSenderTree && Crossing(n, ids, a, b) && FanOut(n, degree)
    requires Enabled(cfg, n, s) && Delivers(n, s)
    ensures Crossing(Apply(cfg, n, s), ids, a, b) && FanOut(Apply(cfg, n, s), degree)
    ensures Work(Apply(cfg, n, s), ids, degree) < Work(n, ids, degree)
    ensures Lessens(n, Apply(cfg, n, s), n.flight[s.move.index])
  {
    hide AllSound, OnlyBroadcasts, CutLinks, Enabled, Apply, FanOut, Work, Lessens;
    var n' := Apply(cfg, n, s);
    DuplicateLessens(cfg, n, s, ids);
    LessensKeepsCuts(n, n', n.flight[s.move.index], a);
    LessensKeepsCuts(n, n', n.flight[s.move.index], b);
    StepKeepsSound(cfg, n, s);
    ArrivalLowersWork(cfg, n, s, ids, degree);
    StaysSaturated(n, n', n.flight[s.move.index], ids);
  }

  lemma StaysSaturated(n: Net, n': Net, p: Packet, ids: set<Id>)
    requires Saturated(n, ids) && Lessens(n, n', p)
    ensures Saturated(n', ids)
  {
    forall x, id | x in n'.nodes && id in ids ensures Holds(n', x, id) {
      assert Holds(n, x, id);
    }
  }

  lemma {:induction false} Drain(
    cfg: Settings, n0: Net, steps: seq<Step>, n: Net, origins: map<Id, Peer>, a: Cast, b: Cast, degree: nat)
    returns (more: seq<Step>, n': Net)
    requires cfg.optimizeSenderTree && Makes(cfg, n0, steps, n, origins)
    requires Crossing(n, origins.Keys, a, b) && FanOut(n, degree)
    ensures Makes(cfg, n0, more, n', origins) && Quiescent(n')
    ensures Crossing(n', origins.Keys, a, b) && Fades(n, n')
    decreases Work(n, origins.Keys, degree)
  {
    if Quiescent(n) {
      more, n' := steps, n;
    } else {
      assert OnlyBroadcasts(n, origins.Keys);
      hide Makes, Crossing, FanOut, Quiescent, Work, Enabled, Calm, Apply, Delivers, Fades, Lessens, OnlyBroadcasts;
      var s := NextDelivery(cfg, n, origins.Keys);
      LessensKeepsCrossing(cfg, n, s, origins.Keys, a, b, degree);
      DeliveryNotes(n, s, origins);
      Onwards(cfg, n0, steps, n, origins, s);
      more, n' := Drain(cfg, n0, steps + [s], Apply(cfg, n, s), origins, a, b, degree);
      LessensFades(n, Apply(cfg, n, s), n.flight[s.move.index], n');
    }
  }

  lemma DeliveryNotes(n: Net, s: Step, origins: map<Id, Peer>)
    requires Delivers(n, s)
    ensures Noted(origins, s) == origins && s.move.Arrive? && s.move.index < |n.flight|
  {}

  // -- What is left -----------------------------------------------------------------------------

  // No eager link is left that a message crossed on.
  lemma OnlyParentLinks(n: Net, b: Cast, u: Peer, v: Peer)
    requires CutLinks(n, b) && Quiescent(n) && Edge(b.links, v, u) && Got(n, b, u) && Got(n, b, v)
    requires Edge(EagerGraph(n), u, v)
    ensures Parent(n, b, u) == v || Parent(n, b, v) == u
  {
    hide Find;
    assert Crossed(n, b, v, u) ==> !EnRoute(n, v, u, b.id);
  }

  // The state when both messages are with everybody.
  ghost predicate BothHeld(cfg: Settings, n0: Net, n: Net, root: Peer, a: Id, x: Peer, b: Id, y: Peer) {
    && AllSound(n) && SameLinks(n0, n)
    && Invariant(cfg, n, CastOf(n0, root, a)) && Invariant(cfg, n, CastOf(n0, x, b))
    && (forall z :: z in n.nodes ==> Holds(n, z, a) && Holds(n, z, b))
    && Edge(EagerGraph(n0), x, y)
    && Parent(n, CastOf(n0, root, a), x) != y && Parent(n, CastOf(n0, root, a), y) != x
    && Parent(n, CastOf(n0, x, b), y) == x
  }

  // Drained, it has lost the link from x to y, and every other link round y's branch.
  lemma BranchLost(
    cfg: Settings, n0: Net, n: Net, m: Net, root: Peer, a: Id, x: Peer, b: Id, y: Peer)
    requires BothHeld(cfg, n0, n, root, a, x, b, y) && Fades(n, m) && Quiescent(m)
    requires CutLinks(m, CastOf(n0, root, a)) && CutLinks(m, CastOf(n0, x, b))
    ensures var c := CastOf(n0, x, b);
      Split(EagerGraph(m), Branch(GotParents(n, c), GotRanks(n, c), x, y))
  {
    var ca, cb, g := CastOf(n0, root, a), CastOf(n0, x, b), EagerGraph(m);
    BranchHangs(cfg, n0, n, root, a, x, b, y);
    forall u, v | Edge(g, u, v) ensures v in n.nodes && (Parent(n, cb, u) == v || Parent(n, cb, v) == u) {
      LinkLeft(cfg, n0, n, m, x, b, u, v);
    }
    if Edge(g, x, y) {
      LinkLeft(cfg, n0, n, m, root, a, x, y);
    }
    if Edge(g, y, x) {
      LinkLeft(cfg, n0, n, m, root, a, y, x);
    }
    assert g.Keys == n.nodes.Keys;
    hide BothHeld, Fades, CutLinks, Quiescent, Parent, Got, CastOf, EagerGraph, Hung, Split, Branch;
    BranchIsCut(cb.links, g, x, GotParents(n, cb), GotRanks(n, cb), y);
  }

  // What is left of the eager links are links of either message's tree.
  lemma LinkLeft(cfg: Settings, n0: Net, n: Net, m: Net, origin: Peer, id: Id, u: Peer, v: Peer)
    requires AllSound(n) && SameLinks(n0, n) && Invariant(cfg, n, CastOf(n0, origin, id))
    requires forall z :: z in n.nodes ==> Holds(n, z, id)
    requires Fades(n, m) && Quiescent(m) && CutLinks(m, CastOf(n0, origin, id)) && Edge(EagerGraph(m), u, v)
    ensures u in n.nodes && v in n.nodes
    ensures Parent(n, CastOf(n0, origin, id), u) == v || Parent(n, CastOf(n0, origin, id), v) == u
  {
    var c := CastOf(n0, origin, id);
    assert Edge(c.links, u, v);
    LinkInside(cfg, n, c, u, v);
    CastIds(n0, origin, id);
    hide Invariant, CutLinks, Quiescent, CastOf, Got, Parent;
    HeldIsGot(n, c, u);
    HeldIsGot(n, c, v);
    RemembersGot(n, m, c, u);
    RemembersGot(n, m, c, v);
    OnlyParentLinks(m, c, u, v);
  }

  // The second message's first-delivery links, seen as a tree with y under x.
  lemma BranchHangs(cfg: Settings, n0: Net, n: Net, root: Peer, a: Id, x: Peer, b: Id, y: Peer)
    requires BothHeld(cfg, n0, n, root, a, x, b, y)
    ensures var c := CastOf(n0, x, b); var parent := GotParents(n, c);
      && Hung(c.links, x, parent, GotRanks(n, c)) && parent.Keys == n.nodes.Keys
      && y in parent && y != x && parent[y] == x && x in parent && parent[x] == x
      && forall z :: z in parent ==> parent[z] == Parent(n, c, z)
  {
    var c := CastOf(n0, x, b);
    CastIds(n0, x, b);
    LinksOfCast(n0, x, b);
    hide AllSound, SameLinks, CastOf, Invariant, Got, Parent, EagerGraph, Hung;
    forall z | z in n.nodes ensures Got(n, c, z) {
      HeldIsGot(n, c, z);
    }
    CastHangs(cfg, n, c, y);
  }

  lemma CastHangs(cfg: Settings, n: Net, c: Cast, y: Peer)
    requires Invariant(cfg, n, c) && (forall z :: z in n.nodes ==> Got(n, c, z))
    requires Edge(c.links, c.origin, y) && Parent(n, c, y) == c.origin
    ensures var parent := GotParents(n, c);
      && Hung(c.links, c.origin, parent, GotRanks(n, c)) && parent.Keys == n.nodes.Keys
      && y in parent && y != c.origin && parent[y] == c.origin
      && c.origin in parent && parent[c.origin] == c.origin
      && forall z :: z in parent ==> parent[z] == Parent(n, c, z)
  {
    LinkInside(cfg, n, c, c.origin, y);
    RootedCast(cfg, n, c);
    hide Invariant, Got, Parent, Hung, Symmetric, Rooted;
    GotIsHung(n, c);
  }

  lemma RootedCast(cfg: Settings, n: Net, c: Cast)
    requires Invariant(cfg, n, c)
    ensures Symmetric(c) && Rooted(n, c) && n.nodes.Keys == c.links.Keys && Parent(n, c, c.origin) == c.origin
  {
    hide Links;
  }

  // -- Two crossing broadcasts -----------------------------------------------------------------

  // The first is spread; the second starts at an unused link and takes it at once.
  lemma SpreadBoth(cfg: Settings, n0: Net, root: Peer, a: Id, b: Id)
    returns (steps: seq<Step>, n: Net, origins: map<Id, Peer>, x: Peer, y: Peer)
    requires Settled(n0) && root in n0.nodes && Connected(EagerGraph(n0), root) && !Acyclic(EagerGraph(n0))
    requires a != b && Unseen(n0, a) && Unseen(n0, b)
    ensures origins.Keys == {a, b} && origins[a] == root && origins[b] == x
    ensures Makes(cfg, n0, steps, n, origins) && Together(cfg, n0, n, origins)
    ensures BothHeld(cfg, n0, n, root, a, x, b, y)
  {
    hide Settled, Makes, Together, Unseen, Remembers, Connected, Acyclic, EagerGraph, BothHeld, FirstFrom;
    hide CastOf, Parent;
    var n1, n2, n3, n4;
    MakesNothing(cfg, n0);
    StartTogether(cfg, n0);
    steps, n1 := PublishNew(cfg, n0, [], n0, map[], root, a);
    origins := map[][a := root];
    steps, n2 := Flood(cfg, n0, steps, n1, origins, root, a);
    x, y := SpareHeld(cfg, n0, n2, origins, root, a);
    steps, n3 := PublishNew(cfg, n0, steps, n2, origins, x, b);
    origins := origins[b := x];
    var i := FirstHop(cfg, n0, n2, n3, origins, x, b, y);
    steps, n4 := DeliverFirst(cfg, n0, steps, n3, origins, i);
    steps, n := Flood(cfg, n0, steps, n4, origins, root, b);
    RemembersOn(n2, n3, n4);
    RemembersOn(n2, n4, n);
    SpreadMeans(cfg, n0, n2, n4, n, map[][a := root], origins, root, a, x, b, y);
  }

  lemma SpareHeld(cfg: Settings, n0: Net, n: Net, origins: map<Id, Peer>, root: Peer, a: Id) returns (x: Peer, y: Peer)
    requires Together(cfg, n0, n, origins) && a in origins && origins[a] == root
    requires (forall z :: z in n.nodes ==> Holds(n, z, a)) && !Acyclic(EagerGraph(n0))
    ensures Edge(EagerGraph(n0), x, y) && x in n.nodes && y in n.nodes
    ensures Parent(n, CastOf(n0, root, a), x) != y && Parent(n, CastOf(n0, root, a), y) != x
  {
    var c := CastOf(n0, root, a);
    hide *;
    TogetherMeans(cfg, n0, n, origins, a);
    CastIds(n0, root, a);
    LinksOfCast(n0, root, a);
    forall z | z in n.nodes ensures Got(n, c, z) {
      HeldIsGot(n, c, z);
    }
    x, y := SpareLink(cfg, n, c);
    LinkInside(cfg, n, c, x, y);
  }

  lemma OnlyHolder(before: Net, n: Net, x: Peer, b: Id, y: Peer)
    requires Learns(before, n, x, b) && Unseen(before, b) && x in n.nodes && y in n.nodes && x != y
    ensures Holds(n, x, b) && b !in n.nodes[y].received.data
  {
    hide Remembers;
    assert Holders(before, b) == {};
    assert x in Holders(n, b) && y !in Holders(n, b);
  }

  // The copy from x to y, just published at x.
  lemma FirstHop(
    cfg: Settings, n0: Net, before: Net, n: Net, origins: map<Id, Peer>, x: Peer, b: Id, y: Peer)
    returns (i: nat)
    requires Together(cfg, n0, n, origins) && b in origins && origins[b] == x
    requires Learns(before, n, x, b) && Unseen(before, b) && Edge(EagerGraph(n0), x, y)
    ensures i < |n.flight| && n.flight[i].rpc.Message? && n.flight[i].rpc.id == b
    ensures n.flight[i].src == x && n.flight[i].dst == y && y in n.nodes && b !in n.nodes[y].received.data
  {
    hide *;
    var c := CastOf(n0, x, b);
    TogetherMeans(cfg, n0, n, origins, b);
    CastIds(n0, x, b);
    LinksOfCast(n0, x, b);
    LinkInside(cfg, n, c, x, y);
    OnlyHolder(before, n, x, b, y);
    HeldIsGot(n, c, x);
    HeldIsGot(n, c, y);
    assert !Holds(n, y, b) by {
      HoldsMeans(n, y, b);
    }
    i := CopyOnLink(cfg, n, c, x, y);
  }

  lemma HoldsMeans(n: Net, x: Peer, id: Id)
    ensures Holds(n, x, id) <==> x in n.nodes && id in n.nodes[x].received.data
  {}

  lemma SpreadMeans(
    cfg: Settings, n0: Net, n2: Net, n4: Net, n: Net, first: map<Id, Peer>, origins: map<Id, Peer>,
    root: Peer, a: Id, x: Peer, b: Id, y: Peer)
    requires a in first && Together(cfg, n0, n2, first) && Together(cfg, n0, n, origins)
    requires a in origins && origins[a] == root && b in origins && origins[b] == x
    requires (forall z :: z in n2.nodes ==> Holds(n2, z, a)) && (forall z :: z in n.nodes ==> Holds(n, z, b))
    requires Remembers(n2, n) && Remembers(n4, n) && FirstFrom(n4, y, b, x)
    requires Edge(EagerGraph(n0), x, y) && x in n2.nodes && y in n2.nodes
    requires Parent(n2, CastOf(n0, root, a), x) != y && Parent(n2, CastOf(n0, root, a), y) != x
    ensures BothHeld(cfg, n0, n, root, a, x, b, y)
  {
    var ca, cb := CastOf(n0, root, a), CastOf(n0, x, b);
    hide *;
    TogetherMeans(cfg, n0, n2, first, a);
    TogetherMeans(cfg, n0, n, origins, a);
    TogetherMeans(cfg, n0, n, origins, b);
    CastIds(n0, root, a);
    CastIds(n0, x, b);
    forall z | z in n.nodes ensures Holds(n, z, a) {
      KeptHolding(n2, n, ca, z);
    }
    KeptHolding(n2, n, ca, x);
    KeptHolding(n2, n, ca, y);
    KeptFirst(n4, n, cb, y, x);
    HeldBoth(cfg, n0, n, root, a, x, b, y);
  }

  lemma HeldBoth(cfg: Settings, n0: Net, n: Net, root: Peer, a: Id, x: Peer, b: Id, y: Peer)
    requires AllSound(n) && SameLinks(n0, n)
    requires Invariant(cfg, n, CastOf(n0, root, a)) && Invariant(cfg, n, CastOf(n0, x, b))
    requires (forall z :: z in n.nodes ==> Holds(n, z, a)) && (forall z :: z in n.nodes ==> Holds(n, z, b))
    requires Edge(EagerGraph(n0), x, y)
    requires Parent(n, CastOf(n0, root, a), x) != y && Parent(n, CastOf(n0, root, a), y) != x
    requires Parent(n, CastOf(n0, x, b), y) == x
    ensures BothHeld(cfg, n0, n, root, a, x, b, y)
  {
    hide AllSound, SameLinks, Invariant, CastOf, Parent, EagerGraph, Holds;
  }

  lemma KeptHolding(n: Net, n': Net, c: Cast, z: Peer)
    requires AllSound(n) && AllSound(n') && Remembers(n, n') && z in n.nodes && Holds(n, z, c.id)
    ensures Holds(n', z, c.id) && Parent(n', c, z) == Parent(n, c, z)
  {
    hide AllSound, Parent, Got;
    HeldIsGot(n, c, z);
    RemembersGot(n, n', c, z);
    SameKeys(n, n');
    HeldIsGot(n', c, z);
  }

  lemma SameKeys(n: Net, n': Net)
    requires Remembers(n, n')
    ensures n.nodes.Keys == n'.nodes.Keys
  {}

  lemma KeptFirst(n: Net, n': Net, c: Cast, y: Peer, x: Peer)
    requires Remembers(n, n') && FirstFrom(n, y, c.id, x)
    ensures Parent(n', c, y) == x
  {
    hide Find;
  }

  // Round a cycle: two broadcasts, everything delivered, everyone holding both messages,
  // no eager link gained, and none left between one part of the network and the other.
  lemma CycleAllowsCut(cfg: Settings, n: Net, root: Peer, a: Id, b: Id) returns (steps: seq<Step>, side: set<Peer>)
    requires cfg.optimizeSenderTree && Settled(n) && root in n.nodes && Connected(EagerGraph(n), root)
    requires !Acyclic(EagerGraph(n)) && a != b && Unseen(n, a) && Unseen(n, b)
    ensures Legal(cfg, n, steps) && Broadcasts(cfg, n, steps) && Origins(steps).Keys == {a, b}
    ensures var m := Run(cfg, n, steps);
      && Quiescent(m) && Saturated(m, {a, b}) && m.nodes.Keys == n.nodes.Keys
      && (forall x :: x in n.nodes ==> m.nodes[x].eager <= n.nodes[x].eager)
      && Split(EagerGraph(m), side)
  {
    hide *;
    var full, origins, m, x, y;
    steps, full, origins, x, y := SpreadBoth(cfg, n, root, a, b);
    var ca, cb := CastOf(n, root, a), CastOf(n, x, b);
    BothCross(cfg, n, full, origins, root, a, x, b, y);
    var degree := LargestDegree(full);
    steps, m := Drain(cfg, n, steps, full, origins, ca, cb, degree);
    CrossingMeans(m, {a, b}, ca, cb);
    BranchLost(cfg, n, full, m, root, a, x, b, y);
    FewerLinks(cfg, n, full, m, origins);
    MakesMeans(cfg, n, steps, m, origins);
    side := Branch(GotParents(full, cb), GotRanks(full, cb), x, y);
  }

  lemma FewerLinks(cfg: Settings, n0: Net, n: Net, m: Net, origins: map<Id, Peer>)
    requires Together(cfg, n0, n, origins) && Fades(n, m)
    ensures m.nodes.Keys == n0.nodes.Keys
    ensures forall x :: x in n0.nodes ==> m.nodes[x].eager <= n0.nodes[x].eager
  {
    hide AllSound, NoPrunes, OnlyBroadcasts, EachFollowed;
  }

  lemma BothCross(
    cfg: Settings, n0: Net, n: Net, origins: map<Id, Peer>, root: Peer, a: Id, x: Peer, b: Id, y: Peer)
    requires cfg.optimizeSenderTree && BothHeld(cfg, n0, n, root, a, x, b, y)
    requires Together(cfg, n0, n, origins) && origins.Keys == {a, b}
    ensures Crossing(n, origins.Keys, CastOf(n0, root, a), CastOf(n0, x, b))
  {
    hide AllSound, SameLinks, NoPrunes, EachFollowed, Invariant, CutLinks, OnlyBroadcasts;
    CrossedCopies(cfg, n, CastOf(n0, root, a));
    CrossedCopies(cfg, n, CastOf(n0, x, b));
  }

  lemma CrossingMeans(n: Net, ids: set<Id>, a: Cast, b: Cast)
    requires Crossing(n, ids, a, b)
    ensures Saturated(n, ids) && CutLinks(n, a) && CutLinks(n, b)
  {}

  lemma MakesMeans(cfg: Settings, n0: Net, steps: seq<Step>, n: Net, origins: map<Id, Peer>)
    requires Makes(cfg, n0, steps, n, origins)
    ensures Legal(cfg, n0, steps) && Broadcasts(cfg, n0, steps)
    ensures Run(cfg, n0, steps) == n && Origins(steps) == origins
  {}

  // -- Without the optimization -------------------------------------------------------------------

  // Links as at the start, and nothing in flight that could change one.
  ghost predicate Untouched(n0: Net, n: Net) {
    SameLinks(n0, n) && forall p :: p in n.flight ==> p.rpc.Message? || p.rpc.IHave?
  }

  lemma NothingPruned(cfg: Settings, t: Tree, i: Input, now: Instant, c: Choice)
    requires !cfg.optimizeSenderTree && (i.Publish? || (i.Receive? && i.rpc.Message?))
    ensures var e := Next(cfg, t, i, now, c);
      && e.tree.eager == t.eager && e.tree.lazy == t.lazy
      && forall a :: a in e.events && a.Notify? ==> a.rpc.Message?
  {
    forall a | a in Next(cfg, t, i, now, c).events && a.Notify? ensures a.rpc.Message? {
      match i
      case Publish(k, p) => FanMembers(c.peers, Message(k, 1, p), a);
      case Receive(_, Message(k, h, p)) => FanMembers(c.peers, Message(k, NextHop(h), p), a);
      case _ =>
    }
  }

  lemma StaysUntouched(cfg: Settings, n0: Net, n: Net, s: Step)
    requires !cfg.optimizeSenderTree && Untouched(n0, n) && Enabled(cfg, n, s) && Steady(cfg, n, s)
    ensures Untouched(n0, Apply(cfg, n, s))
  {
    assert s.move.Arrive? ==> n.flight[s.move.index] in n.flight;
    var i := InputOf(n, s.move);
    if i.Publish? || (i.Receive? && i.rpc.Message?) {
      MessageStaysUntouched(cfg, n0, n, s);
    } else {
      var sent := QuietStep(cfg, n, s);
      hide *;
      OnlyAdds(n0, n, s.move, Apply(cfg, n, s), sent);
    }
  }

  lemma MessageStaysUntouched(cfg: Settings, n0: Net, n: Net, s: Step)
    requires !cfg.optimizeSenderTree && Untouched(n0, n) && Enabled(cfg, n, s) && !s.move.Lose?
    requires var i := InputOf(n, s.move); i.Publish? || (i.Receive? && i.rpc.Message?)
    ensures Untouched(n0, Apply(cfg, n, s))
  {
    hide Next, Permits, Sends, Untouched;
    var node, i := Actor(n, s.move), InputOf(n, s.move);
    var t := n.nodes[node];
    var events := Next(cfg, t, i, s.at, s.choice).events;
    NothingPruned(cfg, t, i, s.at, s.choice);
    forall p | p in Sends(node, events) ensures p.rpc.Message? {
      SendsMembers(node, events, p);
    }
    OnlyAdds(n0, n, s.move, Apply(cfg, n, s), Sends(node, events));
  }

  lemma OnlyAdds(n0: Net, n: Net, m: Move, n': Net, sent: seq<Packet>)
    requires Untouched(n0, n) && n'.nodes.Keys == n.nodes.Keys && (!m.Local? ==> m.index < |n.flight|)
    requires forall x :: x in n.nodes ==>
      n'.nodes[x].eager == n.nodes[x].eager && n'.nodes[x].lazy == n.nodes[x].lazy
    requires n'.flight == Rest(n, m) + sent && forall p :: p in sent ==> p.rpc.Message? || p.rpc.IHave?
    ensures Untouched(n0, n')
  {
    forall p | p in Rest(n, m) ensures p in n.flight {
      if !m.Local? {
        WithoutMembers(n.flight, m.index, p);
      }
    }
  }

  lemma {:induction false} RunUntouched(cfg: Settings, n: Net, steps: seq<Step>)
    requires !cfg.optimizeSenderTree && Settled(n) && Legal(cfg, n, steps) && Broadcasts(cfg, n, steps)
    ensures Untouched(n, Run(cfg, n, steps))
  {
    hide AllSound, Undirected, EagerGraph, Enabled, Apply, Steady;
    if steps != [] {
      var init := steps[..|steps| - 1];
      RunUntouched(cfg, n, init);
      StaysUntouched(cfg, n, Run(cfg, n, init), steps[|steps| - 1]);
    }
  }

  // -- The theorem -------------------------------------------------------------------------------

  // Once all is delivered the eager links still connect the network.
  ghost predicate KeepsConnected(cfg: Settings, n: Net, root: Peer, steps: seq<Step>) {
    Legal(cfg, n, steps) && Broadcasts(cfg, n, steps) && Quiescent(Run(cfg, n, steps)) ==>
      Connected(EagerGraph(Run(cfg, n, steps)), root)
  }

  // Concurrent broadcasts always leave a connected network connected exactly when its
  // eager links have no cycle or duplicates are not pruned, given two ids to publish.
  lemma TreesAndOnlyTrees(cfg: Settings, n: Net, root: Peer, a: Id, b: Id)
    requires Settled(n) && root in n.nodes && Connected(EagerGraph(n), root)
    requires a != b && Unseen(n, a) && Unseen(n, b)
    ensures Acyclic(EagerGraph(n)) || !cfg.optimizeSenderTree
      <==> forall steps :: KeepsConnected(cfg, n, root, steps)
  {
    hide Settled, Connected, Unseen, EagerGraph, Split, Quiescent, Acyclic, Legal, Run, Broadcasts;
    if Acyclic(EagerGraph(n)) || !cfg.optimizeSenderTree {
      forall steps ensures KeepsConnected(cfg, n, root, steps) {
        if Legal(cfg, n, steps) && Broadcasts(cfg, n, steps) {
          LinksStay(cfg, n, root, steps);
        }
      }
    } else {
      var steps, side := CycleAllowsCut(cfg, n, root, a, b);
      SplitDisconnects(EagerGraph(Run(cfg, n, steps)), side, root);
      assert !KeepsConnected(cfg, n, root, steps);
    }
  }

  lemma LinksStay(cfg: Settings, n: Net, root: Peer, steps: seq<Step>)
    requires Settled(n) && Connected(EagerGraph(n), root)
    requires Acyclic(EagerGraph(n)) || !cfg.optimizeSenderTree
    requires Legal(cfg, n, steps) && Broadcasts(cfg, n, steps)
    ensures EagerGraph(Run(cfg, n, steps)) == EagerGraph(n)
  {
    hide *;
    if cfg.optimizeSenderTree {
      TreeToStart(n, root);
      TreeIsStable(cfg, n, steps, root);
    } else {
      RunUntouched(cfg, n, steps);
      UntouchedMeans(n, Run(cfg, n, steps));
    }
    SameEager(n, Run(cfg, n, steps));
  }

  lemma UntouchedMeans(n0: Net, n: Net)
    requires Untouched(n0, n)
    ensures n.nodes.Keys == n0.nodes.Keys && forall x :: x in n0.nodes ==> n.nodes[x].eager == n0.nodes[x].eager
  {}

  lemma TreeToStart(n: Net, root: Peer)
    requires Settled(n) && Connected(EagerGraph(n), root) && Acyclic(EagerGraph(n))
    ensures Graphs.SpanningTree(EagerGraph(n), root)
  {
    hide AllSound, Connected, Cycle, Undirected, EagerGraph;
  }

  lemma SameEager(n: Net, m: Net)
    requires m.nodes.Keys == n.nodes.Keys
    requires forall x :: x in n.nodes ==> m.nodes[x].eager == n.nodes[x].eager
    ensures EagerGraph(m) == EagerGraph(n)
  {}
}
