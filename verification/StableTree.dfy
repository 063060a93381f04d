/** Over eager links that are a spanning tree any number of broadcasts, concurrent or
    not, prune nothing, change no link, and take exactly one delivery per node but the
    origin each; the tree one broadcast leaves behind serves all later ones. */
module StableTree {
  import opened Types
  import opened Cache
  import opened TreeSpec
  import opened Network
  import opened Gossip
  import opened GossipRuns
  import opened Broadcast
  import opened Reach
  import opened BroadcastInvariants
  import opened BroadcastOutcome
  import opened Cycles
  import opened Graphs

  // An id new to the network, at a node of it.
  ghost predicate Fresher(n: Net, origin: Peer, id: Id) {
    && origin in n.nodes && id !in n.nodes[origin].observed.data
    && (forall p :: p in n.flight && p.rpc.Message? ==> p.rpc.id != id)
    && (forall x :: x in n.nodes ==> id !in n.nodes[x].received.data)
    && (forall r :: r in n.log ==> r.id != id)
  }

  // A calm step, or the publication of a new id.
  ghost predicate Steady(cfg: Settings, n: Net, s: Step) {
    || Calm(cfg, n, s)
    || (s.move.Local? && s.move.input.Publish? && Fresher(n, s.move.node, s.move.input.id))
  }

  ghost predicate Broadcasts(cfg: Settings, n: Net, steps: seq<Step>)
    requires Legal(cfg, n, steps)
  {
    steps != [] ==>
      && Broadcasts(cfg, n, steps[..|steps| - 1])
      && Steady(cfg, Run(cfg, n, steps[..|steps| - 1]), steps[|steps| - 1])
  }

  // Who published what.
  function Noted(origins: map<Id, Peer>, s: Step): map<Id, Peer> {
    if s.move.Local? && s.move.input.Publish? then origins[s.move.input.id := s.move.node] else origins
  }

  function Origins(steps: seq<Step>): map<Id, Peer> {
    if steps == [] then map[] else Noted(Origins(steps[..|steps| - 1]), steps[|steps| - 1])
  }

  // Where broadcasts may start: nothing in flight but announcements, symmetric eager
  // links within the network, no peer both eager and lazy.
  ghost predicate Settled(n: Net) {
    && AllSound(n) && (forall p :: p in n.flight ==> p.rpc.IHave?)
    && Undirected(EagerGraph(n))
    && (forall x :: x in n.nodes ==> n.nodes[x].eager !! n.nodes[x].lazy)
  }

  // -- The invariant of all broadcasts together -------------------------------------------

  ghost predicate SameLinks(n0: Net, n: Net) {
    && n.nodes.Keys == n0.nodes.Keys
    && forall x :: x in n0.nodes ==> n.nodes[x].eager == n0.nodes[x].eager && n.nodes[x].lazy == n0.nodes[x].lazy
  }

  ghost predicate NoPrunes(n: Net) {
    forall p :: p in n.flight ==> !p.rpc.Prune?
  }

  ghost predicate EachFollowed(cfg: Settings, n0: Net, n: Net, origins: map<Id, Peer>) {
    forall id :: id in origins ==> Invariant(cfg, n, CastOf(n0, origins[id], id))
  }

  ghost predicate Together(cfg: Settings, n0: Net, n: Net, origins: map<Id, Peer>) {
    && AllSound(n) && SameLinks(n0, n) && NoPrunes(n)
    && OnlyBroadcasts(n, origins.Keys) && EachFollowed(cfg, n0, n, origins)
  }

  ghost function Held(n: Net, ids: set<Id>): set<(Peer, Id)> {
    set x, i | x in n.nodes && i in ids && i in n.nodes[x].received.data :: (x, i)
  }

  // -- Quiet steps --------------------------------------------------------------------------

  lemma QuietTogether(cfg: Settings, n0: Net, n: Net, s: Step, origins: map<Id, Peer>)
    requires Together(cfg, n0, n, origins) && Enabled(cfg, n, s) && Quiet(cfg, n, s)
    ensures Together(cfg, n0, Apply(cfg, n, s), origins)
    ensures Held(Apply(cfg, n, s), origins.Keys) == Held(n, origins.Keys)
  {
    hide Sound, Invariant, Apply, Enabled, Calm, Bystander, CastOf, OnlyBroadcasts;
    var n' := Apply(cfg, n, s);
    var sent := QuietStep(cfg, n, s);
    var degree := LargestDegree(n);
    StepKeepsSound(cfg, n, s);
    QuietKeepsWork(cfg, n, s, origins.Keys, degree);
    forall p | p in n'.flight ensures !p.rpc.Prune? {
      if s.move.Arrive? && p in Rest(n, s.move) {
        WithoutMembers(n.flight, s.move.index, p);
      }
    }
    forall id | id in origins ensures Invariant(cfg, n', CastOf(n0, origins[id], id)) {
      QuietIsBystander(cfg, n, s, CastOf(n0, origins[id], id));
      BystanderKeeps(cfg, n, n', CastOf(n0, origins[id], id));
    }
  }

  // -- Deliveries ------------------------------------------------------------------------------

  // Without a cycle every delivery is a first one.
  lemma DeliveryIsFirst(cfg: Settings, n: Net, s: Step, b: Cast) returns (rpc: Rpc)
    requires AllSound(n) && Enabled(cfg, n, s) && s.move.Arrive? && Invariant(cfg, n, b) && Acyclic(b.links)
    requires n.flight[s.move.index].rpc.Message? && n.flight[s.move.index].rpc.id == b.id
    ensures FirstReceipt(n, Apply(cfg, n, s), b, s.move.index, s.choice.peers, rpc)
    ensures b.id !in n.nodes[n.flight[s.move.index].dst].received.data
  {
    hide Sound, Next, Find, Links, Rooted, Parent, Acyclic, Demotion, FirstReceipt;
    var p := n.flight[s.move.index];
    assert p in n.flight;
    SoundHasCoherent(n, p.dst);
    OnRecord(n.nodes[p.dst].received, b.id);
    if Got(n, b, p.dst) {
      var sent := ArrivalIsDemotion(cfg, n, s, b);
      DemotionCrossed(cfg, n, Apply(cfg, n, s), b, s.move.index, sent);
      NothingCrosses(cfg, n, b, p.src, p.dst);
      assert false;
    } else {
      rpc := ArrivalIsFirst(cfg, n, s, b);
    }
  }

  lemma SoundHasCoherent(n: Net, x: Peer)
    requires AllSound(n) && x in n.nodes
    ensures Coherent(n.nodes[x].received)
  {}

  // A first receipt of one message is nothing to the others.
  lemma FirstIsBystander(n: Net, n': Net, b: Cast, i: nat, order: seq<Peer>, rpc: Rpc, c: Cast)
    requires FirstReceipt(n, n', b, i, order, rpc) && c.id != b.id
    requires var y := n.flight[i].dst;
      Find(n'.nodes[y].received.byTime, c.id) == Find(n.nodes[y].received.byTime, c.id)
    ensures Bystander(n, n', c)
  {
    hide Find, Rank, Enumerates;
    var sent := Sends(n.flight[i].dst, Fan(order, rpc));
    FanPackets(n.flight[i].dst, order, rpc);
    forall x, y ensures Copies(n', c.id, x, y) == Copies(n, c.id, x, y) {
      CopiesAfter(n, i, sent, n', c.id, x, y);
      TotalZero(sent, IsCopy(c.id, x, y));
    }
    forall x ensures Rank(n'.log, x, c.id) == Rank(n.log, x, c.id) {
      assert n'.log == n.log + [n'.log[|n.log|]];
      RankAppend(n.log, n'.log[|n.log|], x, c.id);
    }
    forall p | p in n'.flight && Concerns(p, c) ensures p in n.flight {
      if p in Without(n.flight, i) {
        WithoutMembers(n.flight, i, p);
      }
    }
  }

  // How the receiver's record changes.
  lemma ReceiverRecords(cfg: Settings, n: Net, s: Step, id: Id)
    requires AllSound(n) && Enabled(cfg, n, s) && s.move.Arrive? && n.flight[s.move.index].rpc.Message?
    requires n.flight[s.move.index].rpc.id !in n.nodes[n.flight[s.move.index].dst].received.data
    ensures var p := n.flight[s.move.index]; var n' := Apply(cfg, n, s);
      && n'.nodes == n.nodes[p.dst := n'.nodes[p.dst]]
      && n'.nodes[p.dst].received.data.Keys == n.nodes[p.dst].received.data.Keys + {p.rpc.id}
      && (id != p.rpc.id ==>
            Find(n'.nodes[p.dst].received.byTime, id) == Find(n.nodes[p.dst].received.byTime, id))
  {
    hide Coherent, NotAfter;
    var p := n.flight[s.move.index];
    FindAppend(n.nodes[p.dst].received.byTime, Timed(Record(p.rpc.id, p.rpc.hop, p.src, p.rpc.payload), s.at), id);
  }

  lemma DeliveryTogether(cfg: Settings, n0: Net, n: Net, s: Step, origins: map<Id, Peer>)
    requires Together(cfg, n0, n, origins) && Acyclic(EagerGraph(n0)) && Enabled(cfg, n, s) && Delivers(n, s)
    ensures Together(cfg, n0, Apply(cfg, n, s), origins)
    ensures |Held(Apply(cfg, n, s), origins.Keys)| == |Held(n, origins.Keys)| + 1
  {
    hide Sound, Invariant, Apply, Enabled, FirstReceipt, Acyclic, EagerGraph, Held;
    var p := n.flight[s.move.index];
    assert p in n.flight && p.rpc.Message? && p.rpc.id in origins;
    LinksOfCast(n0, origins[p.rpc.id], p.rpc.id);
    var _ := DeliveryIsFirst(cfg, n, s, CastOf(n0, origins[p.rpc.id], p.rpc.id));
    hide Together;
    EnabledDst(cfg, n, s);
    FirstTogether(cfg, n0, n, s, origins);
    ReceiverRecords(cfg, n, s, p.rpc.id);
    OneMoreHeld(n, Apply(cfg, n, s), p.dst, p.rpc.id, origins.Keys);
  }

  // A first receipt, over whatever links.
  lemma FirstTogether(cfg: Settings, n0: Net, n: Net, s: Step, origins: map<Id, Peer>)
    requires Together(cfg, n0, n, origins) && Enabled(cfg, n, s) && Delivers(n, s)
    requires n.flight[s.move.index].rpc.Message? && n.flight[s.move.index].dst in n.nodes
    requires n.flight[s.move.index].rpc.id !in n.nodes[n.flight[s.move.index].dst].received.data
    ensures Together(cfg, n0, Apply(cfg, n, s), origins)
  {
    hide Sound, Invariant, Apply, Enabled, Bystander, FirstReceipt, EagerGraph, Got;
    var n', p := Apply(cfg, n, s), n.flight[s.move.index];
    assert p in n.flight && p.rpc.id in origins;
    var b := CastOf(n0, origins[p.rpc.id], p.rpc.id);
    CastIds(n0, origins[p.rpc.id], p.rpc.id);
    HeldIsGot(n, b, p.dst);
    var rpc := ArrivalIsFirst(cfg, n, s, b);
    StepKeepsSound(cfg, n, s);
    var degree := LargestDegree(n);
    ArrivalLowersWork(cfg, n, s, origins.Keys, degree);
    FirstKeepsLinks(cfg, n0, n, n', b, s.move.index, s.choice.peers, rpc);
    hide OnlyBroadcasts, NoPrunes, SameLinks, CastOf;
    forall id | id in origins ensures Invariant(cfg, n', CastOf(n0, origins[id], id)) {
      if id == p.rpc.id {
        FirstReceiptKeeps(cfg, n, n', b, s.move.index, s.choice.peers, rpc);
      } else {
        ReceiverRecords(cfg, n, s, id);
        CastIds(n0, origins[id], id);
        FirstIsBystander(n, n', b, s.move.index, s.choice.peers, rpc, CastOf(n0, origins[id], id));
        BystanderKeeps(cfg, n, n', CastOf(n0, origins[id], id));
      }
    }
  }

  lemma LinksOfCast(n: Net, origin: Peer, id: Id)
    ensures CastOf(n, origin, id).links == EagerGraph(n)
  {}

  lemma CastIds(n: Net, origin: Peer, id: Id)
    ensures CastOf(n, origin, id).id == id && CastOf(n, origin, id).origin == origin
  {}

  lemma EnabledDst(cfg: Settings, n: Net, s: Step)
    requires Enabled(cfg, n, s) && s.move.Arrive?
    ensures s.move.index < |n.flight| && n.flight[s.move.index].dst in n.nodes
  {}

  lemma FirstKeepsLinks(
    cfg: Settings, n0: Net, n: Net, n': Net, b: Cast, i: nat, order: seq<Peer>, rpc: Rpc)
    requires SameLinks(n0, n) && NoPrunes(n) && Invariant(cfg, n, b) && FirstReceipt(n, n', b, i, order, rpc)
    ensures SameLinks(n0, n') && NoPrunes(n')
  {
    hide Links, Rooted, Find;
    FirstKeepsShape(n, n', b, i, order, rpc);
    forall p | p in n'.flight ensures !p.rpc.Prune? {
      assert p.rpc.Prune? ==> PruneEnRoute(n', p.src, p.dst) by {
        assert p.rpc.Prune? ==> p == Packet(p.src, p.dst, Rpc.Prune);
      }
    }
  }

  lemma OneMoreHeld(n: Net, n': Net, x: Peer, id: Id, ids: set<Id>)
    requires x in n.nodes && x in n'.nodes && n'.nodes == n.nodes[x := n'.nodes[x]]
    requires id in ids && id !in n.nodes[x].received.data
    requires n'.nodes[x].received.data.Keys == n.nodes[x].received.data.Keys + {id}
    ensures |Held(n', ids)| == |Held(n, ids)| + 1
  {
    assert (x, id) !in Held(n, ids);
    assert Held(n', ids) == Held(n, ids) + {(x, id)};
  }

  // -- Publications --------------------------------------------------------------------------

  lemma MayStart(cfg: Settings, n0: Net, n: Net, origins: map<Id, Peer>, origin: Peer, id: Id)
    requires Settled(n0) && Together(cfg, n0, n, origins) && Fresher(n, origin, id)
    ensures Startable(n, origin, id) && CastOf(n, origin, id) == CastOf(n0, origin, id)
  {
    hide Sound, EachFollowed, OnlyBroadcasts, Symmetric;
    assert CastOf(n, origin, id) == CastOf(n0, origin, id);
    LinksAreSymmetric(n0, origin, id);
  }

  // An id followed is no longer new.
  lemma NotYet(cfg: Settings, n0: Net, n: Net, origins: map<Id, Peer>, origin: Peer, id: Id)
    requires Together(cfg, n0, n, origins) && Fresher(n, origin, id)
    ensures id !in origins
  {
    if id in origins {
      var b := CastOf(n0, origins[id], id);
      OriginGot(cfg, n, b);
      HeldIsGot(n, b, b.origin);
    }
  }

  lemma OriginGot(cfg: Settings, n: Net, b: Cast)
    requires Invariant(cfg, n, b)
    ensures Got(n, b, b.origin) && b.origin in n.nodes
  {
    hide Find, Links;
  }

  lemma PublisherRecords(cfg: Settings, n: Net, s: Step, id: Id)
    requires AllSound(n) && Enabled(cfg, n, s) && s.move.Local? && s.move.input.Publish?
    requires Publishable(n.nodes[s.move.node], s.move.input.id)
    ensures var x, k := s.move.node, s.move.input.id; var n' := Apply(cfg, n, s);
      && n'.nodes == n.nodes[x := n'.nodes[x]]
      && n'.nodes[x].received.data.Keys == n.nodes[x].received.data.Keys + {k}
      && (id != k ==> Find(n'.nodes[x].received.byTime, id) == Find(n.nodes[x].received.byTime, id))
  {
    hide Coherent, NotAfter, Enumerates;
    var t := n.nodes[s.move.node];
    FindAppend(t.received.byTime, Timed(Record(s.move.input.id, 0, t.local, s.move.input.payload), s.at), id);
  }

  // Sending copies of one message is nothing to the others.
  lemma SendingIsBystander(n: Net, n': Net, x: Peer, sent: seq<Packet>, r: Receipt, c: Cast)
    requires x in n.nodes && x in n'.nodes && n'.nodes == n.nodes[x := n'.nodes[x]]
    requires n'.nodes[x].eager == n.nodes[x].eager && n'.nodes[x].lazy == n.nodes[x].lazy
    requires Find(n'.nodes[x].received.byTime, c.id) == Find(n.nodes[x].received.byTime, c.id)
    requires n'.flight == n.flight + sent && forall q :: q in sent ==> q.rpc.Message? && q.rpc.id != c.id
    requires n'.log == n.log + [r] && r.id != c.id
    ensures Bystander(n, n', c)
  {
    hide Find, Rank, Total;
    forall y, z ensures Copies(n', c.id, y, z) == Copies(n, c.id, y, z) {
      TotalConcat(n.flight, sent, IsCopy(c.id, y, z));
      TotalZero(sent, IsCopy(c.id, y, z));
    }
    forall y ensures Rank(n'.log, y, c.id) == Rank(n.log, y, c.id) {
      RankAppend(n.log, r, y, c.id);
    }
  }

  lemma PublicationIsBystander(cfg: Settings, n: Net, s: Step, origin: Peer, id: Id, payload: Bytes, c: Cast)
    requires Startable(n, origin, id) && Enabled(cfg, n, s) && s.move == Local(origin, Publish(id, payload))
    requires c.id != id
    ensures Bystander(n, Apply(cfg, n, s), c)
  {
    assert origin in n.nodes && Publishable(n.nodes[origin], id) && AllSound(n);
    hide AllSound, Apply, Enabled, Symmetric, Find, Bystander, Sends;
    var n', rpc := Apply(cfg, n, s), Message(id, 1, payload);
    PublicationApplies(cfg, n, s, origin, id, payload);
    PublisherRecords(cfg, n, s, c.id);
    FanPackets(origin, s.choice.peers, rpc);
    hide Startable;
    SendingIsBystander(n, n', origin, Sends(origin, Fan(s.choice.peers, rpc)), n'.log[|n.log|], c);
  }

  lemma PublicationTogether(
    cfg: Settings, n0: Net, n: Net, s: Step, origins: map<Id, Peer>, origin: Peer, id: Id, payload: Bytes)
    requires Settled(n0) && Together(cfg, n0, n, origins) && Enabled(cfg, n, s)
    requires s.move == Local(origin, Publish(id, payload)) && Fresher(n, origin, id)
    ensures Together(cfg, n0, Apply(cfg, n, s), origins[id := origin]) && id !in origins
    ensures |Held(Apply(cfg, n, s), origins.Keys + {id})| == |Held(n, origins.Keys)| + 1
  {
    hide Sound, Invariant, Apply, Enabled, Bystander, Settled, Held, CastOf, Startable;
    var n' := Apply(cfg, n, s);
    NotYet(cfg, n0, n, origins, origin, id);
    MayStart(cfg, n0, n, origins, origin, id);
    PublicationStarts(cfg, n, s, origin, id, payload);
    StepKeepsSound(cfg, n, s);
    PublisherRecords(cfg, n, s, id);
    OneMoreHeld(n, n', origin, id, origins.Keys + {id});
    NobodyHolds(n, id, origins.Keys);
    PublicationSends(cfg, n0, n, s, origins, origin, id, payload);
    hide OnlyBroadcasts, NoPrunes, SameLinks, Fresher;
    var noted := origins[id := origin];
    forall k | k in noted ensures Invariant(cfg, n', CastOf(n0, noted[k], k)) {
      if k != id {
        CastIds(n0, origins[k], k);
        PublicationIsBystander(cfg, n, s, origin, id, payload, CastOf(n0, origins[k], k));
        BystanderKeeps(cfg, n, n', CastOf(n0, origins[k], k));
      }
    }
  }

  lemma NobodyHolds(n: Net, id: Id, ids: set<Id>)
    requires forall x :: x in n.nodes ==> id !in n.nodes[x].received.data
    ensures Held(n, ids + {id}) == Held(n, ids)
  {}

  lemma PublicationSends(
    cfg: Settings, n0: Net, n: Net, s: Step, origins: map<Id, Peer>, origin: Peer, id: Id, payload: Bytes)
    requires SameLinks(n0, n) && NoPrunes(n) && OnlyBroadcasts(n, origins.Keys) && Startable(n, origin, id)
    requires Enabled(cfg, n, s) && s.move == Local(origin, Publish(id, payload))
    ensures SameLinks(n0, Apply(cfg, n, s)) && NoPrunes(Apply(cfg, n, s))
    ensures OnlyBroadcasts(Apply(cfg, n, s), origins[id := origin].Keys)
  {
    assert origin in n.nodes;
    hide Apply, Enabled, Find, Startable, Sends, SameLinks, NoPrunes, OnlyBroadcasts;
    var n', rpc := Apply(cfg, n, s), Message(id, 1, payload);
    PublicationApplies(cfg, n, s, origin, id, payload);
    FanPackets(origin, s.choice.peers, rpc);
    OneNodeSameLinks(n0, n, n', origin);
    CopiesOnly(n, n', Sends(origin, Fan(s.choice.peers, rpc)), origins, origin, id);
  }

  lemma CopiesOnly(n: Net, n': Net, sent: seq<Packet>, origins: map<Id, Peer>, origin: Peer, id: Id)
    requires NoPrunes(n) && OnlyBroadcasts(n, origins.Keys)
    requires n'.flight == n.flight + sent && forall q :: q in sent ==> q.rpc.Message? && q.rpc.id == id
    ensures NoPrunes(n') && OnlyBroadcasts(n', origins[id := origin].Keys)
  {}

  lemma OneNodeSameLinks(n0: Net, n: Net, n': Net, x: Peer)
    requires SameLinks(n0, n) && x in n.nodes && x in n'.nodes && n'.nodes == n.nodes[x := n'.nodes[x]]
    requires n'.nodes[x].eager == n.nodes[x].eager && n'.nodes[x].lazy == n.nodes[x].lazy
    ensures SameLinks(n0, n')
  {}

  // -- Every run ------------------------------------------------------------------------------

  lemma StartTogether(cfg: Settings, n: Net)
    requires Settled(n)
    ensures Together(cfg, n, n, map[]) && |Held(n, {})| == 0
  {
    hide Sound;
    assert Held(n, {}) == {};
  }

  lemma {:induction false} RunTogether(cfg: Settings, n: Net, steps: seq<Step>)
    requires Settled(n) && Acyclic(EagerGraph(n)) && Legal(cfg, n, steps) && Broadcasts(cfg, n, steps)
    ensures Together(cfg, n, Run(cfg, n, steps), Origins(steps))
    ensures Deliveries(cfg, n, steps) + |Origins(steps)| == |Held(Run(cfg, n, steps), Origins(steps).Keys)|
  {
    if steps == [] {
      StartTogether(cfg, n);
    } else {
      var init, last := steps[..|steps| - 1], steps[|steps| - 1];
      RunTogether(cfg, n, init);
      hide Together, Apply, Enabled, Acyclic, Settled, Held, Calm, Fresher;
      OneMoreStep(cfg, n, Run(cfg, n, init), last, Origins(init));
    }
  }

  lemma OneMoreStep(cfg: Settings, n0: Net, n: Net, s: Step, origins: map<Id, Peer>)
    requires Settled(n0) && Acyclic(EagerGraph(n0)) && Together(cfg, n0, n, origins)
    requires Enabled(cfg, n, s) && Steady(cfg, n, s)
    ensures Together(cfg, n0, Apply(cfg, n, s), Noted(origins, s))
    ensures (if Delivers(n, s) then 1 else 0) + |Noted(origins, s)| - |origins|
            == |Held(Apply(cfg, n, s), Noted(origins, s).Keys)| - |Held(n, origins.Keys)|
  {
    hide Together, Apply, Enabled, Acyclic, Settled, Held, Fresher, Calm, Delivers;
    if s.move.Local? && s.move.input.Publish? {
      CalmPublishesNothing(cfg, n, s);
      PublicationTogether(cfg, n0, n, s, origins, s.move.node, s.move.input.id, s.move.input.payload);
      OneMoreNoted(origins, s.move.input.id, s.move.node);
      NoDelivery(n, s);
    } else {
      CalmTogether(cfg, n0, n, s, origins);
    }
  }

  lemma CalmPublishesNothing(cfg: Settings, n: Net, s: Step)
    requires s.move.Local? && s.move.input.Publish?
    ensures !Calm(cfg, n, s)
  {}

  lemma NoDelivery(n: Net, s: Step)
    requires s.move.Local?
    ensures !Delivers(n, s)
  {}

  lemma OneMoreNoted(origins: map<Id, Peer>, id: Id, origin: Peer)
    requires id !in origins
    ensures origins[id := origin].Keys == origins.Keys + {id} && |origins[id := origin]| == |origins| + 1
  {
    assert origins[id := origin].Keys == origins.Keys + {id};
    assert |origins[id := origin].Keys| == |origins.Keys| + 1;
  }

  lemma CalmTogether(cfg: Settings, n0: Net, n: Net, s: Step, origins: map<Id, Peer>)
    requires Acyclic(EagerGraph(n0)) && Together(cfg, n0, n, origins) && Enabled(cfg, n, s) && Calm(cfg, n, s)
    ensures Together(cfg, n0, Apply(cfg, n, s), origins)
    ensures |Held(Apply(cfg, n, s), origins.Keys)| == |Held(n, origins.Keys)| + if Delivers(n, s) then 1 else 0
  {
    assert OnlyBroadcasts(n, origins.Keys);
    hide Together, Apply, Enabled, Acyclic, Held, Calm, OnlyBroadcasts, Delivers;
    CalmIsOneOrTheOther(cfg, n, s, origins.Keys);
    if Delivers(n, s) {
      DeliveryTogether(cfg, n0, n, s, origins);
    } else {
      QuietTogether(cfg, n0, n, s, origins);
    }
  }

  // -- When nothing is left to deliver ----------------------------------------------------------

  lemma GotSpreads(cfg: Settings, n: Net, b: Cast, x: Peer, y: Peer)
    requires Invariant(cfg, n, b) && Quiescent(n) && Edge(b.links, x, y) && Got(n, b, x)
    ensures Got(n, b, y)
  {
    hide Find, Rank, Copies, Quiescent;
    NothingUnderWay(n, b, x, y);
    assert Link(cfg, n, b, x, y);
  }

  lemma {:induction false} GotAlong(cfg: Settings, n: Net, b: Cast, p: seq<Peer>)
    requires Invariant(cfg, n, b) && Quiescent(n) && Path(b.links, p) && Got(n, b, p[0])
    ensures Got(n, b, p[|p| - 1])
  {
    var k := |p| - 1;
    if k > 0 {
      Shorter(b.links, p);
      hide *;
      GotAlong(cfg, n, b, p[..k]);
      GotSpreads(cfg, n, b, p[k - 1], p[k]);
    }
  }

  lemma EveryoneHolds(cfg: Settings, n0: Net, n: Net, origins: map<Id, Peer>, root: Peer, id: Id, x: Peer)
    requires Together(cfg, n0, n, origins) && Quiescent(n) && id in origins && x in n0.nodes
    requires Undirected(EagerGraph(n0)) && Connected(EagerGraph(n0), root)
    ensures Holds(n, x, id)
  {
    hide Sound, Invariant, Quiescent, Undirected, Connected, OnlyBroadcasts, NoPrunes, CastOf, Path, Got;
    var b := CastOf(n0, origins[id], id);
    CastIds(n0, origins[id], id);
    LinksOfCast(n0, origins[id], id);
    OriginGot(cfg, n, b);
    HeldIsGot(n, b, x);
    ConnectedFromAll(EagerGraph(n0), root, b.origin, x);
    ReachGot(cfg, n, b, x);
  }

  lemma ReachGot(cfg: Settings, n: Net, b: Cast, x: Peer)
    requires Invariant(cfg, n, b) && Quiescent(n) && Got(n, b, b.origin) && Reaches(b.links, b.origin, x)
    ensures Got(n, b, x)
  {
    hide Invariant, Quiescent, Got;
    var p :| Path(b.links, p) && p[0] == b.origin && p[|p| - 1] == x;
    GotAlong(cfg, n, b, p);
  }

  lemma {:induction false} AllHeld(n: Net, ids: set<Id>)
    requires forall x, i :: x in n.nodes && i in ids ==> Holds(n, x, i)
    ensures |Held(n, ids)| == |ids| * |n.nodes|
  {
    if ids == {} {
      assert Held(n, ids) == {};
    } else {
      var i :| i in ids;
      AllHeld(n, ids - {i});
      OneIdHeld(n, ids, i);
      assert |ids| * |n.nodes| == (|ids| - 1) * |n.nodes| + |n.nodes|;
    }
  }

  lemma OneIdHeld(n: Net, ids: set<Id>, i: Id)
    requires i in ids && forall x :: x in n.nodes ==> Holds(n, x, i)
    ensures |Held(n, ids)| == |Held(n, ids - {i})| + |n.nodes|
  {
    PairUp(n.nodes.Keys, i);
    forall x | x in n.nodes ensures i in n.nodes[x].received.data {
      assert Holds(n, x, i);
    }
    assert Held(n, ids) == Held(n, ids - {i}) + Pairs(n.nodes.Keys, i);
  }

  // In whatever order packets arrive, whoever publishes, and whatever is announced in
  // between; with or without the optimization that prunes.
  lemma TreeIsStable(cfg: Settings, n: Net, steps: seq<Step>, root: Peer)
    requires Settled(n) && Graphs.SpanningTree(EagerGraph(n), root)
    requires Legal(cfg, n, steps) && Broadcasts(cfg, n, steps)
    ensures var m := Run(cfg, n, steps);
      && m.nodes.Keys == n.nodes.Keys
      && (forall x :: x in n.nodes ==> m.nodes[x].eager == n.nodes[x].eager && m.nodes[x].lazy == n.nodes[x].lazy)
      && (forall p :: p in m.flight ==> !p.rpc.Prune?)
      && Deliveries(cfg, n, steps) + |Origins(steps)| == |Held(m, Origins(steps).Keys)|
      && (Quiescent(m) ==>
            && Deliveries(cfg, n, steps) == |Origins(steps)| * (|n.nodes| - 1)
            && forall x, id :: x in n.nodes && id in Origins(steps) ==> Holds(m, x, id))
  {
    hide Legal, Run, Cycle, Undirected, Connected, Broadcasts, Settled, EagerGraph, Held, Quiescent;
    RunTogether(cfg, n, steps);
    var m, origins := Run(cfg, n, steps), Origins(steps);
    assert SameLinks(n, m) && NoPrunes(m);
    hide Together;
    if Quiescent(m) {
      forall x, id | x in n.nodes && id in origins ensures Holds(m, x, id) {
        EveryoneHolds(cfg, n, m, origins, root, id, x);
      }
      AllHeld(m, origins.Keys);
      OnePerNodeButOne(|origins|, |n.nodes|, Deliveries(cfg, n, steps));
    }
  }

  lemma OnePerNodeButOne(k: nat, n: nat, d: nat)
    requires d + k == k * n
    ensures d == k * (n - 1)
  {}

  // What a broadcast over connected links leaves behind carries any later ones.
  lemma TreeServesLaterBroadcasts(
    cfg: Settings, n: Net, first: seq<Step>, origin: Peer, id: Id, payload: Bytes, later: seq<Step>)
    requires Ready(n, origin, id) && Connected(EagerGraph(n), origin) && cfg.optimizeSenderTree
    requires Legal(cfg, n, first) && OneBroadcast(cfg, n, first, origin, id, payload)
    requires Quiescent(Run(cfg, n, first))
    requires Legal(cfg, Run(cfg, n, first), later) && Broadcasts(cfg, Run(cfg, n, first), later)
    ensures var m := Run(cfg, n, first); var m2 := Run(cfg, m, later);
      && m.nodes.Keys == m2.nodes.Keys == n.nodes.Keys
      && (forall x :: x in n.nodes ==> m2.nodes[x].eager == m.nodes[x].eager && m2.nodes[x].lazy == m.nodes[x].lazy)
      && (Quiescent(m2) ==>
            && Deliveries(cfg, m, later) == |Origins(later)| * (|n.nodes| - 1)
            && forall x, k :: x in n.nodes && k in Origins(later) ==> Holds(m2, x, k))
  {
    hide *;
    TreeLeftBehind(cfg, n, first, origin, id, payload);
    TreeIsStable(cfg, Run(cfg, n, first), later, origin);
  }

  lemma TreeLeftBehind(
    cfg: Settings, n: Net, steps: seq<Step>, origin: Peer, id: Id, payload: Bytes)
    requires Ready(n, origin, id) && Connected(EagerGraph(n), origin) && cfg.optimizeSenderTree
    requires Legal(cfg, n, steps) && OneBroadcast(cfg, n, steps, origin, id, payload)
    requires Quiescent(Run(cfg, n, steps))
    ensures Settled(Run(cfg, n, steps)) && Graphs.SpanningTree(EagerGraph(Run(cfg, n, steps)), origin)
    ensures Run(cfg, n, steps).nodes.Keys == n.nodes.Keys
  {
    hide Sound, Legal, Run, FirstFrom, Reaches, Cycle, Connected, OneBroadcast, Edge, Invariant, Ready, Alone, Settled;
    SpanningTreeTheorem(cfg, n, steps, origin, id, payload);
    BroadcastInvariant(cfg, n, steps, origin, id, payload);
    SettledAgain(cfg, Run(cfg, n, steps), CastOf(n, origin, id));
  }

  lemma SettledAgain(cfg: Settings, n: Net, b: Cast)
    requires Invariant(cfg, n, b) && Alone(n, b) && AllSound(n) && Quiescent(n) && Undirected(EagerGraph(n))
    ensures Settled(n)
  {
    hide Sound, Links, Rooted, Undirected;
    forall p | p in n.flight ensures p.rpc.IHave? {
      assert Concerns(p, b) ==> p.dst in n.nodes;
    }
  }

  lemma LinksAreSymmetric(n: Net, origin: Peer, id: Id)
    requires origin in n.nodes && Undirected(EagerGraph(n))
    requires forall x :: x in n.nodes ==> n.nodes[x].eager !! n.nodes[x].lazy
    ensures Symmetric(CastOf(n, origin, id))
  {
    var b := CastOf(n, origin, id);
    forall x, y | x in b.links && y in b.links[x] ensures x != y && y in b.links && x in b.links[y] {
      assert Edge(EagerGraph(n), x, y);
    }
  }
}
