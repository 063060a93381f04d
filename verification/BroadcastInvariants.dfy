/** The invariant of one broadcast over symmetric eager links: the life of each
    link, and first deliveries pointing back towards the origin. */
module BroadcastInvariants {
  import opened Types
  import opened Cache
  import opened TreeSpec
  import opened Network
  import opened Gossip
  import opened Broadcast
  import opened Reach

  // The broadcast being followed, with the links each node starts with.
  datatype Cast = Cast(id: Id, origin: Peer, links: map<Peer, set<Peer>>, lazies: map<Peer, set<Peer>>)

  ghost predicate Symmetric(b: Cast) {
    && b.origin in b.links && b.links.Keys == b.lazies.Keys
    && (forall x, y :: x in b.links && y in b.links[x] ==> x != y && y in b.links && x in b.links[y])
    && (forall x :: x in b.links ==> b.links[x] !! b.lazies[x])
  }

  ghost function CastOf(n: Net, origin: Peer, id: Id): Cast {
    Cast(id, origin, map x | x in n.nodes :: n.nodes[x].eager, map x | x in n.nodes :: n.nodes[x].lazy)
  }

  // Who has the message, from whom first, and in what order it was learned.

  ghost predicate Got(n: Net, b: Cast, x: Peer) {
    x in n.nodes && Find(n.nodes[x].received.byTime, b.id).Some?
  }

  ghost function Parent(n: Net, b: Cast, x: Peer): Peer {
    if Got(n, b, x) then Find(n.nodes[x].received.byTime, b.id).value.item.sender else x
  }

  function Rank(log: seq<Receipt>, x: Peer, id: Id): nat {
    if log == [] then 0
    else
      var last := log[|log| - 1];
      if last.node == x && last.id == id then |log| else Rank(log[..|log| - 1], x, id)
  }

  lemma {:induction false} RankBound(log: seq<Receipt>, x: Peer, id: Id)
    ensures Rank(log, x, id) <= |log|
  {
    if log != [] {
      RankBound(log[..|log| - 1], x, id);
    }
  }

  lemma RankAppend(log: seq<Receipt>, r: Receipt, x: Peer, id: Id)
    ensures Rank(log + [r], x, id) == if r.node == x && r.id == id then |log| + 1 else Rank(log, x, id)
  {
    assert (log + [r])[..|log|] == log;
  }

  // What is in flight along a link.

  function IsCopy(id: Id, x: Peer, y: Peer): Packet -> nat {
    (p: Packet) => if p.rpc.Message? && p.rpc.id == id && p.src == x && p.dst == y then 1 else 0
  }

  ghost function Copies(n: Net, id: Id, x: Peer, y: Peer): nat {
    Total(n.flight, IsCopy(id, x, y))
  }

  ghost predicate PruneEnRoute(n: Net, x: Peer, y: Peer) {
    Packet(x, y, Rpc.Prune) in n.flight
  }

  // Two holders of which neither had the message from the other first.
  ghost predicate Crossed(n: Net, b: Cast, x: Peer, y: Peer) {
    Got(n, b, x) && Got(n, b, y) && Parent(n, b, x) != y && Parent(n, b, y) != x
  }

  // The life of the link from x to y.
  ghost predicate Link(cfg: Settings, n: Net, b: Cast, x: Peer, y: Peer) {
    && x in n.nodes && y in n.nodes
    && Copies(n, b.id, x, y) <= 1
    && (Copies(n, b.id, x, y) == 1 ==>
          Got(n, b, x) && Parent(n, b, x) != y && !(Got(n, b, y) && Parent(n, b, y) == x))
    && (Copies(n, b.id, x, y) == 0 && Got(n, b, x) && Parent(n, b, x) != y ==>
          Got(n, b, y) && (Parent(n, b, y) == x || x !in n.nodes[y].eager || !cfg.optimizeSenderTree))
    && (y !in n.nodes[x].eager || PruneEnRoute(n, x, y) ==> Crossed(n, b, x, y))
  }

  ghost predicate Links(cfg: Settings, n: Net, b: Cast) {
    forall x, y :: x in b.links && y in b.links[x] ==> Link(cfg, n, b, x, y)
  }

  // Prunes, and copies of the message followed; not announcements or other messages.
  predicate Concerns(p: Packet, b: Cast) {
    p.rpc.Prune? || (p.rpc.Message? && p.rpc.id == b.id)
  }

  ghost predicate Shape(n: Net, b: Cast) {
    && n.nodes.Keys == b.links.Keys == b.lazies.Keys
    && (forall x :: x in n.nodes ==>
          && n.nodes[x].eager <= b.links[x]
          && n.nodes[x].eager + n.nodes[x].lazy == b.links[x] + b.lazies[x]
          && n.nodes[x].eager !! n.nodes[x].lazy)
    && (forall p :: p in n.flight && Concerns(p, b) ==> p.src in b.links && p.dst in b.links[p.src])
  }

  // First deliveries point back towards the origin.
  ghost predicate Rooted(n: Net, b: Cast) {
    && Got(n, b, b.origin) && Parent(n, b, b.origin) == b.origin
    && (forall x :: x in n.nodes ==> (Got(n, b, x) <==> Rank(n.log, x, b.id) > 0))
    && (forall x :: x in b.links && Got(n, b, x) && x != b.origin ==>
          Parent(n, b, x) in b.links[x]
          && 0 < Rank(n.log, Parent(n, b, x), b.id) < Rank(n.log, x, b.id))
  }

  ghost predicate Invariant(cfg: Settings, n: Net, b: Cast) {
    Symmetric(b) && Shape(n, b) && Links(cfg, n, b) && Rooted(n, b)
  }

  // -- Bookkeeping of copies ------------------------------------------------------

  lemma {:induction false} FanCopies(src: Peer, order: seq<Peer>, rpc: Rpc, x: Peer, y: Peer)
    requires rpc.Message?
    requires forall i, j :: 0 <= i < j < |order| ==> order[i] != order[j]
    ensures Total(Sends(src, Fan(order, rpc)), IsCopy(rpc.id, x, y)) == if x == src && y in order then 1 else 0
  {
    if order != [] {
      var init, last := order[..|order| - 1], order[|order| - 1];
      assert order == init + [last];
      FanCopies(src, init, rpc, x, y);
      FanInit(src, order, rpc);
      TotalConcat(Sends(src, Fan(init, rpc)), [Packet(src, last, rpc)], IsCopy(rpc.id, x, y));
      TotalOne(Packet(src, last, rpc), IsCopy(rpc.id, x, y));
    }
  }

  lemma CopiesAfter(n: Net, i: nat, sent: seq<Packet>, n': Net, id: Id, x: Peer, y: Peer)
    requires i < |n.flight| && n'.flight == Without(n.flight, i) + sent
    ensures Copies(n', id, x, y) + IsCopy(id, x, y)(n.flight[i]) == Copies(n, id, x, y) + Total(sent, IsCopy(id, x, y))
  {
    TotalWithout(n.flight, i, IsCopy(id, x, y));
    TotalConcat(Without(n.flight, i), sent, IsCopy(id, x, y));
  }

  lemma CopyInFlight(n: Net, p: Packet)
    requires p in n.flight && p.rpc.Message?
    ensures Copies(n, p.rpc.id, p.src, p.dst) > 0
  {
    TotalZero(n.flight, IsCopy(p.rpc.id, p.src, p.dst));
    assert IsCopy(p.rpc.id, p.src, p.dst)(p) > 0;
  }

  // -- A first receipt ------------------------------------------------------------

  // y gets its first copy from x and pushes it to its other eager peers.
  ghost predicate FirstReceipt(n: Net, n': Net, b: Cast, i: nat, order: seq<Peer>, rpc: Rpc) {
    && i < |n.flight| && n.flight[i].rpc.Message? && n.flight[i].rpc.id == b.id && n.flight[i].dst in n.nodes
    && var p := n.flight[i]; var y := p.dst;
    && y in n'.nodes && !Got(n, b, y)
    && n'.nodes == n.nodes[y := n'.nodes[y]]
    && n'.nodes[y].eager == n.nodes[y].eager && n'.nodes[y].lazy == n.nodes[y].lazy
    && Got(n', b, y) && Parent(n', b, y) == p.src
    && rpc.Message? && rpc.id == b.id && Enumerates(order, n.nodes[y].eager - {p.src})
    && n'.flight == Without(n.flight, i) + Sends(y, Fan(order, rpc))
    && |n'.log| == |n.log| + 1 && n'.log[..|n.log|] == n.log
    && n'.log[|n.log|].node == y && n'.log[|n.log|].id == b.id
  }

  lemma FirstKeepsShape(n: Net, n': Net, b: Cast, i: nat, order: seq<Peer>, rpc: Rpc)
    requires Symmetric(b) && Shape(n, b) && FirstReceipt(n, n', b, i, order, rpc)
    ensures Shape(n', b)
    ensures forall x, y :: PruneEnRoute(n', x, y) ==> PruneEnRoute(n, x, y)
  {
    var y := n.flight[i].dst;
    assert n.flight[i] in n.flight;
    forall q | q in n'.flight
      ensures Concerns(q, b) ==> q.src in b.links && q.dst in b.links[q.src]
      ensures q.rpc.Prune? ==> q in n.flight
    {
      if q in Without(n.flight, i) {
        WithoutMembers(n.flight, i, q);
      } else {
        SendsMembers(y, Fan(order, rpc), q);
        FanMembers(order, rpc, Notify(q.dst, q.rpc));
      }
    }
  }

  lemma FirstCopies(n: Net, n': Net, b: Cast, i: nat, order: seq<Peer>, rpc: Rpc, u: Peer, v: Peer)
    requires FirstReceipt(n, n', b, i, order, rpc)
    ensures Copies(n', b.id, u, v) + (if u == n.flight[i].src && v == n.flight[i].dst then 1 else 0)
         == Copies(n, b.id, u, v)
            + if u == n.flight[i].dst && v in n.nodes[u].eager && v != n.flight[i].src then 1 else 0
  {
    CopiesAfter(n, i, Sends(n.flight[i].dst, Fan(order, rpc)), n', b.id, u, v);
    FanCopies(n.flight[i].dst, order, rpc, u, v);
  }

  lemma FirstKeepsLink(cfg: Settings, n: Net, n': Net, b: Cast, i: nat, order: seq<Peer>, rpc: Rpc, u: Peer, v: Peer)
    requires Invariant(cfg, n, b) && FirstReceipt(n, n', b, i, order, rpc) && Shape(n', b)
    requires forall x, y :: PruneEnRoute(n', x, y) ==> PruneEnRoute(n, x, y)
    requires u in b.links && v in b.links[u]
    ensures Link(cfg, n', b, u, v)
  {
    hide Enumerates, Sends, Total, Copies, Find, Without, Rank;
    var x, y := n.flight[i].src, n.flight[i].dst;
    assert n.flight[i] in n.flight;
    CopyInFlight(n, n.flight[i]);
    FirstCopies(n, n', b, i, order, rpc, u, v);
    assert Link(cfg, n, b, u, v) && Link(cfg, n, b, x, y);
    assert forall z :: z != y ==> (Got(n', b, z) == Got(n, b, z) && Parent(n', b, z) == Parent(n, b, z));
  }

  lemma FirstKeepsRooted(n: Net, n': Net, b: Cast, i: nat, order: seq<Peer>, rpc: Rpc)
    requires Rooted(n, b) && FirstReceipt(n, n', b, i, order, rpc)
    requires n.nodes.Keys == b.links.Keys
    requires n.flight[i].src in b.links[n.flight[i].dst] && Got(n, b, n.flight[i].src)
    ensures Rooted(n', b)
  {
    hide Enumerates, Sends, Total, Find, Without, Rank;
    var x, y := n.flight[i].src, n.flight[i].dst;
    forall z ensures Rank(n'.log, z, b.id) == if z == y then |n.log| + 1 else Rank(n.log, z, b.id) {
      RankAppend(n.log, n'.log[|n.log|], z, b.id);
      assert n'.log == n.log + [n'.log[|n.log|]];
    }
    RankBound(n.log, x, b.id);
    assert forall z :: z != y ==> (Got(n', b, z) == Got(n, b, z) && Parent(n', b, z) == Parent(n, b, z));
  }

  // -- Any other arrival ----------------------------------------------------------

  // A duplicate or a prune from x at y: x is demoted, if it was eager at all.
  ghost predicate Demotion(cfg: Settings, n: Net, n': Net, b: Cast, i: nat, sent: seq<Packet>) {
    && i < |n.flight| && n.flight[i].dst in n.nodes && Concerns(n.flight[i], b)
    && var p := n.flight[i]; var x, y := p.src, p.dst;
    && y in n'.nodes
    && (p.rpc.Message? ==> Got(n, b, y))
    && n'.nodes == n.nodes[y := n'.nodes[y]]
    && n'.nodes[y].received.byTime == n.nodes[y].received.byTime
    && ((n'.nodes[y].eager == n.nodes[y].eager && n'.nodes[y].lazy == n.nodes[y].lazy)
        || (n'.nodes[y].eager == n.nodes[y].eager - {x} && n'.nodes[y].lazy == n.nodes[y].lazy + {x}))
    && (p.rpc.Message? && cfg.optimizeSenderTree ==> x !in n'.nodes[y].eager)
    && n'.flight == Without(n.flight, i) + sent
    && (sent == [] || (p.rpc.Message? && sent == [Packet(y, x, Rpc.Prune)]))
    && n'.log == n.log
  }

  lemma DemotionCrossed(cfg: Settings, n: Net, n': Net, b: Cast, i: nat, sent: seq<Packet>)
    requires Invariant(cfg, n, b) && Demotion(cfg, n, n', b, i, sent)
    ensures Crossed(n, b, n.flight[i].src, n.flight[i].dst)
  {
    hide Sends, Total, Copies, Find, Without, Rank;
    var p := n.flight[i];
    assert p in n.flight;
    assert Link(cfg, n, b, p.src, p.dst);
    if p.rpc.Message? {
      CopyInFlight(n, p);
    } else {
      assert p == Packet(p.src, p.dst, Rpc.Prune);
    }
  }

  lemma DemotionKeepsShape(cfg: Settings, n: Net, n': Net, b: Cast, i: nat, sent: seq<Packet>)
    requires Symmetric(b) && Shape(n, b) && Demotion(cfg, n, n', b, i, sent)
    ensures Shape(n', b)
    ensures forall u, v :: PruneEnRoute(n', u, v) ==>
              PruneEnRoute(n, u, v) || (u == n.flight[i].dst && v == n.flight[i].src)
  {
    assert n.flight[i] in n.flight;
    forall q | q in n'.flight ensures q in n.flight || q in sent {
      if q in Without(n.flight, i) {
        WithoutMembers(n.flight, i, q);
      }
    }
  }

  lemma DemotionCopies(cfg: Settings, n: Net, n': Net, b: Cast, i: nat, sent: seq<Packet>, u: Peer, v: Peer)
    requires Demotion(cfg, n, n', b, i, sent)
    ensures var p := n.flight[i];
      Copies(n', b.id, u, v) + (if p.rpc.Message? && u == p.src && v == p.dst then 1 else 0) == Copies(n, b.id, u, v)
  {
    CopiesAfter(n, i, sent, n', b.id, u, v);
    if sent == [] {
      TotalNone(IsCopy(b.id, u, v));
    } else {
      TotalOne(sent[0], IsCopy(b.id, u, v));
    }
  }

  lemma DemotionKeepsLink(cfg: Settings, n: Net, n': Net, b: Cast, i: nat, sent: seq<Packet>, u: Peer, v: Peer)
    requires Link(cfg, n, b, u, v) && Demotion(cfg, n, n', b, i, sent)
    requires Crossed(n, b, n.flight[i].src, n.flight[i].dst) && n.flight[i].src != n.flight[i].dst
    requires PruneEnRoute(n', u, v) ==> PruneEnRoute(n, u, v) || (u == n.flight[i].dst && v == n.flight[i].src)
    ensures Link(cfg, n', b, u, v)
  {
    hide Sends, Total, Copies, Find, Without, PruneEnRoute;
    DemotionCopies(cfg, n, n', b, i, sent, u, v);
    assert forall z :: Got(n', b, z) == Got(n, b, z) && Parent(n', b, z) == Parent(n, b, z);
  }

  lemma DemotionKeepsRooted(cfg: Settings, n: Net, n': Net, b: Cast, i: nat, sent: seq<Packet>)
    requires Rooted(n, b) && Demotion(cfg, n, n', b, i, sent)
    ensures Rooted(n', b)
  {
    hide Rank, Find;
    assert forall z :: Got(n', b, z) == Got(n, b, z) && Parent(n', b, z) == Parent(n, b, z);
  }

  // -- Steps that are not about this message ------------------------------------------

  // Nothing changes that the invariant looks at.
  ghost predicate Bystander(n: Net, n': Net, b: Cast) {
    && n'.nodes.Keys == n.nodes.Keys
    && (forall x :: x in n.nodes ==> n'.nodes[x].eager == n.nodes[x].eager && n'.nodes[x].lazy == n.nodes[x].lazy)
    && (forall x :: Got(n', b, x) == Got(n, b, x) && Parent(n', b, x) == Parent(n, b, x))
    && (forall x :: Rank(n'.log, x, b.id) == Rank(n.log, x, b.id))
    && (forall x, y :: Copies(n', b.id, x, y) == Copies(n, b.id, x, y))
    && (forall p :: p in n'.flight && Concerns(p, b) ==> p in n.flight)
  }

  lemma BystanderKeeps(cfg: Settings, n: Net, n': Net, b: Cast)
    requires Invariant(cfg, n, b) && Bystander(n, n', b)
    ensures Invariant(cfg, n', b)
  {
    BystanderKeepsShape(n, n', b);
    BystanderKeepsRooted(n, n', b);
    hide Bystander, Shape, Rooted, Symmetric, Link;
    forall x, y | x in b.links && y in b.links[x] ensures Link(cfg, n', b, x, y) {
      assert Link(cfg, n, b, x, y);
      BystanderKeepsLink(cfg, n, n', b, x, y);
    }
  }

  lemma BystanderKeepsShape(n: Net, n': Net, b: Cast)
    requires Shape(n, b) && Bystander(n, n', b)
    ensures Shape(n', b)
  {
    hide Got, Parent, Rank, Copies;
  }

  lemma BystanderKeepsRooted(n: Net, n': Net, b: Cast)
    requires Rooted(n, b) && Bystander(n, n', b)
    ensures Rooted(n', b)
  {
    hide Got, Parent, Rank, Copies;
  }

  lemma BystanderKeepsLink(cfg: Settings, n: Net, n': Net, b: Cast, x: Peer, y: Peer)
    requires Link(cfg, n, b, x, y) && Bystander(n, n', b)
    ensures Link(cfg, n', b, x, y)
  {
    hide Got, Parent, Rank, Copies;
    assert PruneEnRoute(n', x, y) ==> PruneEnRoute(n, x, y);
  }

  lemma QuietIsBystander(cfg: Settings, n: Net, s: Step, b: Cast)
    requires Enabled(cfg, n, s) && Quiet(cfg, n, s)
    ensures Bystander(n, Apply(cfg, n, s), b)
  {
    hide Calm, Apply, Find, Rank, Total;
    var sent := QuietStep(cfg, n, s);
    var n' := Apply(cfg, n, s);
    forall x, y ensures Copies(n', b.id, x, y) == Copies(n, b.id, x, y) {
      QuietTotal(n, s, sent, IsCopy(b.id, x, y));
    }
    forall p | p in n'.flight && Concerns(p, b) ensures p in n.flight {
      if s.move.Arrive? && p in Rest(n, s.move) {
        WithoutMembers(n.flight, s.move.index, p);
      }
    }
  }

  // -- The whole run ----------------------------------------------------------------

  // The message followed is the only one in flight.
  ghost predicate Alone(n: Net, b: Cast) {
    OnlyBroadcasts(n, {b.id})
  }

  lemma CalmKeepsInvariant(cfg: Settings, n: Net, s: Step, b: Cast)
    requires AllSound(n) && Enabled(cfg, n, s) && Calm(cfg, n, s) && Invariant(cfg, n, b) && Alone(n, b)
    ensures Invariant(cfg, Apply(cfg, n, s), b) && Alone(Apply(cfg, n, s), b)
  {
    hide Sound, Invariant, Apply, Enabled, Calm, OnlyBroadcasts;
    CalmIsOneOrTheOther(cfg, n, s, {b.id});
    var degree := LargestDegree(n);
    if Delivers(n, s) {
      ArrivalKeepsInvariant(cfg, n, s, b);
      ArrivalLowersWork(cfg, n, s, {b.id}, degree);
    } else {
      QuietIsBystander(cfg, n, s, b);
      BystanderKeeps(cfg, n, Apply(cfg, n, s), b);
      QuietKeepsWork(cfg, n, s, {b.id}, degree);
    }
  }

  lemma ArrivalKeepsInvariant(cfg: Settings, n: Net, s: Step, b: Cast)
    requires AllSound(n) && Enabled(cfg, n, s) && Delivers(n, s) && Invariant(cfg, n, b) && Alone(n, b)
    ensures Invariant(cfg, Apply(cfg, n, s), b)
  {
    hide Invariant;
    var i := s.move.index;
    var p := n.flight[i];
    assert p in n.flight;
    OnRecord(n.nodes[p.dst].received, b.id);
    if p.rpc.Message? && !Got(n, b, p.dst) {
      FirstKeepsInvariant(cfg, n, s, b);
    } else {
      DemotionKeepsInvariant(cfg, n, s, b);
    }
  }

  lemma FirstKeepsInvariant(cfg: Settings, n: Net, s: Step, b: Cast)
    requires AllSound(n) && Enabled(cfg, n, s) && s.move.Arrive? && Invariant(cfg, n, b)
    requires var p := n.flight[s.move.index];
      p.rpc.Message? && p.rpc.id == b.id && !Got(n, b, p.dst) && b.id !in n.nodes[p.dst].received.data
    ensures Invariant(cfg, Apply(cfg, n, s), b)
  {
    hide Coherent, NotAfter, Invariant, Apply, Next, Got, FirstReceipt;
    var n', i := Apply(cfg, n, s), s.move.index;
    var rpc := ArrivalIsFirst(cfg, n, s, b);
    FirstReceiptKeeps(cfg, n, n', b, i, s.choice.peers, rpc);
  }

  lemma ArrivalIsFirst(cfg: Settings, n: Net, s: Step, b: Cast) returns (rpc: Rpc)
    requires AllSound(n) && Enabled(cfg, n, s) && s.move.Arrive?
    requires var p := n.flight[s.move.index];
      p.rpc.Message? && p.rpc.id == b.id && !Got(n, b, p.dst) && b.id !in n.nodes[p.dst].received.data
    ensures FirstReceipt(n, Apply(cfg, n, s), b, s.move.index, s.choice.peers, rpc)
  {
    hide Coherent, NotAfter;
    var n', p := Apply(cfg, n, s), n.flight[s.move.index];
    rpc := Message(b.id, NextHop(p.rpc.hop), p.rpc.payload);
    FirstArrival(cfg, n.nodes[p.dst], p.src, b.id, p.rpc.hop, p.rpc.payload, s.at, s.choice);
    hide Next, Find;
    DeliverySends(p.dst, Deliver(b.id, cfg.Open(p.rpc.payload)), s.choice.peers, rpc);
  }

  lemma FirstReceiptKeeps(cfg: Settings, n: Net, n': Net, b: Cast, i: nat, order: seq<Peer>, rpc: Rpc)
    requires Invariant(cfg, n, b) && FirstReceipt(n, n', b, i, order, rpc)
    ensures Invariant(cfg, n', b)
  {
    SenderGot(cfg, n, b, i);
    FirstKeepsRooted(n, n', b, i, order, rpc);
    FirstKeepsShape(n, n', b, i, order, rpc);
    hide FirstReceipt, Rooted, Link, Shape, PruneEnRoute;
    forall u, v | u in b.links && v in b.links[u] ensures Link(cfg, n', b, u, v) {
      FirstKeepsLink(cfg, n, n', b, i, order, rpc, u, v);
    }
  }

  lemma SenderGot(cfg: Settings, n: Net, b: Cast, i: nat)
    requires Invariant(cfg, n, b) && i < |n.flight| && n.flight[i].rpc.Message? && n.flight[i].rpc.id == b.id
    ensures Got(n, b, n.flight[i].src)
    ensures n.flight[i].dst in b.links && n.flight[i].src in b.links[n.flight[i].dst]
  {
    hide Total, Find, Rooted;
    var p := n.flight[i];
    assert p in n.flight;
    CopyInFlight(n, p);
    assert Link(cfg, n, b, p.src, p.dst);
  }

  lemma DemotionKeepsInvariant(cfg: Settings, n: Net, s: Step, b: Cast)
    requires AllSound(n) && Enabled(cfg, n, s) && s.move.Arrive? && Invariant(cfg, n, b)
    requires var p := n.flight[s.move.index];
      p.rpc.Prune? || (p.rpc.Message? && p.rpc.id == b.id && Got(n, b, p.dst) && b.id in n.nodes[p.dst].received.data)
    ensures Invariant(cfg, Apply(cfg, n, s), b)
  {
    hide Coherent, NotAfter, Invariant, Apply, Next, Got, Demotion;
    var sent := ArrivalIsDemotion(cfg, n, s, b);
    DemotionKeeps(cfg, n, Apply(cfg, n, s), b, s.move.index, sent);
  }

  lemma ArrivalIsDemotion(cfg: Settings, n: Net, s: Step, b: Cast) returns (sent: seq<Packet>)
    requires AllSound(n) && Enabled(cfg, n, s) && s.move.Arrive?
    requires var p := n.flight[s.move.index];
      p.rpc.Prune? || (p.rpc.Message? && p.rpc.id == b.id && Got(n, b, p.dst) && b.id in n.nodes[p.dst].received.data)
    ensures Demotion(cfg, n, Apply(cfg, n, s), b, s.move.index, sent)
  {
    hide Coherent, NotAfter;
    var p := n.flight[s.move.index];
    var e := Next(cfg, n.nodes[p.dst], Receive(p.src, p.rpc), s.at, s.choice);
    sent := Sends(p.dst, e.events);
    LaterArrival(cfg, n.nodes[p.dst], p.src, p.rpc, s.at, s.choice);
    if e.events != [] {
      SendsOne(p.dst, e.events[0]);
    }
  }

  lemma DemotionKeeps(cfg: Settings, n: Net, n': Net, b: Cast, i: nat, sent: seq<Packet>)
    requires Invariant(cfg, n, b) && Demotion(cfg, n, n', b, i, sent)
    ensures Invariant(cfg, n', b)
  {
    DemotionCrossed(cfg, n, n', b, i, sent);
    assert n.flight[i].src != n.flight[i].dst by {
      assert n.flight[i] in n.flight;
    }
    DemotionKeepsRooted(cfg, n, n', b, i, sent);
    DemotionKeepsShape(cfg, n, n', b, i, sent);
    hide Demotion, Rooted, Link, Shape, PruneEnRoute, Crossed;
    forall u, v | u in b.links && v in b.links[u] ensures Link(cfg, n', b, u, v) {
      assert Link(cfg, n, b, u, v);
      DemotionKeepsLink(cfg, n, n', b, i, sent, u, v);
    }
  }

  // Symmetric eager links within the network, and an id new to it: nobody has it on
  // record, no copy is in flight; no prune either.
  ghost predicate Startable(n: Net, origin: Peer, id: Id) {
    && AllSound(n) && Symmetric(CastOf(n, origin, id))
    && (forall p :: p in n.flight ==> !Concerns(p, CastOf(n, origin, id)))
    && id !in n.nodes[origin].observed.data
    && (forall x :: x in n.nodes ==> id !in n.nodes[x].received.data)
    && (forall r :: r in n.log ==> r.id != id)
  }

  // And nothing but announcements in flight.
  ghost predicate Ready(n: Net, origin: Peer, id: Id) {
    Startable(n, origin, id) && forall p :: p in n.flight ==> p.rpc.IHave?
  }

  lemma {:induction false} NeverLogged(log: seq<Receipt>, x: Peer, id: Id)
    requires forall r :: r in log ==> r.id != id
    ensures Rank(log, x, id) == 0
  {
    if log != [] {
      assert log[|log| - 1] in log;
      NeverLogged(log[..|log| - 1], x, id);
    }
  }

  // The origin has the message, nobody else, and one copy is on each of its links.
  ghost predicate Launched(n: Net, b: Cast) {
    && n.nodes.Keys == b.links.Keys == b.lazies.Keys
    && (forall x :: x in n.nodes ==> n.nodes[x].eager == b.links[x] && n.nodes[x].lazy == b.lazies[x])
    && (forall x :: Got(n, b, x) <==> x == b.origin) && Parent(n, b, b.origin) == b.origin
    && (forall q :: q in n.flight && Concerns(q, b) ==>
          q.src == b.origin && q.dst in b.links[b.origin] && q.rpc.Message?)
    && (forall x, y :: Copies(n, b.id, x, y) == if x == b.origin && y in b.links[b.origin] then 1 else 0)
    && (forall x :: Rank(n.log, x, b.id) > 0 <==> x == b.origin)
  }

  lemma PublicationStarts(cfg: Settings, n: Net, s: Step, origin: Peer, id: Id, payload: Bytes)
    requires Startable(n, origin, id) && Enabled(cfg, n, s) && s.move == Local(origin, Publish(id, payload))
    ensures Invariant(cfg, Apply(cfg, n, s), CastOf(n, origin, id))
  {
    hide Next, Apply, AllSound, Rank;
    PublicationLaunches(cfg, n, s, origin, id, payload);
    LaunchedInvariant(cfg, Apply(cfg, n, s), CastOf(n, origin, id));
  }

  lemma LaunchedInvariant(cfg: Settings, n: Net, b: Cast)
    requires Symmetric(b) && Launched(n, b)
    ensures Invariant(cfg, n, b)
  {
    hide Got, Parent, Copies, Rank;
    assert forall x, y :: !PruneEnRoute(n, x, y);
    forall u, v | u in b.links && v in b.links[u] ensures Link(cfg, n, b, u, v) {}
  }

  lemma PublicationLaunches(cfg: Settings, n: Net, s: Step, origin: Peer, id: Id, payload: Bytes)
    requires Startable(n, origin, id) && Enabled(cfg, n, s) && s.move == Local(origin, Publish(id, payload))
    ensures Launched(Apply(cfg, n, s), CastOf(n, origin, id))
  {
    hide Coherent, NotAfter, IsSearch, Apply, Next, Enumerates, Launched, Rank, Copies, Got, Parent, Find;
    var n', b, order := Apply(cfg, n, s), CastOf(n, origin, id), s.choice.peers;
    PublicationApplies(cfg, n, s, origin, id, payload);
    NobodyGot(n, id);
    assert Enumerates(order, b.links[origin]);
    FirstFan(n, n', b, order, Message(id, 1, payload));
    LogStarts(n.log, n'.log[|n.log|]);
    OnlyOriginGot(n, n', b);
    FactsLaunch(n, n', b);
  }

  // How the publication changed the network.
  lemma PublicationApplies(cfg: Settings, n: Net, s: Step, origin: Peer, id: Id, payload: Bytes)
    requires Startable(n, origin, id) && Enabled(cfg, n, s) && s.move == Local(origin, Publish(id, payload))
    ensures var n' := Apply(cfg, n, s);
      && origin in n'.nodes && n'.nodes == n.nodes[origin := n'.nodes[origin]]
      && n'.nodes[origin].eager == n.nodes[origin].eager && n'.nodes[origin].lazy == n.nodes[origin].lazy
      && Find(n'.nodes[origin].received.byTime, id).Some?
      && Find(n'.nodes[origin].received.byTime, id).value.item.sender == origin
      && n'.flight == n.flight + Sends(origin, Fan(s.choice.peers, Message(id, 1, payload)))
      && |n'.log| == |n.log| + 1 && n'.log == n.log + [n'.log[|n.log|]]
      && n'.log[|n.log|].node == origin && n'.log[|n.log|].id == id
  {
    hide Coherent, NotAfter, IsSearch, Enumerates, Symmetric;
    var _ := PublicationStored(cfg, n.nodes[origin], id, payload, s.at, s.choice);
    hide Next;
  }

  lemma OnlyOriginGot(n: Net, n': Net, b: Cast)
    requires b.origin in n'.nodes && n'.nodes == n.nodes[b.origin := n'.nodes[b.origin]]
    requires forall x :: x in n.nodes ==> Find(n.nodes[x].received.byTime, b.id).None?
    requires Find(n'.nodes[b.origin].received.byTime, b.id).Some?
    requires Find(n'.nodes[b.origin].received.byTime, b.id).value.item.sender == b.origin
    ensures forall x :: Got(n', b, x) <==> x == b.origin
    ensures Parent(n', b, b.origin) == b.origin
  {}

  lemma FactsLaunch(n: Net, n': Net, b: Cast)
    requires b == CastOf(n, b.origin, b.id) && b.origin in n.nodes && b.origin in n'.nodes
    requires n'.nodes == n.nodes[b.origin := n'.nodes[b.origin]]
    requires n'.nodes[b.origin].eager == n.nodes[b.origin].eager && n'.nodes[b.origin].lazy == n.nodes[b.origin].lazy
    requires (forall x :: Got(n', b, x) <==> x == b.origin) && Parent(n', b, b.origin) == b.origin
    requires forall q :: q in n'.flight && Concerns(q, b) ==>
      q.src == b.origin && q.dst in b.links[b.origin] && q.rpc.Message?
    requires forall x, y :: Copies(n', b.id, x, y) == if x == b.origin && y in b.links[b.origin] then 1 else 0
    requires forall x :: Rank(n'.log, x, b.id) > 0 <==> x == b.origin
    ensures Launched(n', b)
  {
    hide Got, Parent, Copies, Rank;
  }

  lemma LogStarts(log: seq<Receipt>, r: Receipt)
    requires forall q :: q in log ==> q.id != r.id
    ensures forall x :: Rank(log + [r], x, r.id) > 0 <==> x == r.node
  {
    forall x ensures Rank(log + [r], x, r.id) > 0 <==> x == r.node {
      RankAppend(log, r, x, r.id);
      NeverLogged(log, x, r.id);
    }
  }

  lemma NobodyGot(n: Net, id: Id)
    requires AllSound(n) && forall x :: x in n.nodes ==> id !in n.nodes[x].received.data
    ensures forall x :: x in n.nodes ==> Find(n.nodes[x].received.byTime, id).None?
  {
    forall x | x in n.nodes ensures Find(n.nodes[x].received.byTime, id).None? {
      OnRecord(n.nodes[x].received, id);
    }
  }

  lemma PublicationStored(cfg: Settings, t: Tree, id: Id, payload: Bytes, now: Instant, c: Choice)
    returns (first: Timed<Bytes>)
    requires Publishable(t, id) && Coherent(t.received)
    ensures var e := Next(cfg, t, Publish(id, payload), now, c);
      && e.tree == t.(received := e.tree.received) && e.events == Fan(c.peers, Message(id, 1, payload))
      && Find(e.tree.received.byTime, id) == Some(first) && first.item.sender == t.local
  {
    first := Timed(Record(id, 0, t.local, payload), now);
    FindAppend(t.received.byTime, first, id);
    OnRecord(t.received, id);
  }

  lemma FirstFan(n: Net, n': Net, b: Cast, order: seq<Peer>, rpc: Rpc)
    requires b.origin in b.links && rpc.Message? && rpc.id == b.id && Enumerates(order, b.links[b.origin])
    requires n'.flight == n.flight + Sends(b.origin, Fan(order, rpc))
    requires forall p :: p in n.flight ==> !Concerns(p, b)
    ensures forall q :: q in n'.flight && Concerns(q, b) ==>
      q.src == b.origin && q.dst in b.links[b.origin] && q.rpc.Message?
    ensures forall x, y :: Copies(n', b.id, x, y) == if x == b.origin && y in b.links[b.origin] then 1 else 0
  {
    var sent := Sends(b.origin, Fan(order, rpc));
    forall x, y ensures Copies(n', b.id, x, y) == if x == b.origin && y in b.links[b.origin] then 1 else 0 {
      FanCopies(b.origin, order, rpc, x, y);
      TotalConcat(n.flight, sent, IsCopy(b.id, x, y));
      TotalZero(n.flight, IsCopy(b.id, x, y));
    }
    FanPackets(b.origin, order, rpc);
  }

  lemma {:induction false} BroadcastInvariant(
    cfg: Settings, n: Net, steps: seq<Step>, origin: Peer, id: Id, payload: Bytes)
    requires Ready(n, origin, id) && Legal(cfg, n, steps) && OneBroadcast(cfg, n, steps, origin, id, payload)
    ensures Invariant(cfg, Run(cfg, n, steps), CastOf(n, origin, id)) && AllSound(Run(cfg, n, steps))
    ensures Alone(Run(cfg, n, steps), CastOf(n, origin, id))
    decreases |steps|
  {
    hide Sound, Invariant, Apply, Enabled, Calm, Alone, CastOf;
    var init, last := steps[..|steps| - 1], steps[|steps| - 1];
    if init == [] {
      PublicationStarts(cfg, n, last, origin, id, payload);
      PublicationAlone(cfg, n, last, origin, id, payload);
      StepKeepsSound(cfg, n, last);
    } else {
      BroadcastInvariant(cfg, n, init, origin, id, payload);
      CalmKeepsInvariant(cfg, Run(cfg, n, init), last, CastOf(n, origin, id));
      StepKeepsSound(cfg, Run(cfg, n, init), last);
    }
  }

  lemma PublicationAlone(cfg: Settings, n: Net, s: Step, origin: Peer, id: Id, payload: Bytes)
    requires Ready(n, origin, id) && Enabled(cfg, n, s) && s.move == Local(origin, Publish(id, payload))
    ensures Alone(Apply(cfg, n, s), CastOf(n, origin, id))
  {
    hide Sound, Apply, Enabled, Enumerates, Symmetric, Sends;
    PublicationApplies(cfg, n, s, origin, id, payload);
    FanPackets(origin, s.choice.peers, Message(id, 1, payload));
  }
}
