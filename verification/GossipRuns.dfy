/** Three guarantees of every run of the network: hop counts stay below the
    number of holders, payloads are the published ones, and nobody a message was
    meant for is left without the message or a copy on its way. */
module GossipRuns {
  import opened Types
  import opened Cache
  import opened TreeSpec
  import opened Network
  import opened Gossip

  // -- Hop bound ----------------------------------------------------------------

  ghost function Holders(n: Net, id: Id): set<Peer> {
    set x | x in n.nodes && id in n.nodes[x].received.data
  }

  // A message in flight has made at most as many hops as its id has holders; a
  // record fewer.
  ghost predicate HopsBounded(n: Net) {
    && (forall p :: p in n.flight && p.rpc.Message? ==> p.rpc.hop <= |Holders(n, p.rpc.id)|)
    && (forall x, id :: Holds(n, x, id) ==> n.nodes[x].received.data[id].item.hop < |Holders(n, id)|)
  }

  lemma HoldersSubset(n: Net, n': Net, id: Id)
    requires n.nodes.Keys == n'.nodes.Keys
    requires forall x :: Holds(n, x, id) ==> Holds(n', x, id)
    ensures Holders(n, id) <= Holders(n', id) <= n'.nodes.Keys
    ensures |Holders(n, id)| <= |Holders(n', id)| <= |n'.nodes|
    ensures (exists x :: Holds(n', x, id) && !Holds(n, x, id)) ==> |Holders(n, id)| < |Holders(n', id)|
  {
    forall x | x in Holders(n, id) ensures x in Holders(n', id) {
      assert Holds(n, x, id);
    }
    Smaller(Holders(n, id), Holders(n', id));
    Smaller(Holders(n', id), n'.nodes.Keys);
    if x :| Holds(n', x, id) && !Holds(n, x, id) {
      Smaller(Holders(n, id), Holders(n', id) - {x});
    }
  }

  lemma StepKeepsHops(cfg: Settings, n: Net, s: Step)
    requires AllSound(n) && Enabled(cfg, n, s) && KeepsHistory(cfg, n, s)
    requires |n.nodes| < U32_LIMIT
    requires HopsBounded(n)
    ensures HopsBounded(Apply(cfg, n, s))
    ensures forall x, id :: Holds(n, x, id) ==> Holds(Apply(cfg, n, s), x, id)
  {
    hide Coherent, NotAfter, Next;
    var n' := Apply(cfg, n, s);
    if s.move.Lose? {
      forall p | p in n'.flight ensures p in n.flight {
        WithoutMembers(n.flight, s.move.index, p);
      }
      assert forall id :: Holders(n', id) == Holders(n, id);
    } else {
      var node, input := Actor(n, s.move), InputOf(n, s.move);
      var t := n.nodes[node];
      SoundLater(t, n.clock, s.at);
      HoldersGrow(cfg, t, input, s.at, s.choice);
      forall id ensures |Holders(n, id)| <= |Holders(n', id)| {
        HoldersSubset(n, n', id);
      }
      forall p | p in n'.flight && p.rpc.Message? ensures p.rpc.hop <= |Holders(n', p.rpc.id)| {
        SentHopBounded(cfg, n, s, p);
      }
      forall x, id | Holds(n', x, id) ensures n'.nodes[x].received.data[id].item.hop < |Holders(n', id)| {
        StoredHopBounded(cfg, n, s, x, id);
      }
    }
  }

  lemma SentHopBounded(cfg: Settings, n: Net, s: Step, p: Packet)
    requires AllSound(n) && Enabled(cfg, n, s) && KeepsHistory(cfg, n, s) && !s.move.Lose?
    requires |n.nodes| < U32_LIMIT && HopsBounded(n)
    requires p in Apply(cfg, n, s).flight && p.rpc.Message?
    ensures p.rpc.hop <= |Holders(Apply(cfg, n, s), p.rpc.id)|
  {
    hide Coherent, NotAfter, Next;
    var n' := Apply(cfg, n, s);
    var node, input := Actor(n, s.move), InputOf(n, s.move);
    var t, e := n.nodes[node], Next(cfg, n.nodes[node], input, s.at, s.choice);
    var id := p.rpc.id;
    SoundLater(t, n.clock, s.at);
    HoldersGrow(cfg, t, input, s.at, s.choice);
    HoldersSubset(n, n', id);
    if p in Rest(n, s.move) {
      if s.move.Arrive? {
        WithoutMembers(n.flight, s.move.index, p);
      }
    } else {
      SendsMembers(node, e.events, p);
      MessagesSent(cfg, t, input, s.at, s.choice, p.dst, id, p.rpc.hop, p.rpc.payload);
      NewHolder(cfg, t, input, s.at, s.choice, p.dst, id, p.rpc.hop, p.rpc.payload);
      if id !in t.received.data {
        assert Holds(n', node, id) && !Holds(n, node, id);
        assert input.Receive? ==> n.flight[s.move.index] in n.flight;
      } else {
        assert Holds(n, node, id);
      }
    }
  }

  // A node that sends a message holds it afterwards.
  lemma NewHolder(cfg: Settings, t: Tree, i: Input, now: Instant, c: Choice, to: Peer, id: Id, hop: Hop, payload: Bytes)
    requires Forwards(t, i, to, id, hop, payload)
    ensures id in Next(cfg, t, i, now, c).tree.received.data
  {}

  lemma StoredHopBounded(cfg: Settings, n: Net, s: Step, x: Peer, id: Id)
    requires AllSound(n) && Enabled(cfg, n, s) && KeepsHistory(cfg, n, s) && !s.move.Lose?
    requires HopsBounded(n) && Holds(Apply(cfg, n, s), x, id)
    ensures Apply(cfg, n, s).nodes[x].received.data[id].item.hop < |Holders(Apply(cfg, n, s), id)|
  {
    hide Coherent, NotAfter, Next;
    var n' := Apply(cfg, n, s);
    var node, input := Actor(n, s.move), InputOf(n, s.move);
    var t := n.nodes[node];
    SoundLater(t, n.clock, s.at);
    HoldersGrow(cfg, t, input, s.at, s.choice);
    HoldersSubset(n, n', id);
    if x == node {
      RecordsStored(cfg, t, input, s.at, s.choice, id);
      var r := n'.nodes[x].received.data[id].item;
      if id in t.received.data {
        assert Holds(n, x, id);
        KeptOrBetter(cfg, t, input, s.at, s.choice, id);
      } else {
        assert Holds(n', x, id) && !Holds(n, x, id);
        assert input.Receive? ==> n.flight[s.move.index] in n.flight;
      }
    } else {
      assert Holds(n, x, id);
    }
  }

  // A record on file is only ever replaced by one with fewer hops.
  lemma KeptOrBetter(cfg: Settings, t: Tree, i: Input, now: Instant, c: Choice, id: Id)
    requires Sound(t, now)
    requires id in t.received.data && id in Next(cfg, t, i, now, c).tree.received.data
    ensures Next(cfg, t, i, now, c).tree.received.data[id].item.hop <= t.received.data[id].item.hop
  {
    match i
    case Receive(from, rpc) =>
      if rpc.IHave? {
        IHavesFrame(t, from, rpc.ihaves, now);
      }
    case Tick => ExpiryExact(t.received, now - cfg.historyWindow);
    case _ =>
  }

  lemma {:induction false} RunKeepsHops(cfg: Settings, n: Net, steps: seq<Step>)
    requires Fresh(n) && Legal(cfg, n, steps) && NoExpiry(cfg, n, steps) && |n.nodes| < U32_LIMIT
    ensures AllSound(Run(cfg, n, steps)) && HopsBounded(Run(cfg, n, steps))
    ensures Run(cfg, n, steps).nodes.Keys == n.nodes.Keys
  {
    hide Coherent, NotAfter, HopsBounded, Next;
    if steps == [] {
      FreshIsSound(n);
      FreshHops(n);
    } else {
      var init, last := steps[..|steps| - 1], steps[|steps| - 1];
      RunKeepsHops(cfg, n, init);
      StepKeepsHops(cfg, Run(cfg, n, init), last);
      StepKeepsSound(cfg, Run(cfg, n, init), last);
    }
  }

  lemma FreshIsSound(n: Net)
    requires Fresh(n)
    ensures AllSound(n)
  {}

  lemma FreshHops(n: Net)
    requires Fresh(n)
    ensures HopsBounded(n)
  {}

  // In every reachable state of a network of fewer than 2^32 nodes, with no
  // expiry but with losses, grafts and better duplicates allowed: no message has
  // made more hops than there are holders, hence nodes, and no record as many; so
  // forwarding the next first receipt cannot wrap the counter.
  lemma HopBound(cfg: Settings, n: Net, steps: seq<Step>)
    requires Fresh(n) && Legal(cfg, n, steps) && NoExpiry(cfg, n, steps) && |n.nodes| < U32_LIMIT
    ensures var m := Run(cfg, n, steps);
      && (forall p :: p in m.flight && p.rpc.Message? ==>
            && p.rpc.hop <= |Holders(m, p.rpc.id)| <= |n.nodes|
            && (p.dst in n.nodes && !Holds(m, p.dst, p.rpc.id) ==> NextHop(p.rpc.hop) == p.rpc.hop + 1))
      && (forall x, id :: Holds(m, x, id) ==> m.nodes[x].received.data[id].item.hop < |Holders(m, id)|)
  {
    hide Coherent, NotAfter, Next, Run, Legal, NoExpiry;
    RunKeepsHops(cfg, n, steps);
    var m := Run(cfg, n, steps);
    forall p | p in m.flight && p.rpc.Message?
      ensures |Holders(m, p.rpc.id)| <= |n.nodes|
      ensures p.dst in n.nodes && !Holds(m, p.dst, p.rpc.id) ==> NextHop(p.rpc.hop) == p.rpc.hop + 1
    {
      HoldersSubset(m, m, p.rpc.id);
      if p.dst in n.nodes && !Holds(m, p.dst, p.rpc.id) {
        Smaller(Holders(m, p.rpc.id), m.nodes.Keys - {p.dst});
      }
    }
  }

  // -- The log -------------------------------------------------------------------------

  // What a node has on record it logged a first receipt of.
  ghost predicate Logged(n: Net) {
    forall x, id :: Holds(n, x, id) ==> exists r :: r in n.log && r.node == x && r.id == id
  }

  // And the other way round, no two entries being about the same node and id.
  ghost predicate OnlyLogged(n: Net) {
    && (forall r :: r in n.log ==> Holds(n, r.node, r.id))
    && (forall i, j :: 0 <= i < j < |n.log| ==> n.log[i].node != n.log[j].node || n.log[i].id != n.log[j].id)
  }

  lemma StepKeepsLogged(cfg: Settings, n: Net, s: Step)
    requires Enabled(cfg, n, s) && Logged(n)
    ensures Logged(Apply(cfg, n, s))
  {
    hide Next, Permits;
    var n' := Apply(cfg, n, s);
    forall x, id | Holds(n', x, id) ensures exists r :: r in n'.log && r.node == x && r.id == id {
      if Holds(n, x, id) {
        var r :| r in n.log && r.node == x && r.id == id;
        assert r in n'.log;
      } else {
        var node, input := Actor(n, s.move), InputOf(n, s.move);
        ReceiptsExact(cfg, n.nodes[node], node, input, s.at, s.choice, id);
        var rs := Receipts(n.nodes[node], node, input, Next(cfg, n.nodes[node], input, s.at, s.choice));
        var r :| r in rs && r.id == id;
        assert r in n'.log;
      }
    }
  }

  lemma StepKeepsOnlyLogged(cfg: Settings, n: Net, s: Step)
    requires Enabled(cfg, n, s) && KeepsHistory(cfg, n, s) && OnlyLogged(n)
    ensures OnlyLogged(Apply(cfg, n, s))
  {
    if !s.move.Lose? {
      var node, input := Actor(n, s.move), InputOf(n, s.move);
      var t, e := n.nodes[node], Next(cfg, n.nodes[node], input, s.at, s.choice);
      hide Next, Permits;
      var rs := Receipts(t, node, input, e);
      HoldersGrow(cfg, t, input, s.at, s.choice);
      ReceiptsExact(cfg, t, node, input, s.at, s.choice, 0);
      assert |rs| <= 1;
      OneMoreEntry(n, Apply(cfg, n, s), node, rs);
    } else {
      assert forall x, id :: Holds(Apply(cfg, n, s), x, id) == Holds(n, x, id);
    }
  }

  lemma OneMoreEntry(n: Net, n': Net, node: Peer, rs: seq<Receipt>)
    requires OnlyLogged(n) && |rs| <= 1 && n'.log == n.log + rs
    requires node in n.nodes && node in n'.nodes && n'.nodes == n.nodes[node := n'.nodes[node]]
    requires n.nodes[node].received.data.Keys <= n'.nodes[node].received.data.Keys
    requires forall r :: r in rs ==>
      r.node == node && r.id !in n.nodes[node].received.data && r.id in n'.nodes[node].received.data
    ensures OnlyLogged(n')
  {
    forall r | r in n'.log ensures Holds(n', r.node, r.id) {
      assert r in n.log ==> Holds(n, r.node, r.id);
    }
    forall i, j | 0 <= i < j < |n'.log|
      ensures n'.log[i].node != n'.log[j].node || n'.log[i].id != n'.log[j].id
    {
      assert n.log[i] in n.log && Holds(n, n.log[i].node, n.log[i].id);
    }
  }

  // In every run the log has an entry for everything on record; without expiry it has
  // exactly one for each node and id on record there, and no others.
  lemma {:induction false} LogIsExact(cfg: Settings, n: Net, steps: seq<Step>)
    requires Fresh(n) && Legal(cfg, n, steps)
    ensures Logged(Run(cfg, n, steps))
    ensures NoExpiry(cfg, n, steps) ==> OnlyLogged(Run(cfg, n, steps))
  {
    hide Apply, Enabled, KeepsHistory;
    if steps != [] {
      var init, last := steps[..|steps| - 1], steps[|steps| - 1];
      LogIsExact(cfg, n, init);
      hide Logged, OnlyLogged;
      StepKeepsLogged(cfg, Run(cfg, n, init), last);
      if NoExpiry(cfg, n, steps) {
        StepKeepsOnlyLogged(cfg, Run(cfg, n, init), last);
      }
    }
  }

  // -- Payload integrity ----------------------------------------------------------

  // Some node published `payload` under `id`.
  ghost predicate Published(log: seq<Receipt>, id: Id, payload: Bytes) {
    exists r :: r in log && r.app.None? && r.id == id && r.payload == payload
  }

  ghost predicate PayloadsPublished(cfg: Settings, n: Net) {
    && (forall p :: p in n.flight && p.rpc.Message? ==> Published(n.log, p.rpc.id, p.rpc.payload))
    && (forall x, id :: Holds(n, x, id) ==> Published(n.log, id, n.nodes[x].received.data[id].item.payload))
    && (forall r :: r in n.log ==> Published(n.log, r.id, r.payload))
    && (forall r :: r in n.log && r.app.Some? ==> r.app.value == cfg.Open(r.payload))
  }

  lemma PublishedLater(log: seq<Receipt>, more: seq<Receipt>, id: Id, payload: Bytes)
    requires Published(log, id, payload)
    ensures Published(log + more, id, payload)
  {
    var r :| r in log && r.app.None? && r.id == id && r.payload == payload;
    assert r in log + more;
  }

  // What an input carries, or the node already has, was published.
  ghost predicate Honest(t: Tree, i: Input, log: seq<Receipt>) {
    && (forall id :: id in t.received.data ==> Published(log, id, t.received.data[id].item.payload))
    && (i.Receive? && i.rpc.Message? ==> Published(log, i.rpc.id, i.rpc.payload))
  }

  lemma TurnKeepsPayloads(cfg: Settings, t: Tree, node: Peer, i: Input, now: Instant, c: Choice, log: seq<Receipt>)
    requires Sound(t, now) && Permits(cfg, t, i, now, c) && Honest(t, i, log)
    ensures var e := Next(cfg, t, i, now, c); var log' := log + Receipts(t, node, i, e);
      && (forall to, id, hop, payload ::
            Notify(to, Message(id, hop, payload)) in e.events ==> Published(log', id, payload))
      && (forall id :: id in e.tree.received.data ==> Published(log', id, e.tree.received.data[id].item.payload))
      && (forall r :: r in Receipts(t, node, i, e) ==> Published(log', r.id, r.payload))
      && (forall r :: r in Receipts(t, node, i, e) && r.app.Some? ==> r.app.value == cfg.Open(r.payload))
  {
    var e := Next(cfg, t, i, now, c);
    var rs := Receipts(t, node, i, e);
    var log' := log + rs;
    forall id, payload | Published(log, id, payload) ensures Published(log', id, payload) {
      PublishedLater(log, rs, id, payload);
    }
    if i.Publish? && Publishable(t, i.id) {
      assert rs[0] in log';
      assert Published(log', i.id, i.payload);
    }
    hide Coherent, NotAfter;
    forall to, id, hop, payload | Notify(to, Message(id, hop, payload)) in e.events
      ensures Published(log', id, payload)
    {
      MessagesSent(cfg, t, i, now, c, to, id, hop, payload);
    }
    forall id | id in e.tree.received.data ensures Published(log', id, e.tree.received.data[id].item.payload) {
      RecordsStored(cfg, t, i, now, c, id);
    }
  }

  lemma StepKeepsPayloads(cfg: Settings, n: Net, s: Step)
    requires AllSound(n) && Enabled(cfg, n, s) && PayloadsPublished(cfg, n)
    ensures PayloadsPublished(cfg, Apply(cfg, n, s))
  {
    hide Coherent, NotAfter, Published, Next;
    var n' := Apply(cfg, n, s);
    if s.move.Lose? {
      forall p | p in n'.flight ensures p in n.flight {
        WithoutMembers(n.flight, s.move.index, p);
      }
      assert forall x, id :: Holds(n', x, id) == Holds(n, x, id);
    } else {
      var node, input := Actor(n, s.move), InputOf(n, s.move);
      var t, e := n.nodes[node], Next(cfg, n.nodes[node], input, s.at, s.choice);
      SoundLater(t, n.clock, s.at);
      assert forall id :: id in t.received.data ==> Holds(n, node, id);
      assert s.move.Arrive? ==> n.flight[s.move.index] in n.flight;
      TurnKeepsPayloads(cfg, t, node, input, s.at, s.choice, n.log);
      forall id, payload | Published(n.log, id, payload) ensures Published(n'.log, id, payload) {
        PublishedLater(n.log, Receipts(t, node, input, e), id, payload);
      }
      forall p | p in n'.flight && p.rpc.Message? ensures Published(n'.log, p.rpc.id, p.rpc.payload) {
        if p in Rest(n, s.move) {
          if s.move.Arrive? {
            WithoutMembers(n.flight, s.move.index, p);
          }
        } else {
          SendsMembers(node, e.events, p);
        }
      }
      forall x, id | Holds(n', x, id) ensures Published(n'.log, id, n'.nodes[x].received.data[id].item.payload) {
        assert x != node ==> Holds(n, x, id);
      }
    }
  }

  lemma {:induction false} RunKeepsPayloads(cfg: Settings, n: Net, steps: seq<Step>)
    requires Fresh(n) && Legal(cfg, n, steps)
    ensures AllSound(Run(cfg, n, steps)) && PayloadsPublished(cfg, Run(cfg, n, steps))
  {
    hide Coherent, NotAfter, Published, Next;
    if steps == [] {
      FreshIsSound(n);
    } else {
      var init, last := steps[..|steps| - 1], steps[|steps| - 1];
      RunKeepsPayloads(cfg, n, init);
      StepKeepsPayloads(cfg, Run(cfg, n, init), last);
      StepKeepsSound(cfg, Run(cfg, n, init), last);
    }
  }

  // In every run, with losses, expiry, grafts and churn: if an id was published
  // with one text only, sealed the way this network opens it, then every copy in
  // flight and every stored record carries the sealed text and every node that
  // hands the id to its application hands over the text itself.
  lemma PayloadIntegrity(cfg: Settings, n: Net, steps: seq<Step>, id: Id, text: Bytes, encode: Bytes -> Bytes)
    requires Fresh(n) && Legal(cfg, n, steps)
    requires cfg.decode(encode(text)) == text
    requires forall r :: r in Run(cfg, n, steps).log && r.app.None? && r.id == id ==>
               r.payload == if cfg.enableCompression then encode(text) else text
    ensures var m := Run(cfg, n, steps); var sealed := if cfg.enableCompression then encode(text) else text;
      && (forall p :: p in m.flight && p.rpc.Message? && p.rpc.id == id ==> p.rpc.payload == sealed)
      && (forall x :: Holds(m, x, id) ==> m.nodes[x].received.data[id].item.payload == sealed)
      && (forall r :: r in m.log && r.id == id && r.app.Some? ==> r.app.value == text)
  {
    hide Coherent, NotAfter, Next, Run, Legal;
    RunKeepsPayloads(cfg, n, steps);
  }

  // -- Coverage --------------------------------------------------------------------

  ghost predicate EnRoute(n: Net, src: Peer, dst: Peer, id: Id) {
    exists p :: p in n.flight && p.src == src && p.dst == dst && p.rpc.Message? && p.rpc.id == id
  }

  // Everyone a node pushed its first copy to holds it or has a copy on the way.
  ghost predicate Covered(n: Net) {
    forall r, q :: r in n.log && q in r.targets ==> Holds(n, q, r.id) || EnRoute(n, r.node, q, r.id)
  }

  // A receipt comes with one message to each target.
  lemma TargetsServed(cfg: Settings, t: Tree, node: Peer, i: Input, now: Instant, c: Choice, r: Receipt, q: Peer)
    requires Permits(cfg, t, i, now, c)
    requires r in Receipts(t, node, i, Next(cfg, t, i, now, c)) && q in r.targets
    ensures r.node == node
    ensures exists hop :: Notify(q, Message(r.id, hop, r.payload)) in Next(cfg, t, i, now, c).events
  {
    var hop: Hop := if i.Publish? then 1 else NextHop(i.rpc.hop);
    var a := Notify(q, Message(r.id, hop, r.payload));
    FanMembers(c.peers, a.rpc, a);
    if i.Receive? {
      assert i.rpc.id !in t.received.data;
    }
    assert a in Next(cfg, t, i, now, c).events;
  }

  lemma StepKeepsCovered(cfg: Settings, n: Net, s: Step)
    requires AllSound(n) && Enabled(cfg, n, s) && KeepsHistory(cfg, n, s) && !s.move.Lose?
    requires Covered(n)
    ensures Covered(Apply(cfg, n, s))
  {
    hide Coherent, NotAfter, Next;
    var n' := Apply(cfg, n, s);
    var node, input := Actor(n, s.move), InputOf(n, s.move);
    var t, e := n.nodes[node], Next(cfg, n.nodes[node], input, s.at, s.choice);
    HoldersGrow(cfg, t, input, s.at, s.choice);
    forall r, q | r in n'.log && q in r.targets
      ensures Holds(n', q, r.id) || EnRoute(n', r.node, q, r.id)
    {
      if r in n.log {
        if !Holds(n, q, r.id) {
          var p :| p in n.flight && p.src == r.node && p.dst == q && p.rpc.Message? && p.rpc.id == r.id;
          if s.move.Arrive? {
            WithoutMembers(n.flight, s.move.index, p);
            if p == n.flight[s.move.index] {
              MessageIsHeld(cfg, t, input, s.at, s.choice);
            }
          }
          assert p in Rest(n, s.move) ==> p in n'.flight;
        }
      } else {
        TargetsServed(cfg, t, node, input, s.at, s.choice, r, q);
        var hop :| Notify(q, Message(r.id, hop, r.payload)) in e.events;
        var p := Packet(node, q, Message(r.id, hop, r.payload));
        SendsMembers(node, e.events, p);
        assert p in n'.flight;
      }
    }
  }

  lemma MessageIsHeld(cfg: Settings, t: Tree, i: Input, now: Instant, c: Choice)
    requires i.Receive? && i.rpc.Message?
    ensures i.rpc.id in Next(cfg, t, i, now, c).tree.received.data
  {}

  // In every lossless run without expiry, whatever grafts, prunes, ticks and
  // membership changes are interleaved.
  lemma {:induction false} Coverage(cfg: Settings, n: Net, steps: seq<Step>)
    requires Fresh(n) && Legal(cfg, n, steps) && NoExpiry(cfg, n, steps) && Lossless(steps)
    ensures AllSound(Run(cfg, n, steps)) && Covered(Run(cfg, n, steps))
  {
    hide Coherent, NotAfter, Next;
    if steps == [] {
      FreshIsSound(n);
    } else {
      var init, last := steps[..|steps| - 1], steps[|steps| - 1];
      assert last in steps && forall s :: s in init ==> s in steps;
      Coverage(cfg, n, init);
      hide Covered;
      StepKeepsCovered(cfg, Run(cfg, n, init), last);
      StepKeepsSound(cfg, Run(cfg, n, init), last);
    }
  }
}
