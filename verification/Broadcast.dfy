/** Broadcasts end: whatever the order of publications and deliveries, and however many
    announcements and ticks that graft and expire nothing are interleaved, the number of
    messages and prunes delivered is bounded by the work in flight and still to come. */
module Broadcast {
  import opened Types
  import opened Cache
  import opened TreeSpec
  import opened Network
  import opened Gossip

  // -- Runs with nothing but broadcasts ------------------------------------------------

  // A delivery, or a tick that expires nothing and grafts nobody.
  ghost predicate Calm(cfg: Settings, n: Net, s: Step) {
    || s.move.Arrive?
    || (s.move.Local? && s.move.input.Tick? && KeepsHistory(cfg, n, s)
        && (s.move.node in n.nodes ==> Grafts(cfg, n.nodes[s.move.node].received, s.choice.infos) == map[]))
  }

  // A calm step, or the publication of one of the messages.
  ghost predicate Lively(cfg: Settings, n: Net, s: Step, ids: set<Id>) {
    || Calm(cfg, n, s)
    || (s.move.Local? && s.move.input.Publish? && s.move.input.id in ids)
  }

  ghost predicate AllLively(cfg: Settings, n: Net, steps: seq<Step>, ids: set<Id>)
    requires Legal(cfg, n, steps)
  {
    steps != [] ==>
      && AllLively(cfg, n, steps[..|steps| - 1], ids)
      && Lively(cfg, Run(cfg, n, steps[..|steps| - 1]), steps[|steps| - 1], ids)
  }

  // The origin publishes, then calm steps follow.
  ghost predicate OneBroadcast(cfg: Settings, n: Net, steps: seq<Step>, origin: Peer, id: Id, payload: Bytes)
    requires Legal(cfg, n, steps)
  {
    steps != [] &&
    var init, last := steps[..|steps| - 1], steps[|steps| - 1];
    if init == [] then last.move == Local(origin, Publish(id, payload))
    else OneBroadcast(cfg, n, init, origin, id, payload) && Calm(cfg, Run(cfg, n, init), last)
  }

  // A message or a prune is delivered.
  ghost predicate Delivers(n: Net, s: Step) {
    s.move.Arrive? && s.move.index < |n.flight|
    && (n.flight[s.move.index].rpc.Message? || n.flight[s.move.index].rpc.Prune?)
  }

  ghost function Deliveries(cfg: Settings, n: Net, steps: seq<Step>): nat
    requires Legal(cfg, n, steps)
  {
    if steps == [] then 0
    else
      Deliveries(cfg, n, steps[..|steps| - 1])
      + if Delivers(Run(cfg, n, steps[..|steps| - 1]), steps[|steps| - 1]) then 1 else 0
  }

  // Nothing in flight to a node of the network but announcements.
  ghost predicate Quiescent(n: Net) {
    forall p :: p in n.flight && p.dst in n.nodes ==> p.rpc.IHave?
  }

  // The only calm steps that are no deliveries: ticks, and announcements heard.
  ghost predicate Quiet(cfg: Settings, n: Net, s: Step) {
    Calm(cfg, n, s) && (s.move.Arrive? ==> s.move.index < |n.flight| && n.flight[s.move.index].rpc.IHave?)
  }

  // What a quiet step leaves as it is, and what it may send.
  lemma QuietStep(cfg: Settings, n: Net, s: Step) returns (sent: seq<Packet>)
    requires Enabled(cfg, n, s) && Quiet(cfg, n, s)
    ensures var n' := Apply(cfg, n, s);
      && n'.log == n.log && n'.nodes.Keys == n.nodes.Keys
      && (forall x :: x in n.nodes ==>
            && n'.nodes[x].eager == n.nodes[x].eager && n'.nodes[x].lazy == n.nodes[x].lazy
            && n'.nodes[x].received == n.nodes[x].received)
      && n'.flight == Rest(n, s.move) + sent && forall p :: p in sent ==> p.rpc.IHave?
    ensures s.move.Local? || (s.move.Arrive? && n.flight[s.move.index].rpc.IHave?)
  {
    hide Grafts, LazyWindow, Expected, Enumerates, IsSearch;
    var node, input := Actor(n, s.move), InputOf(n, s.move);
    var t, e := n.nodes[node], Next(cfg, n.nodes[node], input, s.at, s.choice);
    sent := Sends(node, e.events);
    if input.Tick? {
      NothingGrafted(cfg, t, s.at, s.choice);
    } else {
      IHavesFrame(t, input.from, input.rpc.ihaves, s.at);
    }
    forall p | p in sent ensures p.rpc.IHave? {
      SendsMembers(node, e.events, p);
    }
  }

  lemma NothingGrafted(cfg: Settings, t: Tree, now: Instant, c: Choice)
    requires TickPermits(cfg, t, now, c) && Grafts(cfg, t.received, c.infos) == map[]
    ensures forall a :: a in Ticked(cfg, t, now, c).events ==> a.Notify? && a.rpc.IHave?
  {
    hide LazyWindow, Expected, IsSearch, RepairSlice;
    assert c.grafted == [] by {
      EnumerationLength(c.grafted, Grafts(cfg, t.received, c.infos).Keys);
    }
  }

  // Announcements weigh nothing.
  lemma QuietTotal(n: Net, s: Step, sent: seq<Packet>, w: Packet -> nat)
    requires s.move.Local? || (s.move.index < |n.flight| && n.flight[s.move.index].rpc.IHave?)
    requires forall p :: p in sent ==> p.rpc.IHave?
    requires forall p: Packet :: p.rpc.IHave? ==> w(p) == 0
    ensures Total(Rest(n, s.move) + sent, w) == Total(n.flight, w)
  {
    TotalConcat(Rest(n, s.move), sent, w);
    TotalZero(sent, w);
    if !s.move.Local? {
      TotalWithout(n.flight, s.move.index, w);
    }
  }

  // -- Termination ---------------------------------------------------------------

  // Nothing in flight but copies of messages in `ids`, prunes and announcements.
  ghost predicate OnlyBroadcasts(n: Net, ids: set<Id>) {
    forall p :: p in n.flight ==> p.rpc.Prune? || p.rpc.IHave? || (p.rpc.Message? && p.rpc.id in ids)
  }

  ghost predicate FanOut(n: Net, degree: nat) {
    forall x :: x in n.nodes ==> |n.nodes[x].eager| <= degree
  }

  ghost function Missing(n: Net, ids: set<Id>): set<(Peer, Id)> {
    set x, i | x in n.nodes && i in ids && i !in n.nodes[x].received.data :: (x, i)
  }

  function Load(): Packet -> nat {
    (p: Packet) => if p.rpc.Message? then 2 else if p.rpc.Prune? then 1 else 0
  }

  // Two units per copy a first receipt may still send, two per copy in flight,
  // one per prune in flight.
  ghost function Work(n: Net, ids: set<Id>, degree: nat): nat {
    2 * degree * |Missing(n, ids)| + Total(n.flight, Load())
  }

  // What the arrival of a message or prune does, by case.
  lemma FirstArrival(cfg: Settings, t: Tree, from: Peer, id: Id, hop: Hop, payload: Bytes, now: Instant, c: Choice)
    requires Coherent(t.received) && Enumerates(c.peers, t.eager - {from}) && id !in t.received.data
    ensures var e := Next(cfg, t, Receive(from, Message(id, hop, payload)), now, c);
      && e.tree == t.(received := e.tree.received)
      && e.tree.received.data.Keys == t.received.data.Keys + {id}
      && Find(e.tree.received.byTime, id) == Some(Timed(Record(id, hop, from, payload), now))
      && e.events == [Deliver(id, cfg.Open(payload))] + Fan(c.peers, Message(id, NextHop(hop), payload))
  {
    FindAppend(t.received.byTime, Timed(Record(id, hop, from, payload), now), id);
  }

  lemma DeliverySends(node: Peer, app: Action, order: seq<Peer>, rpc: Rpc)
    requires app.Deliver?
    ensures Sends(node, [app] + Fan(order, rpc)) == Sends(node, Fan(order, rpc))
  {
    SendsConcat(node, [app], Fan(order, rpc));
    SendsOne(node, app);
  }

  // Not a first receipt: at most a prune is sent back, for a message.
  lemma LaterArrival(cfg: Settings, t: Tree, from: Peer, rpc: Rpc, now: Instant, c: Choice)
    requires rpc.Prune? || (rpc.Message? && rpc.id in t.received.data)
    ensures var e := Next(cfg, t, Receive(from, rpc), now, c);
      && e.tree.received.data.Keys == t.received.data.Keys
      && e.tree.received.byTime == t.received.byTime
      && e.tree.eager <= t.eager
      && (e.events == [] || (rpc.Message? && e.events == [Notify(from, Rpc.Prune)]))
  {}

  lemma ArrivalLowersWork(cfg: Settings, n: Net, s: Step, ids: set<Id>, degree: nat)
    requires AllSound(n) && Enabled(cfg, n, s) && Delivers(n, s)
    requires OnlyBroadcasts(n, ids) && FanOut(n, degree)
    ensures OnlyBroadcasts(Apply(cfg, n, s), ids) && FanOut(Apply(cfg, n, s), degree)
    ensures Work(Apply(cfg, n, s), ids, degree) < Work(n, ids, degree)
  {
    hide Coherent, NotAfter, Next, Work, FanOut;
    var n', i := Apply(cfg, n, s), s.move.index;
    var p := n.flight[i];
    var t, e := n.nodes[p.dst], Next(cfg, n.nodes[p.dst], Receive(p.src, p.rpc), s.at, s.choice);
    assert p in n.flight;
    if p.rpc.Message? && p.rpc.id !in t.received.data {
      var rpc := Message(p.rpc.id, NextHop(p.rpc.hop), p.rpc.payload);
      FirstArrival(cfg, t, p.src, p.rpc.id, p.rpc.hop, p.rpc.payload, s.at, s.choice);
      DeliverySends(p.dst, Deliver(p.rpc.id, cfg.Open(p.rpc.payload)), s.choice.peers, rpc);
      FirstLowersWork(n, n', i, s.choice.peers, rpc, ids, degree);
    } else {
      LaterArrival(cfg, t, p.src, p.rpc, s.at, s.choice);
      if e.events != [] {
        SendsOne(p.dst, e.events[0]);
      }
      LaterLowersWork(n, n', i, Sends(p.dst, e.events), ids, degree);
    }
  }

  lemma QuietKeepsWork(cfg: Settings, n: Net, s: Step, ids: set<Id>, degree: nat)
    requires Enabled(cfg, n, s) && Quiet(cfg, n, s)
    requires OnlyBroadcasts(n, ids) && FanOut(n, degree)
    ensures OnlyBroadcasts(Apply(cfg, n, s), ids) && FanOut(Apply(cfg, n, s), degree)
    ensures Work(Apply(cfg, n, s), ids, degree) == Work(n, ids, degree)
  {
    hide Calm, Apply, Total;
    var sent := QuietStep(cfg, n, s);
    var n' := Apply(cfg, n, s);
    QuietTotal(n, s, sent, Load());
    forall p | p in n'.flight ensures p in n.flight || p.rpc.IHave? {
      if s.move.Arrive? && p in Rest(n, s.move) {
        WithoutMembers(n.flight, s.move.index, p);
      }
    }
    assert Missing(n', ids) == Missing(n, ids);
  }

  lemma FirstLowersWork(n: Net, n': Net, i: nat, order: seq<Peer>, rpc: Rpc, ids: set<Id>, degree: nat)
    requires OnlyBroadcasts(n, ids) && FanOut(n, degree)
    requires i < |n.flight| && n.flight[i].rpc.Message? && n.flight[i].dst in n.nodes && n.flight[i].dst in n'.nodes
    requires var p := n.flight[i]; var t, t' := n.nodes[p.dst], n'.nodes[p.dst];
      && p.rpc.id !in t.received.data && t'.received.data.Keys == t.received.data.Keys + {p.rpc.id}
      && t'.eager == t.eager
      && rpc.Message? && rpc.id == p.rpc.id && Enumerates(order, t.eager - {p.src})
      && n'.nodes == n.nodes[p.dst := t']
      && n'.flight == Without(n.flight, i) + Sends(p.dst, Fan(order, rpc))
    ensures OnlyBroadcasts(n', ids) && FanOut(n', degree)
    ensures Work(n', ids, degree) < Work(n, ids, degree)
  {
    hide Enumerates, Missing, Total, Sends;
    var p, rest := n.flight[i], Without(n.flight, i);
    var sent := Sends(p.dst, Fan(order, rpc));
    assert p in n.flight;
    TotalWithout(n.flight, i, Load());
    TotalConcat(rest, sent, Load());
    Smaller(n.nodes[p.dst].eager - {p.src}, n.nodes[p.dst].eager);
    FanSent(p.dst, order, rpc, ids, n.nodes[p.dst].eager - {p.src}, degree);
    forall q | q in n'.flight ensures q.rpc.Prune? || q.rpc.IHave? || (q.rpc.Message? && q.rpc.id in ids) {
      if q in rest {
        WithoutMembers(n.flight, i, q);
      }
    }
    OneFewerMissing(n, n', p.dst, p.rpc.id, ids);
    OneLess(degree, |Missing(n', ids)|);
  }

  lemma OneFewerMissing(n: Net, n': Net, node: Peer, id: Id, ids: set<Id>)
    requires node in n.nodes && node in n'.nodes && id in ids
    requires n'.nodes == n.nodes[node := n'.nodes[node]]
    requires id !in n.nodes[node].received.data
    requires n'.nodes[node].received.data.Keys == n.nodes[node].received.data.Keys + {id}
    ensures |Missing(n, ids)| == |Missing(n', ids)| + 1
  {
    assert (node, id) in Missing(n, ids);
    assert Missing(n', ids) == Missing(n, ids) - {(node, id)};
  }

  lemma OneLess(degree: nat, k: nat)
    ensures 2 * degree * (k + 1) == 2 * degree * k + 2 * degree
  {}

  lemma FanSent(src: Peer, order: seq<Peer>, rpc: Rpc, ids: set<Id>, targets: set<Peer>, degree: nat)
    requires rpc.Message? && rpc.id in ids && Enumerates(order, targets) && |targets| <= degree
    ensures forall q :: q in Sends(src, Fan(order, rpc)) ==> q.rpc == rpc
    ensures Total(Sends(src, Fan(order, rpc)), Load()) <= 2 * degree
  {
    FanPackets(src, order, rpc);
    FanTotal(src, order, rpc, Load(), 2);
    EnumerationLength(order, targets);
  }

  lemma LaterLowersWork(n: Net, n': Net, i: nat, sent: seq<Packet>, ids: set<Id>, degree: nat)
    requires OnlyBroadcasts(n, ids) && FanOut(n, degree)
    requires i < |n.flight| && !n.flight[i].rpc.IHave? && n.flight[i].dst in n.nodes && n.flight[i].dst in n'.nodes
    requires var p := n.flight[i]; var t, t' := n.nodes[p.dst], n'.nodes[p.dst];
      && t'.received.data.Keys == t.received.data.Keys && t'.eager <= t.eager
      && n'.nodes == n.nodes[p.dst := t']
      && n'.flight == Without(n.flight, i) + sent
      && (sent == [] || (p.rpc.Message? && sent == [Packet(p.dst, p.src, Rpc.Prune)]))
    ensures OnlyBroadcasts(n', ids) && FanOut(n', degree)
    ensures Work(n', ids, degree) < Work(n, ids, degree)
  {
    hide Total;
    var p, rest := n.flight[i], Without(n.flight, i);
    assert p in n.flight;
    TotalWithout(n.flight, i, Load());
    TotalConcat(rest, sent, Load());
    if sent == [] {
      TotalNone(Load());
    } else {
      TotalOne(sent[0], Load());
    }
    forall q | q in n'.flight ensures q.rpc.Prune? || q.rpc.IHave? || (q.rpc.Message? && q.rpc.id in ids) {
      if q in rest {
        WithoutMembers(n.flight, i, q);
      }
    }
    Smaller(n'.nodes[p.dst].eager, n.nodes[p.dst].eager);
    assert Missing(n', ids) == Missing(n, ids);
  }

  lemma TotalNone(w: Packet -> nat)
    ensures Total([], w) == 0
  {}

  // A publication sends no more than the publisher's first receipt was reckoned at.
  lemma PublicationKeepsWork(cfg: Settings, n: Net, s: Step, ids: set<Id>, degree: nat)
    requires Enabled(cfg, n, s) && s.move.Local? && s.move.input.Publish? && s.move.input.id in ids
    requires OnlyBroadcasts(n, ids) && FanOut(n, degree)
    ensures OnlyBroadcasts(Apply(cfg, n, s), ids) && FanOut(Apply(cfg, n, s), degree)
    ensures Work(Apply(cfg, n, s), ids, degree) <= Work(n, ids, degree)
  {
    hide Total, Sends, Missing;
    var n', x, id := Apply(cfg, n, s), s.move.node, s.move.input.id;
    var rpc := Message(id, 1, s.move.input.payload);
    if Publishable(n.nodes[x], id) {
      var sent := Sends(x, Fan(s.choice.peers, rpc));
      assert n'.flight == n.flight + sent;
      FanSent(x, s.choice.peers, rpc, ids, n.nodes[x].eager, degree);
      hide Enumerates, Fan, Apply;
      TotalConcat(n.flight, sent, Load());
      OneFewerMissing(n, n', x, id, ids);
      OneLess(degree, |Missing(n', ids)|);
    } else {
      assert n'.flight == n.flight && n'.nodes == n.nodes by {
        assert Sends(x, []) == [] by {
          NothingSent(x);
        }
      }
      assert Missing(n', ids) == Missing(n, ids) by {
        SameMissing(n, n', ids);
      }
    }
  }

  lemma NothingSent(x: Peer)
    ensures Sends(x, []) == []
  {}

  lemma SameMissing(n: Net, n': Net, ids: set<Id>)
    requires n'.nodes == n.nodes
    ensures Missing(n', ids) == Missing(n, ids)
  {}

  // Whatever the order of publications and deliveries, prunes included, and whatever is
  // announced in between, no more messages and prunes are delivered than there was work
  // at the start.
  lemma {:induction false} BroadcastTerminates(cfg: Settings, n: Net, steps: seq<Step>, ids: set<Id>, degree: nat)
    requires AllSound(n) && OnlyBroadcasts(n, ids) && FanOut(n, degree)
    requires Legal(cfg, n, steps) && AllLively(cfg, n, steps, ids)
    ensures AllSound(Run(cfg, n, steps)) && OnlyBroadcasts(Run(cfg, n, steps), ids)
    ensures FanOut(Run(cfg, n, steps), degree)
    ensures Deliveries(cfg, n, steps) + Work(Run(cfg, n, steps), ids, degree) <= Work(n, ids, degree)
  {
    hide Sound, Apply, Enabled, Work, OnlyBroadcasts, FanOut, Calm;
    if steps != [] {
      var init, last := steps[..|steps| - 1], steps[|steps| - 1];
      BroadcastTerminates(cfg, n, init, ids, degree);
      var before := Run(cfg, n, init);
      StepKeepsSound(cfg, before, last);
      if !Calm(cfg, before, last) {
        PublicationKeepsWork(cfg, before, last, ids, degree);
      } else if Delivers(before, last) {
        ArrivalLowersWork(cfg, before, last, ids, degree);
      } else {
        CalmIsOneOrTheOther(cfg, before, last, ids);
        QuietKeepsWork(cfg, before, last, ids, degree);
      }
    }
  }

  lemma CalmIsOneOrTheOther(cfg: Settings, n: Net, s: Step, ids: set<Id>)
    requires Enabled(cfg, n, s) && Calm(cfg, n, s) && OnlyBroadcasts(n, ids)
    ensures Delivers(n, s) || Quiet(cfg, n, s)
  {
    if s.move.Arrive? {
      assert n.flight[s.move.index] in n.flight;
    }
  }

  // And it can go on as long as something addressed to a node is in flight.
  lemma ArrivalPossible(cfg: Settings, n: Net, i: nat) returns (s: Step)
    requires i < |n.flight| && n.flight[i].dst in n.nodes
    ensures Enabled(cfg, n, s) && s.move == Arrive(i)
  {
    var p := n.flight[i];
    var order := SomeOrder(n.nodes[p.dst].eager - {p.src});
    s := Step(Arrive(i), n.clock, Walk(order));
  }

  lemma LargestDegree(n: Net) returns (degree: nat)
    ensures FanOut(n, degree)
  {
    degree := 0;
    var rest := n.nodes.Keys;
    while rest != {}
      invariant rest <= n.nodes.Keys
      invariant forall x :: x in n.nodes.Keys - rest ==> |n.nodes[x].eager| <= degree
    {
      var x :| x in rest;
      rest := rest - {x};
      if |n.nodes[x].eager| > degree {
        degree := |n.nodes[x].eager|;
      }
    }
  }
}
