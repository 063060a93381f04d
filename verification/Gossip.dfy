/** A network of PlumTree nodes over an asynchronous medium: nodes take local
    turns, packets arrive in any order, and may be lost. Membership changes are
    arbitrary Up and Down turns. */
module Gossip {
  import opened Types
  import opened Cache
  import opened TreeSpec
  import opened Network

  // A history entry: `node` put `id` on record for the first time, on a message
  // from `from` (itself, when publishing); `targets` were its eager peers other
  // than the sender; `app` is what it handed to the application.
  datatype Receipt = Receipt(node: Peer, id: Id, from: Peer, payload: Bytes, targets: set<Peer>, app: Option<Bytes>)

  datatype Net = Net(nodes: map<Peer, Tree>, flight: seq<Packet>, clock: Instant, log: seq<Receipt>)

  datatype Move =
    | Local(node: Peer, input: Input)
    | Arrive(index: nat)
    | Lose(index: nat)

  datatype Step = Step(move: Move, at: Instant, choice: Choice)

  ghost predicate Enabled(cfg: Settings, n: Net, s: Step) {
    && n.clock <= s.at
    && match s.move
       case Local(node, input) =>
         node in n.nodes && !input.Receive? && Permits(cfg, n.nodes[node], input, s.at, s.choice)
       case Arrive(i) =>
         && i < |n.flight|
         && n.flight[i].dst in n.nodes
         && Permits(cfg, n.nodes[n.flight[i].dst], Receive(n.flight[i].src, n.flight[i].rpc), s.at, s.choice)
       case Lose(i) => i < |n.flight|
  }

  // Who acts, on what input, with what left in flight.
  function Actor(n: Net, m: Move): Peer
    requires m.Arrive? ==> m.index < |n.flight|
    requires !m.Lose?
  {
    if m.Arrive? then n.flight[m.index].dst else m.node
  }

  function InputOf(n: Net, m: Move): Input
    requires m.Arrive? ==> m.index < |n.flight|
    requires !m.Lose?
  {
    if m.Arrive? then Receive(n.flight[m.index].src, n.flight[m.index].rpc) else m.input
  }

  function Rest(n: Net, m: Move): seq<Packet>
    requires !m.Local? ==> m.index < |n.flight|
  {
    if m.Local? then n.flight else Without(n.flight, m.index)
  }

  function Receipts(t: Tree, node: Peer, i: Input, e: Effect): seq<Receipt> {
    match i
    case Publish(id, payload) =>
      if Publishable(t, id) then [Receipt(node, id, node, payload, t.eager, None)] else []
    case Receive(from, Message(id, _, payload)) =>
      if e.events != [] && e.events[0].Deliver?
      then [Receipt(node, id, from, payload, t.eager - {from}, Some(e.events[0].payload))]
      else []
    case _ => []
  }

  ghost function Apply(cfg: Settings, n: Net, s: Step): Net
    requires Enabled(cfg, n, s)
  {
    if s.move.Lose? then n.(flight := Rest(n, s.move), clock := s.at)
    else
      var node, input := Actor(n, s.move), InputOf(n, s.move);
      var t := n.nodes[node];
      var e := Next(cfg, t, input, s.at, s.choice);
      Net(n.nodes[node := e.tree],
          Rest(n, s.move) + Sends(node, e.events),
          s.at,
          n.log + Receipts(t, node, input, e))
  }

  // Runs

  ghost predicate Legal(cfg: Settings, n: Net, steps: seq<Step>)
    decreases |steps|, 0
  {
    steps != [] ==>
      && Legal(cfg, n, steps[..|steps| - 1])
      && Enabled(cfg, Run(cfg, n, steps[..|steps| - 1]), steps[|steps| - 1])
  }

  ghost function Run(cfg: Settings, n: Net, steps: seq<Step>): Net
    requires Legal(cfg, n, steps)
    decreases |steps|, 1
  {
    if steps == [] then n
    else Apply(cfg, Run(cfg, n, steps[..|steps| - 1]), steps[|steps| - 1])
  }

  // A start: empty caches, nothing in flight, any eager and lazy sets.
  ghost predicate Fresh(n: Net) {
    && n.flight == [] && n.log == []
    && forall x :: x in n.nodes ==>
         n.nodes[x].local == x
         && n.nodes[x].observed == Store(map[], []) && n.nodes[x].received == Store(map[], [])
  }

  ghost predicate Holds(n: Net, x: Peer, id: Id) {
    x in n.nodes && id in n.nodes[x].received.data
  }

  // Restrictions a theorem may put on a run

  ghost predicate Lossless(steps: seq<Step>) {
    forall s | s in steps :: !s.move.Lose?
  }

  // No tick of the run comes a history window after a sighting it still has.
  ghost predicate NoExpiry(cfg: Settings, n: Net, steps: seq<Step>)
    requires Legal(cfg, n, steps)
  {
    steps != [] ==>
      && NoExpiry(cfg, n, steps[..|steps| - 1])
      && KeepsHistory(cfg, Run(cfg, n, steps[..|steps| - 1]), steps[|steps| - 1])
  }

  ghost predicate KeepsHistory(cfg: Settings, n: Net, s: Step) {
    s.move.Local? && s.move.input.Tick? && s.move.node in n.nodes ==>
      var t := n.nodes[s.move.node];
      Expired(t.received, s.at - cfg.historyWindow) == t.received
  }

  // -- What one turn can send and store ----------------------------------------

  // When a message is sent: on a publication, on a first receipt, or from a record.
  ghost predicate Forwards(t: Tree, i: Input, to: Peer, id: Id, hop: Hop, payload: Bytes) {
    || (i == Publish(id, payload) && Publishable(t, id) && hop == 1 && to in t.eager)
    || (i.Receive? && i.rpc.Message? && i.rpc.id == id && i.rpc.payload == payload
        && id !in t.received.data && hop == NextHop(i.rpc.hop) && to in t.eager - {i.from})
    || (i.Receive? && i.rpc.Graft? && i.from == to && id in i.rpc.ids && id in t.received.data
        && hop == t.received.data[id].item.hop && payload == t.received.data[id].item.payload)
  }

  lemma MessagesSent(
    cfg: Settings, t: Tree, i: Input, now: Instant, c: Choice, to: Peer, id: Id, hop: Hop, payload: Bytes)
    requires Permits(cfg, t, i, now, c) && Coherent(t.received)
    ensures Notify(to, Message(id, hop, payload)) in Next(cfg, t, i, now, c).events <==>
            Forwards(t, i, to, id, hop, payload)
  {
    var a := Notify(to, Message(id, hop, payload));
    match i
    case Publish(k, p) => FanMembers(c.peers, Message(k, 1, p), a);
    case Receive(from, rpc) =>
      match rpc {
        case Message(k, h, p) =>
          FanMembers(c.peers, Message(k, NextHop(h), p), a);
          ForwardedAll(cfg, t, from, rpc, now, c, a);
        case Graft(ids) =>
          RepliesMembers(t.received, from, ids, a);
          assert id in ids && id in t.received.data && a == Notify(from, Message(id, hop, payload)) ==>
            (Forwards(t, i, to, id, hop, payload) <==>
             a == Notify(from, Message(id, t.received.data[id].item.hop, t.received.data[id].item.payload)));
        case _ =>
      }
    case Tick =>
      FanMembers(c.peers, IHave(Announcements(LazyWindow(cfg, t, now, c.lazySearch))), a);
    case _ =>
  }

  lemma ForwardedAll(cfg: Settings, t: Tree, from: Peer, rpc: Rpc, now: Instant, c: Choice, a: Action)
    requires rpc.Message? && a.Notify?
    ensures a in Next(cfg, t, Receive(from, rpc), now, c).events && a.rpc.Message? <==>
            && rpc.id !in t.received.data
            && a in Fan(c.peers, Message(rpc.id, NextHop(rpc.hop), rpc.payload))
  {
    hide Inserted;
    FanMembers(c.peers, Message(rpc.id, NextHop(rpc.hop), rpc.payload), a);
  }

  // Where a stored record comes from.
  ghost predicate Stored(t: Tree, i: Input, r: Record<Bytes>) {
    || (r.id in t.received.data && t.received.data[r.id].item == r)
    || (i == Publish(r.id, r.payload) && Publishable(t, r.id) && r.hop == 0)
    || (i == Receive(r.sender, Message(r.id, r.hop, r.payload)))
  }

  lemma RecordsStored(cfg: Settings, t: Tree, i: Input, now: Instant, c: Choice, id: Id)
    requires Sound(t, now) && id in Next(cfg, t, i, now, c).tree.received.data
    ensures Next(cfg, t, i, now, c).tree.received.data[id].item.id == id
    ensures Stored(t, i, Next(cfg, t, i, now, c).tree.received.data[id].item)
  {
    if id in t.received.data {
      OldRecord(t.received, id);
    }
    match i
    case Receive(from, rpc) =>
      if rpc.IHave? {
        IHavesFrame(t, from, rpc.ihaves, now);
      }
    case Tick => ExpiryExact(t.received, now - cfg.historyWindow);
    case _ =>
  }

  lemma OldRecord(s: Store<Bytes>, id: Id)
    requires Coherent(s) && id in s.data
    ensures s.data[id].item.id == id
  {
    FindHit(s.byTime, id);
    assert Improves(s.data[id], Find(s.byTime, id).value);
  }

  lemma HoldersGrow(cfg: Settings, t: Tree, i: Input, now: Instant, c: Choice)
    requires i.Tick? ==> Expired(t.received, now - cfg.historyWindow) == t.received
    ensures t.received.data.Keys <= Next(cfg, t, i, now, c).tree.received.data.Keys
  {
    if i.Receive? && i.rpc.IHave? {
      IHavesFrame(t, i.from, i.rpc.ihaves, now);
    }
  }

  // A receipt is logged exactly when the id is new on record.
  lemma ReceiptsExact(cfg: Settings, t: Tree, node: Peer, i: Input, now: Instant, c: Choice, id: Id)
    requires Permits(cfg, t, i, now, c)
    ensures var e := Next(cfg, t, i, now, c); var rs := Receipts(t, node, i, e);
      && (id !in t.received.data && id in e.tree.received.data ==> exists r :: r in rs && r.id == id)
      && (forall r :: r in rs ==> r.node == node && r.id !in t.received.data && r.id in e.tree.received.data)
  {
    var e := Next(cfg, t, i, now, c);
    var rs := Receipts(t, node, i, e);
    if i.Receive? && i.rpc.IHave? {
      IHavesFrame(t, i.from, i.rpc.ihaves, now);
    }
    if i.Tick? {
      ExpiryShrinks(t.received, now - cfg.historyWindow);
    }
    if id !in t.received.data && id in e.tree.received.data {
      assert rs[0].id == id && rs[0] in rs;
    }
  }

  lemma {:induction false} ExpiryShrinks<P>(s: Store<P>, since: Instant)
    ensures Expired(s, since).data.Keys <= s.data.Keys
    decreases |s.byTime|
  {
    if s.byTime != [] && s.byTime[0].time <= since {
      ExpiryShrinks(Store(s.data - {s.byTime[0].item.id}, s.byTime[1..]), since);
    }
  }

  // -- Soundness of every node in every run ------------------------------------

  ghost predicate AllSound(n: Net) {
    forall x :: x in n.nodes ==> Sound(n.nodes[x], n.clock) && n.nodes[x].local == x
  }

  lemma SoundLater(t: Tree, before: Instant, now: Instant)
    requires Sound(t, before) && before <= now
    ensures Sound(t, now)
  {}

  lemma StepKeepsSound(cfg: Settings, n: Net, s: Step)
    requires AllSound(n) && Enabled(cfg, n, s)
    ensures AllSound(Apply(cfg, n, s))
  {
    var n' := Apply(cfg, n, s);
    forall x | x in n'.nodes ensures Sound(n'.nodes[x], n'.clock) && n'.nodes[x].local == x {
      hide Coherent, NotAfter, Next;
      SoundLater(n.nodes[x], n.clock, s.at);
      if !s.move.Lose? && x == Actor(n, s.move) {
        NextKeepsSound(cfg, n.nodes[x], InputOf(n, s.move), s.at, s.choice);
        NextKeepsLocal(cfg, n.nodes[x], InputOf(n, s.move), s.at, s.choice);
      }
    }
  }
}
