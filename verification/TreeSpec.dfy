/** PlumTree (tree.rs) as functions from a node's state and an input to the new
    state and the actions queued. Where the code walks a hash set, the order of
    the walk is an argument, constrained by `Permits`. */
module TreeSpec {
  import opened Types
  import opened Cache

  datatype Settings = Settings(
    lazyPushWindow: nat,
    historyWindow: nat,
    tickFrequency: nat,
    optimizeSenderTree: bool,
    hopOptimizationFactor: nat,
    enableCompression: bool,
    decode: Bytes -> Bytes
  ) {
    // Needed by `repair_tree`, whose window otherwise runs backwards.
    predicate WellFormed() {
      lazyPushWindow >= 2 * tickFrequency
    }

    function Open(payload: Bytes): Bytes {
      if enableCompression then decode(payload) else payload
    }
  }

  datatype Tree = Tree(
    local: Peer,
    eager: set<Peer>,
    lazy: set<Peer>,
    lastTick: Instant,
    observed: Store<()>,
    received: Store<Bytes>
  )

  datatype Effect = Effect(tree: Tree, events: seq<Action>)

  ghost predicate Sound(t: Tree, now: Instant) {
    && Coherent(t.observed) && NotAfter(t.observed, now)
    && Coherent(t.received) && NotAfter(t.received, now)
  }

  // Membership notifications

  function NeighborUp(t: Tree, peer: Peer): Tree {
    t.(eager := t.eager + {peer})
  }

  function NeighborDown(t: Tree, peer: Peer): Tree {
    t.(eager := t.eager - {peer}, lazy := t.lazy - {peer})
  }

  // Messages

  predicate Publishable(t: Tree, id: Id) {
    id !in t.received.data && id !in t.observed.data
  }

  function Published(t: Tree, id: Id, payload: Bytes, now: Instant, order: seq<Peer>): Effect {
    if !Publishable(t, id) then Effect(t, [])
    else
      Effect(
        t.(received := Inserted(t.received, Record(id, 0, t.local, payload), now)),
        Fan(order, Message(id, 1, payload)))
  }

  function MessageIn(
    cfg: Settings, t: Tree, from: Peer, id: Id, hop: Hop, payload: Bytes, now: Instant, order: seq<Peer>
  ): Effect {
    var t' := t.(received := Inserted(t.received, Record(id, hop, from, payload), now));
    if id !in t.received.data then
      Effect(t', [Deliver(id, cfg.Open(payload))] + Fan(order, Message(id, NextHop(hop), payload)))
    else if cfg.optimizeSenderTree && from in t.eager then
      Effect(PruneIn(t', from), [Notify(from, Rpc.Prune)])
    else
      Effect(t', [])
  }

  function IHavesIn(t: Tree, from: Peer, ihaves: seq<Announcement>, now: Instant): Tree {
    if ihaves == [] then t
    else
      var t' := IHavesIn(t, from, ihaves[..|ihaves| - 1], now);
      var a := ihaves[|ihaves| - 1];
      t'.(observed := Inserted(t'.observed, Record(a.id, a.hop, from, ()), now))
  }

  function PruneIn(t: Tree, from: Peer): Tree {
    t.(eager := t.eager - {from}, lazy := t.lazy + {from})
  }

  function GraftIn(t: Tree, from: Peer, ids: seq<Id>): Effect {
    Effect(t.(lazy := t.lazy - {from}, eager := t.eager + {from}), Replies(t.received, from, ids))
  }

  // The stored records among those asked for, with the hop they are stored with.
  function Replies(received: Store<Bytes>, to: Peer, ids: seq<Id>): seq<Action> {
    if ids == [] then []
    else
      Replies(received, to, ids[..|ids| - 1]) +
      match Lookup(received, ids[|ids| - 1])
      case Some(r) => [Notify(to, Message(r.id, r.hop, r.payload))]
      case None => []
  }

  // Periodic maintenance

  function Announcements(records: seq<Record<Bytes>>): seq<Announcement> {
    seq(|records|, i requires 0 <= i < |records| => Announcement(records[i].id, records[i].hop))
  }

  function LazyWindow(cfg: Settings, t: Tree, now: Instant, search: Search): seq<Record<Bytes>> {
    match Window(t.received, now - cfg.lazyPushWindow, now, search)
    case Some(w) => w
    case None => []
  }

  function IHavesOut(cfg: Settings, t: Tree, now: Instant, search: Search, order: seq<Peer>): seq<Action> {
    var announced := Announcements(LazyWindow(cfg, t, now, search));
    if announced == [] then [] else Fan(order, IHave(announced))
  }

  // None if the slice panics.
  function RepairSlice(cfg: Settings, t: Tree, now: Instant, search: Search): Option<seq<Record<()>>> {
    Window(t.observed, now - cfg.lazyPushWindow, now - 2 * cfg.tickFrequency, search)
  }

  function Expected(cfg: Settings, t: Tree, now: Instant, search: Search): set<Record<()>> {
    var slice := RepairSlice(cfg, t, now, search);
    if slice.Some? then set r | r in slice.value else {}
  }

  // A much shorter path than the one the message came by; `saturating_sub`.
  predicate Shortcut(cfg: Settings, received: Hop, observed: Hop) {
    && (if received >= observed then received - observed else 0) >= cfg.hopOptimizationFactor
    && observed != 0
  }

  function Grafts(cfg: Settings, received: Store<Bytes>, infos: seq<Record<()>>): map<Peer, seq<Id>> {
    if infos == [] then map[]
    else
      var g := Grafts(cfg, received, infos[..|infos| - 1]);
      var o := infos[|infos| - 1];
      match Lookup(received, o.id)
      case Some(r) =>
        if Shortcut(cfg, r.hop, o.hop) && o.sender !in g then g[o.sender := []] else g
      case None =>
        g[o.sender := if o.sender in g then g[o.sender] + [o.id] else [o.id]]
  }

  function GraftsOut(grafts: map<Peer, seq<Id>>, order: seq<Peer>): seq<Action> {
    seq(|order|, i requires 0 <= i < |order| =>
      Notify(order[i], Graft(if order[i] in grafts then grafts[order[i]] else [])))
  }

  function PruneHistory(cfg: Settings, t: Tree, now: Instant): Tree {
    t.(observed := Expired(t.observed, now - cfg.historyWindow),
       received := Expired(t.received, now - cfg.historyWindow))
  }

  // The orders in which one input makes the node walk its hash collections, and where
  // its two binary searches land among equal timestamps.
  datatype Choice = Choice(
    peers: seq<Peer>, infos: seq<Record<()>>, grafted: seq<Peer>, lazySearch: Search, repairSearch: Search)

  // Nothing is decided but the order of one walk.
  function Walk(peers: seq<Peer>): Choice {
    Choice(peers, [], [], LowerBound, LowerBound)
  }

  function Ticked(cfg: Settings, t: Tree, now: Instant, c: Choice): Effect {
    Effect(
      PruneHistory(cfg, t, now).(lastTick := now),
      IHavesOut(cfg, t, now, c.lazySearch, c.peers) + GraftsOut(Grafts(cfg, t.received, c.infos), c.grafted))
  }

  // A tick that does not panic.
  ghost predicate TickPermits(cfg: Settings, t: Tree, now: Instant, c: Choice) {
    && IsSearch(c.lazySearch) && IsSearch(c.repairSearch)
    && RepairSlice(cfg, t, now, c.repairSearch).Some?
    && Enumerates(c.peers, t.lazy)
    && Enumerates(c.infos, Expected(cfg, t, now, c.repairSearch))
    && Enumerates(c.grafted, Grafts(cfg, t.received, c.infos).Keys)
  }

  // One node, one input

  datatype Input =
    | Publish(id: Id, payload: Bytes)
    | Receive(from: Peer, rpc: Rpc)
    | Up(peer: Peer)
    | Down(peer: Peer)
    | Tick

  ghost predicate Permits(cfg: Settings, t: Tree, i: Input, now: Instant, c: Choice) {
    match i
    case Publish(_, _) => Enumerates(c.peers, t.eager)
    case Receive(from, rpc) => rpc.Message? ==> Enumerates(c.peers, t.eager - {from})
    case Tick => TickPermits(cfg, t, now, c)
    case _ => true
  }

  function Next(cfg: Settings, t: Tree, i: Input, now: Instant, c: Choice): Effect {
    match i
    case Publish(id, payload) => Published(t, id, payload, now, c.peers)
    case Receive(from, rpc) => Received(cfg, t, from, rpc, now, c)
    case Up(p) => Effect(NeighborUp(t, p), [])
    case Down(p) => Effect(NeighborDown(t, p), [])
    case Tick => Ticked(cfg, t, now, c)
  }

  function Received(cfg: Settings, t: Tree, from: Peer, rpc: Rpc, now: Instant, c: Choice): Effect {
    match rpc
    case Message(id, hop, payload) => MessageIn(cfg, t, from, id, hop, payload, now, c.peers)
    case IHave(ihaves) => Effect(IHavesIn(t, from, ihaves, now), [])
    case Prune => Effect(PruneIn(t, from), [])
    case Graft(ids) => GraftIn(t, from, ids)
    case _ => Effect(t, [])
  }

  // Facts used everywhere

  lemma {:induction false} IHavesFrame(t: Tree, from: Peer, ihaves: seq<Announcement>, now: Instant)
    ensures var t' := IHavesIn(t, from, ihaves, now); t' == t.(observed := t'.observed)
  {
    if ihaves != [] {
      IHavesFrame(t, from, ihaves[..|ihaves| - 1], now);
    }
  }

  lemma NextKeepsLocal(cfg: Settings, t: Tree, i: Input, now: Instant, c: Choice)
    ensures Next(cfg, t, i, now, c).tree.local == t.local
  {
    if i.Receive? && i.rpc.IHave? {
      IHavesFrame(t, i.from, i.rpc.ihaves, now);
    }
  }

  lemma {:induction false} IHavesKeepSound(t: Tree, from: Peer, ihaves: seq<Announcement>, now: Instant)
    requires Sound(t, now)
    ensures Sound(IHavesIn(t, from, ihaves, now), now)
  {
    IHavesFrame(t, from, ihaves, now);
    if ihaves != [] {
      var n := |ihaves| - 1;
      IHavesKeepSound(t, from, ihaves[..n], now);
      InsertKeepsCoherent(
        IHavesIn(t, from, ihaves[..n], now).observed, Record(ihaves[n].id, ihaves[n].hop, from, ()), now);
    }
  }

  lemma NextKeepsSound(cfg: Settings, t: Tree, i: Input, now: Instant, c: Choice)
    requires Sound(t, now)
    ensures Sound(Next(cfg, t, i, now, c).tree, now)
  {
    match i
    case Publish(id, payload) =>
      InsertKeepsCoherent(t.received, Record(id, 0, t.local, payload), now);
    case Receive(from, rpc) =>
      match rpc {
        case Message(id, hop, payload) => InsertKeepsCoherent(t.received, Record(id, hop, from, payload), now);
        case IHave(ihaves) => IHavesKeepSound(t, from, ihaves, now);
        case _ =>
      }
    case Tick =>
      var cutoff := now - cfg.historyWindow;
      ExpiryExact(t.observed, cutoff);
      ExpiryExact(t.received, cutoff);
      ExpiryKeepsNotAfter(t.observed, cutoff, now);
      ExpiryKeepsNotAfter(t.received, cutoff, now);
    case _ =>
  }

  lemma {:induction false} RepliesMembers(received: Store<Bytes>, to: Peer, ids: seq<Id>, a: Action)
    requires Coherent(received)
    ensures a in Replies(received, to, ids) <==>
            exists id :: id in ids && id in received.data
              && a == Notify(to, Message(id, received.data[id].item.hop, received.data[id].item.payload))
  {
    if ids != [] {
      var init, last := ids[..|ids| - 1], ids[|ids| - 1];
      RepliesMembers(received, to, init, a);
      assert ids == init + [last];
      FindHit(received.byTime, last);
    }
  }
}
