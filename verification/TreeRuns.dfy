/** What one PlumTree node guarantees over every run, whatever its peers send:
    how often an id surfaces, how long an advertised id can be served, what a
    repair round asks for, and how a missing message is recovered. */
module TreeRuns {
  import opened Types
  import opened Cache
  import opened TreeSpec

  datatype Turn = Turn(input: Input, at: Instant, choice: Choice)

  function Run(cfg: Settings, t: Tree, turns: seq<Turn>): Tree {
    if turns == [] then t
    else
      var last := turns[|turns| - 1];
      Next(cfg, Run(cfg, t, turns[..|turns| - 1]), last.input, last.at, last.choice).tree
  }

  function Clock(start: Instant, turns: seq<Turn>): Instant {
    if turns == [] then start else turns[|turns| - 1].at
  }

  // The clock never runs backwards and every choice is one the node could make.
  ghost predicate Legal(cfg: Settings, t: Tree, start: Instant, turns: seq<Turn>) {
    if turns == [] then
      Sound(t, start)
    else
      var init, last := turns[..|turns| - 1], turns[|turns| - 1];
      && Legal(cfg, t, start, init)
      && Clock(start, init) <= last.at
      && Permits(cfg, Run(cfg, t, init), last.input, last.at, last.choice)
  }

  // The state before turn k of a run, and what turn k does.
  ghost function Before(cfg: Settings, t: Tree, turns: seq<Turn>, k: nat): Tree
    requires k < |turns|
  {
    Run(cfg, t, turns[..k])
  }

  ghost function At(cfg: Settings, t: Tree, turns: seq<Turn>, k: nat): Effect
    requires k < |turns|
  {
    Next(cfg, Before(cfg, t, turns, k), turns[k].input, turns[k].at, turns[k].choice)
  }

  lemma {:induction false} PrefixLegal(cfg: Settings, t: Tree, start: Instant, turns: seq<Turn>, n: nat)
    requires Legal(cfg, t, start, turns) && n <= |turns|
    ensures Legal(cfg, t, start, turns[..n])
    ensures Clock(start, turns[..n]) <= Clock(start, turns)
    decreases |turns|
  {
    if n == |turns| {
      assert turns[..n] == turns;
    } else {
      var init := turns[..|turns| - 1];
      PrefixLegal(cfg, t, start, init, n);
      assert init[..n] == turns[..n];
    }
  }

  lemma {:induction false} RunIsSound(cfg: Settings, t: Tree, start: Instant, turns: seq<Turn>, now: Instant)
    requires Legal(cfg, t, start, turns) && Clock(start, turns) <= now
    ensures Sound(Run(cfg, t, turns), now)
  {
    if turns != [] {
      var n := |turns| - 1;
      RunIsSound(cfg, t, start, turns[..n], turns[n].at);
      NextKeepsSound(cfg, Run(cfg, t, turns[..n]), turns[n].input, turns[n].at, turns[n].choice);
    }
  }

  lemma TurnIsSound(cfg: Settings, t: Tree, start: Instant, turns: seq<Turn>, k: nat)
    requires Legal(cfg, t, start, turns) && k < |turns|
    ensures Sound(Before(cfg, t, turns, k), turns[k].at)
    ensures Permits(cfg, Before(cfg, t, turns, k), turns[k].input, turns[k].at, turns[k].choice)
    ensures Run(cfg, t, turns[..k + 1]) == At(cfg, t, turns, k).tree
    ensures Clock(start, turns[..k]) <= turns[k].at
  {
    var upTo := turns[..k + 1];
    PrefixLegal(cfg, t, start, turns, k + 1);
    assert upTo[..k] == turns[..k] && upTo[k] == turns[k];
    RunIsSound(cfg, t, start, turns[..k], turns[k].at);
  }

  // -- What the node still remembers ------------------------------------------

  // A first sighting stays on record until the history window has run out.
  ghost predicate Keeps<P>(s: Store<P>, first: Timed<P>, window: nat, now: Instant) {
    Find(s.byTime, first.item.id) == Some(first) || now >= first.time + window
  }

  lemma InsertKeeps<P>(s: Store<P>, r: Record<P>, first: Timed<P>, window: nat, now: Instant)
    requires Keeps(s, first, window, now)
    ensures Keeps(Inserted(s, r, now), first, window, now)
  {
    FindAppend(s.byTime, Timed(r, now), first.item.id);
  }

  lemma ExpiryKeeps<P>(s: Store<P>, first: Timed<P>, window: nat, now: Instant)
    requires Coherent(s) && Keeps(s, first, window, now)
    ensures Keeps(Expired(s, now - window), first, window, now)
  {
    ExpiryExact(s, now - window);
    assert first.item.id in s.data ==> Find(s.byTime, first.item.id).Some?;
    assert Find(s.byTime, first.item.id).Some? ==> first.item.id in s.data;
  }

  lemma {:induction false} IHavesKeep(
    t: Tree, from: Peer, ihaves: seq<Announcement>, first: Timed<()>, window: nat, now: Instant)
    requires Keeps(t.observed, first, window, now)
    ensures Keeps(IHavesIn(t, from, ihaves, now).observed, first, window, now)
  {
    if ihaves != [] {
      var init, a := ihaves[..|ihaves| - 1], ihaves[|ihaves| - 1];
      IHavesKeep(t, from, init, first, window, now);
      InsertKeeps(IHavesIn(t, from, init, now).observed, Record(a.id, a.hop, from, ()), first, window, now);
    }
  }

  lemma NextKeepsReceived(cfg: Settings, t: Tree, i: Input, now: Instant, c: Choice, first: Timed<Bytes>)
    requires Sound(t, now) && Keeps(t.received, first, cfg.historyWindow, now)
    ensures Keeps(Next(cfg, t, i, now, c).tree.received, first, cfg.historyWindow, now)
  {
    hide Coherent, NotAfter, Keeps, Find;
    match i
    case Publish(k, payload) =>
      InsertKeeps(t.received, Record(k, 0, t.local, payload), first, cfg.historyWindow, now);
    case Receive(from, rpc) =>
      match rpc {
        case Message(k, hop, payload) =>
          InsertKeeps(t.received, Record(k, hop, from, payload), first, cfg.historyWindow, now);
        case IHave(ihaves) => IHavesFrame(t, from, ihaves, now);
        case _ =>
      }
    case Tick => ExpiryKeeps(t.received, first, cfg.historyWindow, now);
    case _ =>
  }

  lemma NextKeepsObserved(cfg: Settings, t: Tree, i: Input, now: Instant, c: Choice, first: Timed<()>)
    requires Sound(t, now) && Keeps(t.observed, first, cfg.historyWindow, now)
    ensures Keeps(Next(cfg, t, i, now, c).tree.observed, first, cfg.historyWindow, now)
  {
    hide Coherent, NotAfter, Keeps, Find;
    match i
    case Receive(from, rpc) =>
      match rpc {
        case IHave(ihaves) => IHavesKeep(t, from, ihaves, first, cfg.historyWindow, now);
        case _ =>
      }
    case Tick => ExpiryKeeps(t.observed, first, cfg.historyWindow, now);
    case _ =>
  }

  // What is on record after turn j is kept at every later point of the run.
  lemma {:induction false} RunKeepsReceived(
    cfg: Settings, t: Tree, start: Instant, turns: seq<Turn>, j: nat, n: nat, first: Timed<Bytes>)
    requires Legal(cfg, t, start, turns) && j < n <= |turns|
    requires Keeps(At(cfg, t, turns, j).tree.received, first, cfg.historyWindow, turns[j].at)
    ensures Keeps(Run(cfg, t, turns[..n]).received, first, cfg.historyWindow, turns[n - 1].at)
    decreases n
  {
    hide Coherent, NotAfter, IsSearch, Next, Find;
    var m := n - 1;
    TurnIsSound(cfg, t, start, turns, m);
    if j < m {
      RunKeepsReceived(cfg, t, start, turns, j, m, first);
      NextKeepsReceived(cfg, Run(cfg, t, turns[..m]), turns[m].input, turns[m].at, turns[m].choice, first);
    }
  }

  lemma {:induction false} RunKeepsObserved(
    cfg: Settings, t: Tree, start: Instant, turns: seq<Turn>, j: nat, n: nat, first: Timed<()>)
    requires Legal(cfg, t, start, turns) && j < n <= |turns|
    requires Keeps(At(cfg, t, turns, j).tree.observed, first, cfg.historyWindow, turns[j].at)
    ensures Keeps(Run(cfg, t, turns[..n]).observed, first, cfg.historyWindow, turns[n - 1].at)
    decreases n
  {
    hide Coherent, NotAfter, IsSearch, Next, Find;
    var m := n - 1;
    TurnIsSound(cfg, t, start, turns, m);
    if j < m {
      RunKeepsObserved(cfg, t, start, turns, j, m, first);
      NextKeepsObserved(cfg, Run(cfg, t, turns[..m]), turns[m].input, turns[m].at, turns[m].choice, first);
    }
  }

  // -- At most once per history window ----------------------------------------

  // At turn k the id is handed to the application or accepted for publishing.
  ghost predicate Surfaces(cfg: Settings, t: Tree, turns: seq<Turn>, k: nat, id: Id)
    requires k < |turns|
  {
    || (exists payload :: Deliver(id, payload) in At(cfg, t, turns, k).events)
    || (turns[k].input.Publish? && turns[k].input.id == id && Publishable(Before(cfg, t, turns, k), id))
  }

  // It was not on record before, it is from then on, and a turn surfaces one id at most.
  lemma SurfacingIsNew(cfg: Settings, t: Tree, start: Instant, turns: seq<Turn>, k: nat, id: Id)
    returns (first: Timed<Bytes>)
    requires Legal(cfg, t, start, turns) && k < |turns| && Surfaces(cfg, t, turns, k, id)
    ensures id !in Before(cfg, t, turns, k).received.data
    ensures first.item.id == id && first.time == turns[k].at
    ensures Find(At(cfg, t, turns, k).tree.received.byTime, id) == Some(first)
    ensures forall i :: 0 <= i < |At(cfg, t, turns, k).events| && At(cfg, t, turns, k).events[i].Deliver? ==> i == 0
  {
    hide IsSearch, Run;
    var b, now := Before(cfg, t, turns, k), turns[k].at;
    TurnIsSound(cfg, t, start, turns, k);
    first := Timed(Record(id, 0, b.local, []), now);
    match turns[k].input
    case Publish(_, payload) =>
      first := Timed(Record(id, 0, b.local, payload), now);
      FindAppend(b.received.byTime, first, id);
    case Receive(from, rpc) =>
      match rpc {
        case Message(_, hop, payload) =>
          first := Timed(Record(id, hop, from, payload), now);
          FindAppend(b.received.byTime, first, id);
        case Graft(ids) =>
          forall payload ensures Deliver(id, payload) !in At(cfg, t, turns, k).events {
            RepliesMembers(b.received, from, ids, Deliver(id, payload));
          }
        case _ =>
      }
    case _ =>
  }

  // Two surfacings of one id lie a whole history window apart, even where a
  // duplicate with fewer hops has replaced the cached record in between.
  lemma AtMostOncePerWindow(cfg: Settings, t: Tree, start: Instant, turns: seq<Turn>, j: nat, k: nat, id: Id)
    requires Legal(cfg, t, start, turns) && j < k < |turns|
    requires Surfaces(cfg, t, turns, j, id) && Surfaces(cfg, t, turns, k, id)
    ensures turns[k].at - turns[j].at >= cfg.historyWindow
  {
    hide Coherent, NotAfter, IsSearch, Next, Surfaces, Run;
    var first := SurfacingIsNew(cfg, t, start, turns, j, id);
    var _ := SurfacingIsNew(cfg, t, start, turns, k, id);
    RunKeepsReceived(cfg, t, start, turns, j, k, first);
    TurnIsSound(cfg, t, start, turns, k);
    OnRecord(Before(cfg, t, turns, k).received, id);
  }

  // -- Advertised means servable ----------------------------------------------

  lemma AnnouncedIsRecent(
    cfg: Settings, t: Tree, now: Instant, c: Choice, to: Peer, ihaves: seq<Announcement>, a: Announcement)
    requires Sound(t, now) && TickPermits(cfg, t, now, c)
    requires Notify(to, IHave(ihaves)) in Ticked(cfg, t, now, c).events && a in ihaves
    ensures to in t.lazy
    ensures a.id in t.received.data && Find(t.received.byTime, a.id).Some?
    ensures Find(t.received.byTime, a.id).value.time >= now - cfg.lazyPushWindow
    ensures Find(t.received.byTime, a.id).value.item.id == a.id
    ensures Find(t.received.byTime, a.id).value.item.hop == a.hop
  {
    hide Coherent, NotAfter, IsSearch, Find, Window, Grafts;
    var w := LazyWindow(cfg, t, now, c.lazySearch);
    var sent := IHave(Announcements(w));
    FanMembers(c.peers, sent, Notify(to, IHave(ihaves)));
    WindowMembers(t.received, now - cfg.lazyPushWindow, now, c.lazySearch);
    assert ihaves == Announcements(w);
    var i :| 0 <= i < |ihaves| && ihaves[i] == a;
    assert w[i] in w;
    OnRecord(t.received, a.id);
  }

  // Every id put in an IHAVE is still on record at every later point up to a
  // history window, less a lazy push window, after the announcement.
  lemma AdvertisedIsServable(
    cfg: Settings, t: Tree, start: Instant, turns: seq<Turn>, k: nat, m: nat,
    to: Peer, ihaves: seq<Announcement>, a: Announcement)
    requires Legal(cfg, t, start, turns) && k < m <= |turns|
    requires turns[k].input.Tick?
    requires Notify(to, IHave(ihaves)) in At(cfg, t, turns, k).events && a in ihaves
    requires turns[m - 1].at < turns[k].at + cfg.historyWindow - cfg.lazyPushWindow
    ensures a.id in Run(cfg, t, turns[..m]).received.data
  {
    hide Coherent, NotAfter, IsSearch, Ticked, Find, Run;
    var b, now := Before(cfg, t, turns, k), turns[k].at;
    TurnIsSound(cfg, t, start, turns, k);
    AnnouncedIsRecent(cfg, b, now, turns[k].choice, to, ihaves, a);
    var first := Find(b.received.byTime, a.id).value;
    NextKeepsReceived(cfg, b, Tick, now, turns[k].choice, first);
    RunKeepsReceived(cfg, t, start, turns, k, m, first);
    TurnIsSound(cfg, t, start, turns, m - 1);
    NextKeepsSound(cfg, Before(cfg, t, turns, m - 1), turns[m - 1].input, turns[m - 1].at, turns[m - 1].choice);
    OnRecord(Run(cfg, t, turns[..m]).received, a.id);
  }

  // -- Graft rounds -----------------------------------------------------------

  // Which ids a peer is asked for, read off the window alone.
  ghost function Wanted(received: Store<Bytes>, seen: set<Record<()>>, peer: Peer): set<Id> {
    set o | o in seen && o.sender == peer && o.id !in received.data :: o.id
  }

  // A message on record with as many hops as the announcement and the factor on top; an
  // announcement straight from the publisher's own record is none.
  ghost predicate Detour(cfg: Settings, received: Store<Bytes>, o: Record<()>) {
    && o.id in received.data && o.hop > 0
    && (cfg.hopOptimizationFactor == 0 || received.data[o.id].item.hop >= o.hop + cfg.hopOptimizationFactor)
  }

  // Missing, or recorded from much farther away.
  ghost predicate Worth(cfg: Settings, received: Store<Bytes>, o: Record<()>) {
    o.id !in received.data || Detour(cfg, received, o)
  }

  lemma ShortcutIsDetour(cfg: Settings, received: Store<Bytes>, o: Record<()>)
    requires o.id in received.data
    ensures Shortcut(cfg, received.data[o.id].item.hop, o.hop) <==> Detour(cfg, received, o)
  {}

  ghost predicate OnePerId(seen: set<Record<()>>) {
    forall a, b :: a in seen && b in seen && a.id == b.id ==> a == b
  }

  ghost predicate Grafted(cfg: Settings, received: Store<Bytes>, seen: set<Record<()>>, peer: Peer) {
    exists o :: o in seen && o.sender == peer && Worth(cfg, received, o)
  }

  function Asked(grafts: map<Peer, seq<Id>>, peer: Peer): seq<Id> {
    if peer in grafts then grafts[peer] else []
  }

  // The map built by the loop, without the order of the walk.
  lemma GraftsExact(
    cfg: Settings, received: Store<Bytes>, infos: seq<Record<()>>, seen: set<Record<()>>, peer: Peer)
    requires Enumerates(infos, seen) && OnePerId(seen)
    ensures peer in Grafts(cfg, received, infos) <==> Grafted(cfg, received, seen, peer)
    ensures Enumerates(Asked(Grafts(cfg, received, infos), peer), Wanted(received, seen, peer))
  {
    GraftedPeers(cfg, received, infos, seen, peer);
    AskedIds(cfg, received, infos, seen, peer);
  }

  lemma {:induction false} GraftedPeers(
    cfg: Settings, received: Store<Bytes>, infos: seq<Record<()>>, seen: set<Record<()>>, peer: Peer)
    requires Enumerates(infos, seen)
    ensures peer in Grafts(cfg, received, infos) <==> Grafted(cfg, received, seen, peer)
  {
    if infos != [] {
      var init, o := infos[..|infos| - 1], infos[|infos| - 1];
      assert infos == init + [o];
      GraftedPeers(cfg, received, init, seen - {o}, peer);
      if o.id in received.data {
        ShortcutIsDetour(cfg, received, o);
      }
      hide Shortcut, Detour;
    }
  }

  lemma {:induction false} AskedIds(
    cfg: Settings, received: Store<Bytes>, infos: seq<Record<()>>, seen: set<Record<()>>, peer: Peer)
    requires Enumerates(infos, seen) && OnePerId(seen)
    ensures Enumerates(Asked(Grafts(cfg, received, infos), peer), Wanted(received, seen, peer))
  {
    if infos != [] {
      hide Shortcut;
      var init, o := infos[..|infos| - 1], infos[|infos| - 1];
      assert infos == init + [o];
      var rest := seen - {o};
      AskedIds(cfg, received, init, rest, peer);
      var before, after := Asked(Grafts(cfg, received, init), peer), Asked(Grafts(cfg, received, infos), peer);
      if o.sender == peer && o.id !in received.data {
        assert Wanted(received, seen, peer) == Wanted(received, rest, peer) + {o.id};
        assert o.id !in Wanted(received, rest, peer);
        assert after == before + [o.id];
      } else {
        assert Wanted(received, seen, peer) == Wanted(received, rest, peer);
        assert after == before;
      }
    }
  }

  lemma GraftsOrderFree(
    cfg: Settings, received: Store<Bytes>, one: seq<Record<()>>, other: seq<Record<()>>, seen: set<Record<()>>)
    requires Enumerates(one, seen) && Enumerates(other, seen) && OnePerId(seen)
    ensures Grafts(cfg, received, one).Keys == Grafts(cfg, received, other).Keys
    ensures forall p ::
      multiset(Asked(Grafts(cfg, received, one), p)) == multiset(Asked(Grafts(cfg, received, other), p))
  {
    forall p
      ensures p in Grafts(cfg, received, one) <==> p in Grafts(cfg, received, other)
      ensures multiset(Asked(Grafts(cfg, received, one), p)) == multiset(Asked(Grafts(cfg, received, other), p))
    {
      GraftsExact(cfg, received, one, seen, p);
      GraftsExact(cfg, received, other, seen, p);
      SameElements(
        Asked(Grafts(cfg, received, one), p), Asked(Grafts(cfg, received, other), p), Wanted(received, seen, p));
    }
  }

  lemma {:induction false} EnumerationMultiset<T>(order: seq<T>, s: set<T>)
    requires Enumerates(order, s)
    ensures multiset(order) == multiset(s)
  {
    if order == [] {
      assert s == {};
    } else {
      var init, last := order[..|order| - 1], order[|order| - 1];
      assert order == init + [last];
      EnumerationMultiset(init, s - {last});
      assert s == (s - {last}) + {last};
    }
  }

  lemma SameElements<T>(a: seq<T>, b: seq<T>, s: set<T>)
    requires Enumerates(a, s) && Enumerates(b, s)
    ensures multiset(a) == multiset(b)
  {
    EnumerationMultiset(a, s);
    EnumerationMultiset(b, s);
  }

  lemma ExpectedAreFirst(cfg: Settings, t: Tree, now: Instant, search: Search)
    requires Sound(t, now) && IsSearch(search) && RepairSlice(cfg, t, now, search).Some?
    ensures OnePerId(Expected(cfg, t, now, search))
    ensures forall o :: o in Expected(cfg, t, now, search) ==>
      o.id in t.observed.data && Find(t.observed.byTime, o.id).value.item == o
      && now - cfg.lazyPushWindow <= Find(t.observed.byTime, o.id).value.time <= now - 2 * cfg.tickFrequency
    ensures forall id |
      id in t.observed.data
      && now - cfg.lazyPushWindow < Find(t.observed.byTime, id).value.time < now - 2 * cfg.tickFrequency ::
      Find(t.observed.byTime, id).value.item in Expected(cfg, t, now, search)
  {
    var start, end := now - cfg.lazyPushWindow, now - 2 * cfg.tickFrequency;
    hide IsSearch, Window, Find;
    if start <= end {
      hide Coherent;
      WindowMembers(t.observed, start, end, search);
    } else {
      BackwardsWindowEmpty(t.observed, start, end, search);
      hide Coherent;
    }
  }

  // Every Graft a tick sends is a row of that map.
  lemma GraftsOnTheWire(cfg: Settings, t: Tree, now: Instant, c: Choice)
    requires TickPermits(cfg, t, now, c)
    ensures forall p, ids :: Notify(p, Graft(ids)) in Ticked(cfg, t, now, c).events <==>
      p in Grafts(cfg, t.received, c.infos) && ids == Grafts(cfg, t.received, c.infos)[p]
  {
    hide Grafts, LazyWindow, Expected, RepairSlice;
    var g := Grafts(cfg, t.received, c.infos);
    var out := GraftsOut(g, c.grafted);
    var ihaves := IHavesOut(cfg, t, now, c.lazySearch, c.peers);
    assert forall a :: a in ihaves ==> a.Notify? && a.rpc.IHave?;
    assert forall k :: 0 <= k < |out| ==> out[k] == Notify(c.grafted[k], Graft(g[c.grafted[k]]));
    forall p | p in g ensures Notify(p, Graft(g[p])) in ihaves + out {
      var k :| 0 <= k < |c.grafted| && c.grafted[k] == p;
      assert out[k] in out;
    }
  }

  lemma NobodyGraftedTwice(cfg: Settings, t: Tree, now: Instant, c: Choice)
    requires TickPermits(cfg, t, now, c)
    ensures forall i, j |
      0 <= i < j < |Ticked(cfg, t, now, c).events|
      && Ticked(cfg, t, now, c).events[i].rpc.Graft? && Ticked(cfg, t, now, c).events[j].rpc.Graft? ::
      Ticked(cfg, t, now, c).events[i].peer != Ticked(cfg, t, now, c).events[j].peer
  {
    hide Grafts, LazyWindow, Expected, RepairSlice;
    var ihaves := IHavesOut(cfg, t, now, c.lazySearch, c.peers);
    assert forall k :: 0 <= k < |ihaves| ==> ihaves[k].Notify? && ihaves[k].rpc.IHave?;
  }

  // One repair round of any run, as seen on the wire: requests are for ids
  // announced but not received, each once, from their first announcer; every
  // such id is asked for; nobody is grafted twice; an empty request is sent exactly
  // where nothing is missing from that peer and it announced a shortcut.
  lemma GraftRound(cfg: Settings, t: Tree, start: Instant, turns: seq<Turn>, k: nat, p: Peer)
    requires Legal(cfg, t, start, turns) && k < |turns| && turns[k].input.Tick?
    ensures var b, sent := Before(cfg, t, turns, k), At(cfg, t, turns, k).events;
      var seen := Expected(cfg, b, turns[k].at, turns[k].choice.repairSearch);
      && (forall ids :: Notify(p, Graft(ids)) in sent ==> Enumerates(ids, Wanted(b.received, seen, p)))
      && (Wanted(b.received, seen, p) != {} ==> exists ids :: Notify(p, Graft(ids)) in sent)
      && (Notify(p, Graft([])) in sent <==>
            Wanted(b.received, seen, p) == {} && exists o :: o in seen && o.sender == p && Detour(cfg, b.received, o))
      && (forall i, j | 0 <= i < j < |sent| && sent[i].rpc.Graft? && sent[j].rpc.Graft? :: sent[i].peer != sent[j].peer)
  {
    hide Coherent, NotAfter, IsSearch, Find, Expected, Grafts, Ticked, Run;
    var b, now, c := Before(cfg, t, turns, k), turns[k].at, turns[k].choice;
    TurnIsSound(cfg, t, start, turns, k);
    var seen := Expected(cfg, b, now, c.repairSearch);
    var g := Grafts(cfg, b.received, c.infos);
    ExpectedAreFirst(cfg, b, now, c.repairSearch);
    GraftsExact(cfg, b.received, c.infos, seen, p);
    GraftsOnTheWire(cfg, b, now, c);
    NobodyGraftedTwice(cfg, b, now, c);
    assert p in g ==> Notify(p, Graft(g[p])) in At(cfg, t, turns, k).events;
    if Wanted(b.received, seen, p) != {} {
      assert Asked(g, p) != [];
    } else {
      EnumerationLength(Asked(g, p), Wanted(b.received, seen, p));
      NothingWanted(cfg, b.received, seen, p);
    }
  }

  // Where nothing is missing from a peer only a shortcut makes it worth a graft.
  lemma NothingWanted(cfg: Settings, received: Store<Bytes>, seen: set<Record<()>>, p: Peer)
    requires Wanted(received, seen, p) == {}
    ensures Grafted(cfg, received, seen, p) <==> exists o :: o in seen && o.sender == p && Detour(cfg, received, o)
  {
    forall o | o in seen && o.sender == p ensures o.id in received.data {
      assert o.id !in received.data ==> o.id in Wanted(received, seen, p);
    }
    hide Detour, Wanted;
    if o :| o in seen && o.sender == p && Worth(cfg, received, o) {
      assert Detour(cfg, received, o);
    }
    if o :| o in seen && o.sender == p && Detour(cfg, received, o) {
      assert Worth(cfg, received, o);
    }
  }

  // The same round by the clock: what is asked for was first announced by that peer
  // inside the closed repair window, and whatever it first announced strictly inside
  // and is missing, or was recorded from much farther away, brings it a graft.
  lemma GraftRoundByTime(cfg: Settings, t: Tree, start: Instant, turns: seq<Turn>, k: nat, p: Peer, id: Id)
    requires Legal(cfg, t, start, turns) && k < |turns| && turns[k].input.Tick?
    requires id in Before(cfg, t, turns, k).observed.data
    ensures var b, sent := Before(cfg, t, turns, k), At(cfg, t, turns, k).events;
      var begin, end := turns[k].at - cfg.lazyPushWindow, turns[k].at - 2 * cfg.tickFrequency;
      && Find(b.observed.byTime, id).Some?
      && var first := Find(b.observed.byTime, id).value;
      && ((exists ids :: Notify(p, Graft(ids)) in sent && id in ids) ==>
            id !in b.received.data && first.item.sender == p && begin <= first.time <= end)
      && (first.item.sender == p && begin < first.time < end && id !in b.received.data ==>
            exists ids :: Notify(p, Graft(ids)) in sent && id in ids)
      && (first.item.sender == p && begin < first.time < end && Detour(cfg, b.received, first.item) ==>
            exists ids :: Notify(p, Graft(ids)) in sent)
  {
    hide Coherent, NotAfter, IsSearch, Find, Expected, Grafts, Ticked, Run, Detour;
    var b, search := Before(cfg, t, turns, k), turns[k].choice.repairSearch;
    TurnIsSound(cfg, t, start, turns, k);
    OnRecord(b.observed, id);
    FindHit(b.observed.byTime, id);
    ExpectedAreFirst(cfg, b, turns[k].at, search);
    var seen, first := Expected(cfg, b, turns[k].at, search), Find(b.observed.byTime, id).value;
    GraftRound(cfg, t, start, turns, k, p);
    hide Legal, At, Before;
    if first.item in seen && first.item.sender == p && id !in b.received.data {
      assert id in Wanted(b.received, seen, p);
    }
  }

  // -- Recovery of a missing message ------------------------------------------

  lemma {:induction false} FirstAnnouncer(t: Tree, from: Peer, ihaves: seq<Announcement>, now: Instant, id: Id)
    returns (first: Timed<()>)
    requires Find(t.observed.byTime, id).None? && (exists a :: a in ihaves && a.id == id)
    requires Sound(t, now)
    ensures Find(IHavesIn(t, from, ihaves, now).observed.byTime, id) == Some(first)
    ensures first.item.id == id && first.item.sender == from && first.time == now
    ensures exists k ::
      && 0 <= k < |ihaves| && ihaves[k] == Announcement(id, first.item.hop)
      && forall j :: 0 <= j < k ==> ihaves[j].id != id
  {
    hide Coherent, NotAfter;
    var n := |ihaves| - 1;
    var init, a := ihaves[..n], ihaves[n];
    assert ihaves == init + [a];
    var t' := IHavesIn(t, from, init, now);
    var e := Timed(Record(a.id, a.hop, from, ()), now);
    FindAppend(t'.observed.byTime, e, id);
    IHavesKeepSound(t, from, init, now);
    OnRecord(t'.observed, a.id);
    if exists b :: b in init && b.id == id {
      first := FirstAnnouncer(t, from, init, now, id);
      var k :| 0 <= k < |init| && init[k] == Announcement(id, first.item.hop)
        && forall j :: 0 <= j < k ==> init[j].id != id;
      assert ihaves[k] == Announcement(id, first.item.hop);
    } else {
      NeverAnnounced(t, from, init, now, id);
      first := e;
      assert ihaves[n] == Announcement(id, first.item.hop);
    }
  }

  lemma {:induction false} NeverAnnounced(t: Tree, from: Peer, ihaves: seq<Announcement>, now: Instant, id: Id)
    requires forall a :: a in ihaves ==> a.id != id
    ensures Find(IHavesIn(t, from, ihaves, now).observed.byTime, id) == Find(t.observed.byTime, id)
  {
    if ihaves != [] {
      var init, a := ihaves[..|ihaves| - 1], ihaves[|ihaves| - 1];
      NeverAnnounced(t, from, init, now, id);
      FindAppend(IHavesIn(t, from, init, now).observed.byTime, Timed(Record(a.id, a.hop, from, ()), now), id);
    }
  }

  // One node of a pair and its run.
  datatype Node = Node(self: Peer, initial: Tree, start: Instant, turns: seq<Turn>)

  // What a tick announces.
  function Advertised(cfg: Settings, t: Tree, now: Instant, c: Choice): seq<Announcement> {
    Announcements(LazyWindow(cfg, t, now, c.lazySearch))
  }

  // An id inside the lazy push window is announced to every lazy peer.
  lemma HeldIsAnnounced(cfg: Settings, t: Tree, now: Instant, c: Choice, to: Peer, id: Id)
    returns (x: Announcement)
    requires Sound(t, now) && TickPermits(cfg, t, now, c) && to in t.lazy && id in t.received.data
    requires now - cfg.lazyPushWindow < Find(t.received.byTime, id).value.time < now
    ensures x.id == id && x in Advertised(cfg, t, now, c)
    ensures Notify(to, IHave(Advertised(cfg, t, now, c))) in Ticked(cfg, t, now, c).events
  {
    hide Coherent, NotAfter, IsSearch, Window, Grafts, Find;
    var w, sent := LazyWindow(cfg, t, now, c.lazySearch), IHave(Advertised(cfg, t, now, c));
    WindowMembers(t.received, now - cfg.lazyPushWindow, now, c.lazySearch);
    FindHit(t.received.byTime, id);
    OnRecord(t.received, id);
    var k :| 0 <= k < |w| && w[k] == Find(t.received.byTime, id).value.item;
    x := Announcements(w)[k];
    FanMembers(c.peers, sent, Notify(to, sent));
  }

  // The hearing side: an id first heard of from `from` and still missing when
  // it falls inside the repair window is asked for from `from`.
  lemma MissingIsRequested(
    cfg: Settings, b: Node, from: Peer, i: nat, j: nat, ihaves: seq<Announcement>, x: Announcement)
    returns (ids: seq<Id>)
    requires Legal(cfg, b.initial, b.start, b.turns) && i < j < |b.turns|
    requires b.turns[i].input == Receive(from, IHave(ihaves)) && x in ihaves
    requires x.id !in Before(cfg, b.initial, b.turns, i).observed.data
    requires b.turns[j].input.Tick? && x.id !in Before(cfg, b.initial, b.turns, j).received.data
    requires b.turns[j].at - cfg.lazyPushWindow < b.turns[i].at < b.turns[j].at - 2 * cfg.tickFrequency
    requires cfg.lazyPushWindow <= cfg.historyWindow
    ensures Notify(from, Graft(ids)) in At(cfg, b.initial, b.turns, j).events && x.id in ids
  {
    hide Coherent, NotAfter, IsSearch, Find, Run, Ticked, Grafts, Expected;
    var early, late, now := Before(cfg, b.initial, b.turns, i), Before(cfg, b.initial, b.turns, j), b.turns[j].at;
    var search := b.turns[j].choice.repairSearch;
    TurnIsSound(cfg, b.initial, b.start, b.turns, i);
    TurnIsSound(cfg, b.initial, b.start, b.turns, j);
    OnRecord(early.observed, x.id);
    var first := FirstAnnouncer(early, from, ihaves, b.turns[i].at, x.id);
    RunKeepsObserved(cfg, b.initial, b.start, b.turns, i, j, first);
    TurnIsSound(cfg, b.initial, b.start, b.turns, j - 1);
    OnRecord(late.observed, x.id);
    ExpectedAreFirst(cfg, late, now, search);
    assert first.item in Expected(cfg, late, now, search);
    assert x.id in Wanted(late.received, Expected(cfg, late, now, search), from);
    GraftRound(cfg, b.initial, b.start, b.turns, j, from);
    ids :| Notify(from, Graft(ids)) in At(cfg, b.initial, b.turns, j).events;
  }

  // The announcing side: until expiry the request is served and the link made eager.
  lemma RequestIsServed(
    cfg: Settings, a: Node, to: Peer, k: nat, m: nat, ihaves: seq<Announcement>, x: Announcement, ids: seq<Id>)
    requires Legal(cfg, a.initial, a.start, a.turns) && k < m < |a.turns|
    requires a.turns[k].input.Tick? && Notify(to, IHave(ihaves)) in At(cfg, a.initial, a.turns, k).events && x in ihaves
    requires a.turns[m].input == Receive(to, Graft(ids)) && x.id in ids
    requires a.turns[m].at < a.turns[k].at + cfg.historyWindow - cfg.lazyPushWindow
    ensures to in At(cfg, a.initial, a.turns, m).tree.eager && to !in At(cfg, a.initial, a.turns, m).tree.lazy
    ensures exists hop, payload :: Notify(to, Message(x.id, hop, payload)) in At(cfg, a.initial, a.turns, m).events
  {
    hide Coherent, NotAfter, IsSearch, Find, Run, Ticked;
    var before := Before(cfg, a.initial, a.turns, m);
    TurnIsSound(cfg, a.initial, a.start, a.turns, m);
    TurnIsSound(cfg, a.initial, a.start, a.turns, m - 1);
    AdvertisedIsServable(cfg, a.initial, a.start, a.turns, k, m, to, ihaves, x);
    var r := before.received.data[x.id].item;
    RepliesMembers(before.received, to, ids, Notify(to, Message(x.id, r.hop, r.payload)));
  }

  // End to end, with any other traffic in between at both nodes: a ticks while it holds
  // the id inside its lazy push window and b is lazy; b first hears of the id from that
  // announcement and ticks while it falls inside b's repair window and is still missing.
  lemma BoundedRecovery(cfg: Settings, a: Node, b: Node, k: nat, i: nat, j: nat, id: Id)
    returns (ihaves: seq<Announcement>, ids: seq<Id>)
    requires Legal(cfg, a.initial, a.start, a.turns) && k < |a.turns| && a.turns[k].input.Tick?
    requires var before := Before(cfg, a.initial, a.turns, k);
      && b.self in before.lazy && id in before.received.data && Find(before.received.byTime, id).Some?
      && a.turns[k].at - cfg.lazyPushWindow < Find(before.received.byTime, id).value.time < a.turns[k].at
    requires Legal(cfg, b.initial, b.start, b.turns) && i < j < |b.turns|
    requires b.turns[i].input ==
      Receive(a.self, IHave(Advertised(cfg, Before(cfg, a.initial, a.turns, k), a.turns[k].at, a.turns[k].choice)))
    requires id !in Before(cfg, b.initial, b.turns, i).observed.data
    requires b.turns[j].input.Tick? && id !in Before(cfg, b.initial, b.turns, j).received.data
    requires b.turns[j].at - cfg.lazyPushWindow < b.turns[i].at < b.turns[j].at - 2 * cfg.tickFrequency
    requires cfg.lazyPushWindow <= cfg.historyWindow
    // a's announcement is what b hears
    ensures Notify(b.self, IHave(ihaves)) in At(cfg, a.initial, a.turns, k).events
    ensures b.turns[i].input == Receive(a.self, IHave(ihaves)) && exists x :: x in ihaves && x.id == id
    // b asks a for the message
    ensures Notify(a.self, Graft(ids)) in At(cfg, b.initial, b.turns, j).events && id in ids
    // whenever that request reaches a in time, a makes the link eager and answers
    ensures forall m |
      k < m < |a.turns| && a.turns[m].input == Receive(b.self, Graft(ids))
      && a.turns[m].at < a.turns[k].at + cfg.historyWindow - cfg.lazyPushWindow ::
      b.self in At(cfg, a.initial, a.turns, m).tree.eager
      && exists hop, payload :: Notify(b.self, Message(id, hop, payload)) in At(cfg, a.initial, a.turns, m).events
    // whenever such an answer reaches b still missing the message, b delivers it
    ensures forall n, hop, payload |
      0 <= n < |b.turns| && b.turns[n].input == Receive(a.self, Message(id, hop, payload))
      && id !in Before(cfg, b.initial, b.turns, n).received.data ::
      Deliver(id, cfg.Open(payload)) in At(cfg, b.initial, b.turns, n).events
  {
    hide Coherent, NotAfter, Ticked, Find, TickPermits, Run, Advertised;
    TurnIsSound(cfg, a.initial, a.start, a.turns, k);
    var before, c := Before(cfg, a.initial, a.turns, k), a.turns[k].choice;
    ihaves := Advertised(cfg, before, a.turns[k].at, c);
    var x := HeldIsAnnounced(cfg, before, a.turns[k].at, c, b.self, id);
    ids := MissingIsRequested(cfg, b, a.self, i, j, ihaves, x);
    hide Legal, Before;
    forall m |
      k < m < |a.turns| && a.turns[m].input == Receive(b.self, Graft(ids))
      && a.turns[m].at < a.turns[k].at + cfg.historyWindow - cfg.lazyPushWindow
      ensures b.self in At(cfg, a.initial, a.turns, m).tree.eager
      ensures exists hop, payload :: Notify(b.self, Message(id, hop, payload)) in At(cfg, a.initial, a.turns, m).events
    {
      RequestIsServed(cfg, a, b.self, k, m, ihaves, x, ids);
    }
  }
}
