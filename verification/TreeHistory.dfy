/** What a node's two caches hold after any run, told from its inputs alone: which
    ids it still knows, with which records, and hence when an id surfaces again. */
module TreeHistory {
  import opened Types
  import opened Cache
  import opened CacheHistory
  import opened TreeSpec
  import opened TreeRuns

  // -- A tick forgets ------------------------------------------------------------------

  // A tick keeps exactly what was first seen less than a history window ago, as it was.
  lemma TickForgets(cfg: Settings, t: Tree, now: Instant, c: Choice, id: Id)
    requires Sound(t, now)
    ensures var t' := Next(cfg, t, Tick, now, c).tree; var since := now - cfg.historyWindow;
      && (id in t'.received.data <==> id in t.received.data && Find(t.received.byTime, id).value.time > since)
      && (id in t'.observed.data <==> id in t.observed.data && Find(t.observed.byTime, id).value.time > since)
      && (id in t'.received.data ==>
            && t'.received.data[id] == t.received.data[id]
            && Find(t'.received.byTime, id) == Find(t.received.byTime, id))
      && (id in t'.observed.data ==>
            && t'.observed.data[id] == t.observed.data[id]
            && Find(t'.observed.byTime, id) == Find(t.observed.byTime, id))
  {
    ExpiryExact(t.received, now - cfg.historyWindow);
    ExpiryExact(t.observed, now - cfg.historyWindow);
  }

  // -- The calls a run makes on its caches -----------------------------------------------

  function Heard(from: Peer, ihaves: seq<Announcement>, at: Instant): seq<Call<()>> {
    seq(|ihaves|, i requires 0 <= i < |ihaves| =>
      Call(Insert(Record(ihaves[i].id, ihaves[i].hop, from, ())), at))
  }

  // What one turn calls on the cache of announcements.
  function Sighting(cfg: Settings, turn: Turn): seq<Call<()>> {
    match turn.input
    case Receive(from, IHave(ihaves)) => Heard(from, ihaves, turn.at)
    case Tick => [Call(RemoveOlderThan(turn.at - cfg.historyWindow), turn.at)]
    case _ => []
  }

  function Sightings(cfg: Settings, turns: seq<Turn>): seq<Call<()>> {
    if turns == [] then []
    else Sightings(cfg, turns[..|turns| - 1]) + Sighting(cfg, turns[|turns| - 1])
  }

  // And on the cache of messages; `unheard` says whether a publication is of a new id.
  function Recording(cfg: Settings, local: Peer, turn: Turn, unheard: bool): seq<Call<Bytes>> {
    match turn.input
    case Publish(id, payload) => if unheard then [Call(Insert(Record(id, 0, local, payload)), turn.at)] else []
    case Receive(from, Message(id, hop, payload)) => [Call(Insert(Record(id, hop, from, payload)), turn.at)]
    case Tick => [Call(RemoveOlderThan(turn.at - cfg.historyWindow), turn.at)]
    case _ => []
  }

  // Neither announced nor recorded since it was last forgotten.
  predicate Unheard(cfg: Settings, local: Peer, turns: seq<Turn>, id: Id)
    decreases |turns|, 1
  {
    Epoch(Sightings(cfg, turns), id) == [] && Epoch(Records(cfg, local, turns), id) == []
  }

  function Records(cfg: Settings, local: Peer, turns: seq<Turn>): seq<Call<Bytes>>
    decreases |turns|, 0
  {
    if turns == [] then []
    else
      var init, last := turns[..|turns| - 1], turns[|turns| - 1];
      Records(cfg, local, init)
      + Recording(cfg, local, last, last.input.Publish? && Unheard(cfg, local, init, last.input.id))
  }

  ghost predicate Blank(t: Tree) {
    t.observed == Store(map[], []) && t.received == Store(map[], [])
  }

  ghost predicate Until<P>(calls: seq<Call<P>>, now: Instant) {
    Clocked(calls) && (forall c :: c in calls ==> c.at <= now)
  }

  lemma Appended<P>(calls: seq<Call<P>>, c: Call<P>, before: Instant)
    requires Until(calls, before) && before <= c.at
    ensures Until(calls + [c], c.at)
    ensures Replay(calls + [c]) == Called(Replay(calls), c)
  {
    hide Inserted, Expired;
    assert (calls + [c])[..|calls|] == calls;
    forall i | 0 <= i < |calls| ensures calls[i].at <= c.at {
      assert calls[i] in calls;
    }
  }

  lemma {:induction false} HeardReplays(
    calls: seq<Call<()>>, t: Tree, from: Peer, ihaves: seq<Announcement>, before: Instant, now: Instant)
    requires Until(calls, before) && before <= now && t.observed == Replay(calls)
    ensures Until(calls + Heard(from, ihaves, now), now)
    ensures IHavesIn(t, from, ihaves, now).observed == Replay(calls + Heard(from, ihaves, now))
  {
    if ihaves == [] {
      assert calls + Heard(from, ihaves, now) == calls;
    } else {
      var init, a := ihaves[..|ihaves| - 1], ihaves[|ihaves| - 1];
      HeardReplays(calls, t, from, init, before, now);
      var c := Call(Insert(Record(a.id, a.hop, from, ())), now);
      Appended(calls + Heard(from, init, now), c, now);
      assert calls + Heard(from, ihaves, now) == calls + Heard(from, init, now) + [c];
    }
  }

  lemma Later<P>(calls: seq<Call<P>>, before: Instant, now: Instant)
    requires Until(calls, before) && before <= now
    ensures Until(calls, now)
  {}

  ghost predicate Recalls<P>(s: Store<P>, calls: seq<Call<P>>, now: Instant) {
    Until(calls, now) && s == Replay(calls)
  }

  lemma RecallsAgrees<P>(s: Store<P>, calls: seq<Call<P>>, now: Instant, id: Id)
    requires Recalls(s, calls, now)
    ensures Agrees(s, Epoch(calls, id), id)
  {
    hide *;
    assert Until(calls, now) && s == Replay(calls) && (calls != [] ==> calls[|calls| - 1].at <= now) by {
      RecallsMeans(s, calls, now);
    }
    UntilMeans(calls, now);
    HistoryTheorem(calls, now);
  }

  lemma RecallsMeans<P>(s: Store<P>, calls: seq<Call<P>>, now: Instant)
    requires Recalls(s, calls, now)
    ensures Until(calls, now) && s == Replay(calls) && (calls != [] ==> calls[|calls| - 1].at <= now)
  {
    if calls != [] {
      assert calls[|calls| - 1] in calls;
    }
  }

  lemma UntilMeans<P>(calls: seq<Call<P>>, now: Instant)
    requires Until(calls, now)
    ensures Clocked(calls)
  {}

  // -- Every run -------------------------------------------------------------------------

  lemma ObservedStep(cfg: Settings, t: Tree, calls: seq<Call<()>>, before: Instant, turn: Turn)
    requires Recalls(t.observed, calls, before) && before <= turn.at
    ensures Recalls(
        Next(cfg, t, turn.input, turn.at, turn.choice).tree.observed, calls + Sighting(cfg, turn), turn.at)
  {
    hide Until, Inserted, Expired, Replay, IHavesIn, Heard;
    Later(calls, before, turn.at);
    assert calls + [] == calls;
    match turn.input
    case Receive(from, rpc) =>
      if rpc.IHave? {
        HeardReplays(calls, t, from, rpc.ihaves, before, turn.at);
      }
    case Tick =>
      var c: Call<()> := Call(RemoveOlderThan(turn.at - cfg.historyWindow), turn.at);
      Appended(calls, c, before);
    case _ =>
  }

  lemma ReceivedStep(cfg: Settings, t: Tree, calls: seq<Call<Bytes>>, before: Instant, turn: Turn, unheard: bool)
    requires Recalls(t.received, calls, before) && before <= turn.at
    requires turn.input.Publish? ==> (Publishable(t, turn.input.id) <==> unheard)
    ensures Recalls(
        Next(cfg, t, turn.input, turn.at, turn.choice).tree.received,
        calls + Recording(cfg, t.local, turn, unheard), turn.at)
  {
    hide Until, Inserted, Expired, Replay, IHavesIn;
    Later(calls, before, turn.at);
    assert calls + [] == calls;
    match turn.input
    case Publish(id, payload) =>
      Appended(calls, Call(Insert(Record(id, 0, t.local, payload)), turn.at), before);
    case Receive(from, rpc) =>
      match rpc {
        case Message(id, hop, payload) =>
          Appended(calls, Call(Insert(Record(id, hop, from, payload)), turn.at), before);
        case IHave(ihaves) => IHavesFrame(t, from, ihaves, turn.at);
        case _ =>
      }
    case Tick =>
      var c: Call<Bytes> := Call(RemoveOlderThan(turn.at - cfg.historyWindow), turn.at);
      Appended(calls, c, before);
    case _ =>
  }

  lemma {:induction false} RunRecalls(cfg: Settings, t: Tree, start: Instant, turns: seq<Turn>)
    requires Legal(cfg, t, start, turns) && Blank(t)
    ensures var after, now := Run(cfg, t, turns), Clock(start, turns);
      && after.local == t.local
      && Recalls(after.observed, Sightings(cfg, turns), now)
      && Recalls(after.received, Records(cfg, t.local, turns), now)
  {
    hide Sound, Permits, Next, Recalls, Epoch, Publishable, Sighting, Recording, Unheard;
    if turns == [] {
      StartsBlank(start);
    } else {
      var init, last := turns[..|turns| - 1], turns[|turns| - 1];
      RunRecalls(cfg, t, start, init);
      var b := Run(cfg, t, init);
      NextKeepsLocal(cfg, b, last.input, last.at, last.choice);
      ObservedStep(cfg, b, Sightings(cfg, init), Clock(start, init), last);
      if last.input.Publish? {
        PublishableIffUnheard(cfg, b, t.local, init, Clock(start, init), last.input.id);
      }
      ReceivedStep(cfg, b, Records(cfg, t.local, init), Clock(start, init), last,
                   last.input.Publish? && Unheard(cfg, t.local, init, last.input.id));
    }
  }

  lemma StartsBlank(start: Instant)
    ensures Recalls<()>(Store(map[], []), [], start) && Recalls<Bytes>(Store(map[], []), [], start)
  {}

  lemma PublishableIffUnheard(cfg: Settings, t: Tree, local: Peer, turns: seq<Turn>, now: Instant, id: Id)
    requires Recalls(t.observed, Sightings(cfg, turns), now) && Recalls(t.received, Records(cfg, local, turns), now)
    ensures Publishable(t, id) <==> Unheard(cfg, local, turns, id)
  {
    hide Recalls, Epoch, Sightings, Records;
    RecallsAgrees(t.observed, Sightings(cfg, turns), now, id);
    RecallsAgrees(t.received, Records(cfg, local, turns), now, id);
  }

  // After any run of a node that started with empty caches, whatever its peers sent: an
  // id is on record exactly when it was recorded since it was last forgotten, the deque
  // has the first of those records and the map the earliest of those with the fewest
  // hops; and the same of announcements.
  lemma CachesAreHistories(cfg: Settings, t: Tree, start: Instant, turns: seq<Turn>, id: Id)
    requires Legal(cfg, t, start, turns) && Blank(t)
    ensures Agrees(Run(cfg, t, turns).observed, Epoch(Sightings(cfg, turns), id), id)
    ensures Agrees(Run(cfg, t, turns).received, Epoch(Records(cfg, t.local, turns), id), id)
  {
    hide *;
    RunRecalls(cfg, t, start, turns);
    RecallsAgrees(Run(cfg, t, turns).observed, Sightings(cfg, turns), Clock(start, turns), id);
    RecallsAgrees(Run(cfg, t, turns).received, Records(cfg, t.local, turns), Clock(start, turns), id);
  }

  // -- When an id surfaces -----------------------------------------------------------------

  // What a turn delivers, from a state of which it is known what is on record.
  lemma DeliveredIff(cfg: Settings, t: Tree, i: Input, now: Instant, c: Choice, id: Id, payload: Bytes)
    requires Permits(cfg, t, i, now, c) && Coherent(t.received)
    ensures Deliver(id, payload) in Next(cfg, t, i, now, c).events <==>
            && i.Receive? && i.rpc.Message? && i.rpc.id == id && payload == cfg.Open(i.rpc.payload)
            && id !in t.received.data
  {
    hide Coherent, IsSearch, Inserted, Window, Grafts;
    var e := Next(cfg, t, i, now, c).events;
    match i
    case Publish(k, p) => FanMembers(c.peers, Message(k, 1, p), Deliver(id, payload));
    case Receive(from, rpc) =>
      match rpc {
        case Message(k, hop, p) =>
          FanMembers(c.peers, Message(k, NextHop(hop), p), Deliver(id, payload));
          assert k !in t.received.data ==> e[0] == Deliver(k, cfg.Open(p));
        case Graft(ids) => RepliesMembers(t.received, from, ids, Deliver(id, payload));
        case _ =>
      }
    case Tick =>
    case _ =>
  }

  // An id is delivered exactly when it arrives with nothing recorded of it since it was
  // last forgotten, and accepted for publishing exactly when nothing was announced of it
  // either: once per epoch, and in every epoch.
  lemma SurfacesExactly(cfg: Settings, t: Tree, start: Instant, turns: seq<Turn>, k: nat, id: Id)
    requires Legal(cfg, t, start, turns) && Blank(t) && k < |turns|
    ensures Surfaces(cfg, t, turns, k, id) <==>
            var i, past := turns[k].input, turns[..k];
            || (i.Receive? && i.rpc.Message? && i.rpc.id == id && Epoch(Records(cfg, t.local, past), id) == [])
            || (i.Publish? && i.id == id && Unheard(cfg, t.local, past, id))
  {
    hide Sound, Permits, Next, Epoch, Records, Sightings, Run, Legal, Blank;
    var b, i := Before(cfg, t, turns, k), turns[k].input;
    PrefixLegal(cfg, t, start, turns, k);
    TurnIsSound(cfg, t, start, turns, k);
    CachesAreHistories(cfg, t, start, turns[..k], id);
    SoundReceived(b, turns[k].at);
    forall payload
      ensures Deliver(id, payload) in At(cfg, t, turns, k).events <==>
              && i.Receive? && i.rpc.Message? && i.rpc.id == id && payload == cfg.Open(i.rpc.payload)
              && id !in b.received.data
    {
      DeliveredIff(cfg, b, i, turns[k].at, turns[k].choice, id, payload);
    }
    if i.Receive? && i.rpc.Message? {
      assert i.rpc.id == id && id !in b.received.data ==>
        Deliver(id, cfg.Open(i.rpc.payload)) in At(cfg, t, turns, k).events;
    }
  }

  lemma SoundReceived(t: Tree, now: Instant)
    requires Sound(t, now)
    ensures Coherent(t.received)
  {}

  // -- Forgotten means new again -------------------------------------------------------------

  // Nothing but a message with the id, or its publication, puts it on record.
  ghost predicate Brings(i: Input, id: Id) {
    (i.Publish? && i.id == id) || (i.Receive? && i.rpc.Message? && i.rpc.id == id)
  }

  lemma StaysForgotten(cfg: Settings, t: Tree, i: Input, now: Instant, c: Choice, id: Id)
    requires Sound(t, now) && id !in t.received.data && !Brings(i, id)
    ensures id !in Next(cfg, t, i, now, c).tree.received.data
  {
    if i.Tick? {
      TickForgets(cfg, t, now, c, id);
    } else if i.Receive? && i.rpc.IHave? {
      IHavesFrame(t, i.from, i.rpc.ihaves, now);
    }
  }

  lemma {:induction false} GoneSince(
    cfg: Settings, t: Tree, start: Instant, turns: seq<Turn>, j: nat, k: nat, id: Id)
    requires Legal(cfg, t, start, turns) && j < k < |turns| && turns[j].input.Tick?
    requires var b := Before(cfg, t, turns, j);
      id in b.received.data && Find(b.received.byTime, id).Some? ==>
        Find(b.received.byTime, id).value.time <= turns[j].at - cfg.historyWindow
    requires forall m :: j < m < k ==> !Brings(turns[m].input, id)
    ensures id !in Before(cfg, t, turns, k).received.data
    decreases k
  {
    hide Coherent, NotAfter, Next, Find, Run, Brings;
    var m := k - 1;
    TurnIsSound(cfg, t, start, turns, m);
    var b := Before(cfg, t, turns, m);
    if m == j {
      TickForgets(cfg, b, turns[j].at, turns[j].choice, id);
      OnRecord(b.received, id);
    } else {
      GoneSince(cfg, t, start, turns, j, m, id);
      StaysForgotten(cfg, b, turns[m].input, turns[m].at, turns[m].choice, id);
    }
  }

  // An id whose window has run out at some tick is delivered and forwarded to every other
  // eager peer when it next arrives, and nobody is pruned for it.
  lemma ForgottenSurfacesAgain(
    cfg: Settings, t: Tree, start: Instant, turns: seq<Turn>, j: nat, k: nat,
    from: Peer, id: Id, hop: Hop, payload: Bytes)
    requires Legal(cfg, t, start, turns) && j < k < |turns| && turns[j].input.Tick?
    requires var b := Before(cfg, t, turns, j);
      id in b.received.data && Find(b.received.byTime, id).Some? ==>
        Find(b.received.byTime, id).value.time <= turns[j].at - cfg.historyWindow
    requires forall m :: j < m < k ==> !Brings(turns[m].input, id)
    requires turns[k].input == Receive(from, Message(id, hop, payload))
    ensures var sent := At(cfg, t, turns, k).events;
      && Deliver(id, cfg.Open(payload)) in sent
      && (forall x :: Notify(x, Message(id, NextHop(hop), payload)) in sent <==>
            x in Before(cfg, t, turns, k).eager && x != from)
      && (forall x :: Notify(x, Rpc.Prune) !in sent)
  {
    hide Coherent, NotAfter, Find, Run, Brings, Legal;
    GoneSince(cfg, t, start, turns, j, k, id);
    TurnIsSound(cfg, t, start, turns, k);
    hide Sound;
    FirstReceiptSends(cfg, Before(cfg, t, turns, k), from, id, hop, payload, turns[k].at, turns[k].choice);
  }

  lemma FirstReceiptSends(
    cfg: Settings, t: Tree, from: Peer, id: Id, hop: Hop, payload: Bytes, now: Instant, c: Choice)
    requires Permits(cfg, t, Receive(from, Message(id, hop, payload)), now, c) && id !in t.received.data
    ensures var sent := Next(cfg, t, Receive(from, Message(id, hop, payload)), now, c).events;
      && Deliver(id, cfg.Open(payload)) in sent
      && (forall x :: Notify(x, Message(id, NextHop(hop), payload)) in sent <==> x in t.eager && x != from)
      && (forall x :: Notify(x, Rpc.Prune) !in sent)
  {
    hide Inserted;
    var sent := Next(cfg, t, Receive(from, Message(id, hop, payload)), now, c).events;
    assert sent[0] == Deliver(id, cfg.Open(payload));
    forall x
      ensures Notify(x, Message(id, NextHop(hop), payload)) in sent <==> x in t.eager && x != from
      ensures Notify(x, Rpc.Prune) !in sent
    {
      FanMembers(c.peers, Message(id, NextHop(hop), payload), Notify(x, Message(id, NextHop(hop), payload)));
      FanMembers(c.peers, Message(id, NextHop(hop), payload), Notify(x, Rpc.Prune));
    }
  }

  // -- Links ---------------------------------------------------------------------------------

  // What a node takes a peer for.
  datatype Standing = Standing(eager: bool, lazy: bool)

  const EAGER := Standing(true, false)
  const LAZY := Standing(false, true)
  const GONE := Standing(false, false)

  // What one turn makes of it; `known` says whether a message is a duplicate.
  function Regarded(cfg: Settings, s: Standing, i: Input, x: Peer, known: bool): Standing {
    match i
    case Up(p) => if p == x then s.(eager := true) else s
    case Down(p) => if p == x then GONE else s
    case Receive(from, rpc) =>
      if from != x then s
      else if rpc.Prune? || (rpc.Message? && known && cfg.optimizeSenderTree && s.eager) then LAZY
      else if rpc.Graft? then EAGER
      else s
    case _ => s
  }

  ghost function Seen(t: Tree, x: Peer): Standing {
    Standing(x in t.eager, x in t.lazy)
  }

  predicate Duplicate(i: Input, received: set<Id>) {
    i.Receive? && i.rpc.Message? && i.rpc.id in received
  }

  // Every input, every peer: who is eager and lazy afterwards, and who is sent a prune.
  lemma LinksExactly(cfg: Settings, t: Tree, i: Input, now: Instant, c: Choice, x: Peer)
    requires Permits(cfg, t, i, now, c) && Coherent(t.received)
    ensures var e, dup := Next(cfg, t, i, now, c), Duplicate(i, t.received.data.Keys);
      && Seen(e.tree, x) == Regarded(cfg, Seen(t, x), i, x, dup)
      && (Notify(x, Rpc.Prune) in e.events <==> dup && i.from == x && cfg.optimizeSenderTree && x in t.eager)
  {
    hide Coherent, IsSearch, Inserted, Window, Grafts, Expired, RepairSlice, Expected;
    var a := Notify(x, Rpc.Prune);
    match i
    case Publish(k, p) => FanMembers(c.peers, Message(k, 1, p), a);
    case Receive(from, rpc) =>
      match rpc {
        case Message(k, hop, p) => FanMembers(c.peers, Message(k, NextHop(hop), p), a);
        case IHave(ihaves) => IHavesFrame(t, from, ihaves, now);
        case Graft(ids) => RepliesMembers(t.received, from, ids, a);
        case _ =>
      }
    case Tick =>
    case _ =>
  }

  // What a run makes of it, told from the inputs.
  ghost function StandingAfter(cfg: Settings, t: Tree, turns: seq<Turn>, x: Peer): Standing {
    if turns == [] then Seen(t, x)
    else
      var init, last := turns[..|turns| - 1], turns[|turns| - 1];
      Regarded(cfg, StandingAfter(cfg, t, init, x), last.input, x,
               last.input.Receive? && last.input.rpc.Message?
               && Epoch(Records(cfg, t.local, init), last.input.rpc.id) != [])
  }

  // Who is eager and who is lazy after any run.
  lemma {:induction false} LinksAreHistories(cfg: Settings, t: Tree, start: Instant, turns: seq<Turn>, x: Peer)
    requires Legal(cfg, t, start, turns) && Blank(t)
    ensures Seen(Run(cfg, t, turns), x) == StandingAfter(cfg, t, turns, x)
  {
    hide Sound, Permits, Next, Epoch, Records, Blank, Regarded, Seen;
    if turns != [] {
      var k := |turns| - 1;
      var init, i := turns[..k], turns[k].input;
      LinksAreHistories(cfg, t, start, init, x);
      TurnIsSound(cfg, t, start, turns, k);
      assert turns[..k + 1] == turns;
      var b := Run(cfg, t, init);
      SoundReceived(b, turns[k].at);
      LinksExactly(cfg, b, i, turns[k].at, turns[k].choice, x);
      if i.Receive? && i.rpc.Message? {
        CachesAreHistories(cfg, t, start, init, i.rpc.id);
      }
    }
  }

  // -- Announcements ---------------------------------------------------------------------------

  // A tick tells exactly its lazy peers, if there is anything to tell, restarts the
  // timer, and sends nothing else but grafts.
  lemma AnnouncementsExactly(cfg: Settings, t: Tree, now: Instant, c: Choice, x: Peer, ihaves: seq<Announcement>)
    requires Sound(t, now) && TickPermits(cfg, t, now, c)
    ensures var e := Next(cfg, t, Tick, now, c);
      && (Notify(x, IHave(ihaves)) in e.events <==>
            x in t.lazy && ihaves != [] && ihaves == Advertised(cfg, t, now, c))
      && (forall a :: a in e.events ==> a.Notify? && (a.rpc.IHave? || a.rpc.Graft?))
      && e.tree.lastTick == now
  {
    hide Sound, IsSearch, Window, Grafts, Expired, RepairSlice, Expected;
    FanMembers(c.peers, IHave(Advertised(cfg, t, now, c)), Notify(x, IHave(ihaves)));
  }

  // The timer runs from the last tick.
  lemma {:induction false} TimerIsLastTick(cfg: Settings, t: Tree, turns: seq<Turn>, k: nat)
    requires k < |turns| && turns[k].input.Tick? && forall j :: k < j < |turns| ==> !turns[j].input.Tick?
    ensures Run(cfg, t, turns).lastTick == turns[k].at
  {
    hide Inserted, Expired;
    var last := turns[|turns| - 1];
    if k < |turns| - 1 {
      TimerIsLastTick(cfg, t, turns[..|turns| - 1], k);
      if last.input.Receive? && last.input.rpc.IHave? {
        IHavesFrame(Run(cfg, t, turns[..|turns| - 1]), last.input.from, last.input.rpc.ihaves, last.at);
      }
    }
  }
}
