/** The PlumTree object of tree.rs, proved against TreeSpec. */
module PlumTrees {
  import opened Types
  import opened Cache
  import opened TreeSpec
  import TreeRuns

  class PlumTree {
    const config: Settings
    const local: Peer
    var lazy: set<Peer>
    var eager: set<Peer>
    var lastTick: Instant
    const observed: ExpiringCache<()>
    const received: ExpiringCache<Bytes>
    var outEvents: seq<Action>

    ghost function Model(): Tree
      reads this, observed, received
    {
      Tree(local, eager, lazy, lastTick, observed.Model(), received.Model())
    }

    ghost predicate Valid(now: Instant)
      reads this, observed, received
    {
      && observed as object != received
      && observed as object != this
      && received as object != this
      && Sound(Model(), now)
    }

    constructor (config: Settings, local: Peer, now: Instant)
      ensures Valid(now) && fresh(observed) && fresh(received)
      ensures this.config == config && outEvents == []
      ensures Model() == Tree(local, {}, {}, now, Store(map[], []), Store(map[], []))
    {
      this.config, this.local := config, local;
      lazy, eager, lastTick, outEvents := {}, {}, now, [];
      observed := new ExpiringCache<()>();
      received := new ExpiringCache<Bytes>();
    }

    method InjectNeighborUp(peer: Peer)
      modifies this`eager
      ensures Model() == NeighborUp(old(Model()), peer)
    {
      eager := eager + {peer};
    }

    method InjectNeighborDown(peer: Peer)
      modifies this`eager, this`lazy
      ensures Model() == NeighborDown(old(Model()), peer)
    {
      eager := eager - {peer};
      lazy := lazy - {peer};
    }

    // The common push loop: one copy to every peer of `targets` but `except`.
    method Push(targets: set<Peer>, except: Option<Peer>, rpc: Rpc) returns (ghost order: seq<Peer>)
      modifies this`outEvents
      ensures Enumerates(order, if except.Some? then targets - {except.value} else targets)
      ensures outEvents == old(outEvents) + Fan(order, rpc)
    {
      var rest := targets;
      order := [];
      while rest != {}
        invariant rest <= targets
        invariant Enumerates(order, (if except.Some? then targets - {except.value} else targets) - rest)
        invariant outEvents == old(outEvents) + Fan(order, rpc)
      {
        var peer :| peer in rest;
        rest := rest - {peer};
        if except != Some(peer) {
          outEvents := outEvents + [Notify(peer, rpc)];
          order := order + [peer];
        }
      }
    }

    method Publish(id: Id, payload: Bytes, now: Instant) returns (ghost order: seq<Peer>)
      requires Valid(now)
      modifies this`outEvents, received
      ensures Valid(now) && Enumerates(order, eager)
      ensures Model() == Published(old(Model()), id, payload, now, order).tree
      ensures outEvents == old(outEvents) + Published(old(Model()), id, payload, now, order).events
    {
      NextKeepsSound(config, Model(), TreeSpec.Publish(id, payload), now, Walk([]));
      order := SomeOrder(eager);
      var known := received.Get(id);
      if known.Some? {
        return;
      }
      var seen := observed.Get(id);
      if seen.Some? {
        return;
      }
      var message := Record(id, 1, local, payload);
      order := Push(eager, None, Message(message.id, message.hop, message.payload));
      var _ := received.Insert(message.(hop := 0), now);
    }

    method InjectMessage(from: Peer, id: Id, hop: Hop, payload: Bytes, now: Instant) returns (ghost order: seq<Peer>)
      requires Valid(now)
      modifies this, received
      ensures Valid(now) && Enumerates(order, old(eager) - {from})
      ensures Model() == MessageIn(config, old(Model()), from, id, hop, payload, now, order).tree
      ensures outEvents == old(outEvents) + MessageIn(config, old(Model()), from, id, hop, payload, now, order).events
    {
      var isNew := received.Insert(Record(id, hop, from, payload), now);
      if isNew {
        outEvents := outEvents + [Deliver(id, config.Open(payload))];
        order := Push(eager, Some(from), Message(id, NextHop(hop), payload));
      } else {
        order := SomeOrder(eager - {from});
        if config.optimizeSenderTree {
          if from in eager {
            InjectPrune(from);
            outEvents := outEvents + [Notify(from, Rpc.Prune)];
          }
        }
      }
    }

    method InjectIHave(from: Peer, id: Id, hop: Hop, now: Instant)
      requires Valid(now)
      modifies observed
      ensures Valid(now)
      ensures Model() == old(Model()).(observed := Inserted(old(Model()).observed, Record(id, hop, from, ()), now))
    {
      var _ := observed.Insert(Record(id, hop, from, ()), now);
    }

    method InjectPrune(from: Peer)
      modifies this`eager, this`lazy
      ensures Model() == PruneIn(old(Model()), from)
    {
      eager := eager - {from};
      lazy := lazy + {from};
    }

    method InjectGraft(from: Peer, ids: seq<Id>)
      modifies this
      ensures Model() == GraftIn(old(Model()), from, ids).tree
      ensures outEvents == old(outEvents) + GraftIn(old(Model()), from, ids).events
    {
      lazy := lazy - {from};
      eager := eager + {from};
      var k := 0;
      while k < |ids|
        invariant 0 <= k <= |ids|
        invariant lazy == old(lazy) - {from} && eager == old(eager) + {from} && lastTick == old(lastTick)
        invariant outEvents == old(outEvents) + Replies(received.Model(), from, ids[..k])
      {
        var msg := received.Get(ids[k]);
        if msg.Some? {
          outEvents := outEvents + [Notify(from, Message(msg.value.id, msg.value.hop, msg.value.payload))];
        }
        assert ids[..k + 1][..k] == ids[..k];
        k := k + 1;
      }
      assert ids[..k] == ids;
    }

    method RecentMessages(now: Instant, search: Search) returns (announced: seq<Announcement>)
      requires Valid(now) && IsSearch(search)
      ensures announced == Announcements(LazyWindow(config, Model(), now, search))
    {
      hide Coherent, NotAfter, IsSearch, Window;
      var records := received.IterRange(now - config.lazyPushWindow, now, search);
      WindowDefined(received.Model(), now - config.lazyPushWindow, now, search);
      announced := Announcements(records.value);
    }

    method PublishIHaves(now: Instant, search: Search) returns (ghost order: seq<Peer>)
      requires Valid(now) && IsSearch(search)
      modifies this`outEvents
      ensures Enumerates(order, lazy)
      ensures outEvents == old(outEvents) + IHavesOut(config, Model(), now, search, order)
    {
      var announced := RecentMessages(now, search);
      if announced != [] {
        order := Push(lazy, None, IHave(announced));
      } else {
        order := SomeOrder(lazy);
      }
    }

    method PruneOldHistory(now: Instant)
      requires Valid(now)
      modifies observed, received
      ensures Valid(now)
      ensures Model() == PruneHistory(config, old(Model()), now)
      ensures forall id :: id in received.data <==>
        id in old(received.data) && Find(old(received.byTime), id).value.time > now - config.historyWindow
      ensures forall id :: id in observed.data <==>
        id in old(observed.data) && Find(old(observed.byTime), id).value.time > now - config.historyWindow
    {
      observed.RemoveOlderThan(now - config.historyWindow, now);
      received.RemoveOlderThan(now - config.historyWindow, now);
    }

    method DueAnnouncements(now: Instant, search: Search) returns (due: seq<Record<()>>)
      requires Valid(now) && config.WellFormed() && IsSearch(search)
      ensures RepairSlice(config, Model(), now, search) == Some(due)
    {
      hide Coherent, NotAfter, IsSearch, Window;
      var begin, end := now - config.lazyPushWindow, now - 2 * config.tickFrequency;
      var window := observed.IterRange(begin, end, search);
      WindowDefined(observed.Model(), begin, end, search);
      due := window.value;
    }

    // Whom to graft and what to ask for, given the announcements that are due.
    method CollectGrafts(expected: set<Record<()>>) returns (grafts: map<Peer, seq<Id>>, ghost infos: seq<Record<()>>)
      requires TreeRuns.OnePerId(expected)
      ensures Enumerates(infos, expected)
      ensures grafts == Grafts(config, received.Model(), infos)
      ensures forall p :: p in grafts <==> TreeRuns.Grafted(config, received.Model(), expected, p)
      ensures forall p :: p in grafts ==> Enumerates(grafts[p], TreeRuns.Wanted(received.Model(), expected, p))
    {
      grafts := map[];
      var rest := expected;
      infos := [];
      while rest != {}
        invariant rest <= expected && Enumerates(infos, expected - rest)
        invariant grafts == Grafts(config, received.Model(), infos)
      {
        var seen :| seen in rest;
        rest := rest - {seen};
        assert (infos + [seen])[..|infos|] == infos;
        infos := infos + [seen];
        var known := received.Get(seen.id);
        match known {
          case Some(r) =>
            if Shortcut(config, r.hop, seen.hop) && seen.sender !in grafts {
              grafts := grafts[seen.sender := []];
            }
          case None =>
            if seen.sender !in grafts {
              grafts := grafts[seen.sender := [seen.id]];
            } else {
              grafts := grafts[seen.sender := grafts[seen.sender] + [seen.id]];
            }
        }
      }
      hide *;
      forall p
        ensures p in grafts <==> TreeRuns.Grafted(config, received.Model(), expected, p)
        ensures p in grafts ==> Enumerates(grafts[p], TreeRuns.Wanted(received.Model(), expected, p))
      {
        CollectedFor(grafts, infos, expected, p);
      }
    }

    lemma CollectedFor(grafts: map<Peer, seq<Id>>, infos: seq<Record<()>>, expected: set<Record<()>>, p: Peer)
      requires Enumerates(infos, expected) && TreeRuns.OnePerId(expected)
      requires grafts == Grafts(config, received.Model(), infos)
      ensures p in grafts <==> TreeRuns.Grafted(config, received.Model(), expected, p)
      ensures p in grafts ==> Enumerates(grafts[p], TreeRuns.Wanted(received.Model(), expected, p))
    {
      hide TreeRuns.Wanted, TreeRuns.Grafted, Enumerates, Grafts;
      TreeRuns.GraftsExact(config, received.Model(), infos, expected, p);
    }

    method SendGrafts(grafts: map<Peer, seq<Id>>) returns (ghost grafted: seq<Peer>)
      modifies this`outEvents
      ensures Enumerates(grafted, grafts.Keys)
      ensures outEvents == old(outEvents) + GraftsOut(grafts, grafted)
    {
      var pending := grafts.Keys;
      grafted := [];
      assert GraftsOut(grafts, grafted) == [];
      while pending != {}
        invariant pending <= grafts.Keys && Enumerates(grafted, grafts.Keys - pending)
        invariant outEvents == old(outEvents) + GraftsOut(grafts, grafted)
      {
        var peer :| peer in pending;
        pending := pending - {peer};
        outEvents := outEvents + [Notify(peer, Graft(grafts[peer]))];
        grafted := grafted + [peer];
      }
    }

    method RepairTree(now: Instant, search: Search) returns (ghost infos: seq<Record<()>>, ghost grafted: seq<Peer>)
      requires Valid(now) && config.WellFormed() && IsSearch(search)
      modifies this`outEvents, observed, received
      ensures Valid(now)
      ensures RepairSlice(config, old(Model()), now, search).Some?
      ensures Enumerates(infos, Expected(config, old(Model()), now, search))
      ensures Enumerates(grafted, Grafts(config, old(Model()).received, infos).Keys)
      ensures Model() == PruneHistory(config, old(Model()), now)
      ensures outEvents == old(outEvents) + GraftsOut(Grafts(config, old(Model()).received, infos), grafted)
    {
      var due := DueAnnouncements(now, search);
      var grafts;
      TreeRuns.ExpectedAreFirst(config, Model(), now, search);
      grafts, infos := CollectGrafts(set r | r in due);
      grafted := SendGrafts(grafts);
      PruneOldHistory(now);
    }

    method Maintain(now: Instant, lazySearch: Search, repairSearch: Search) returns (ghost c: Choice)
      requires Valid(now) && config.WellFormed() && IsSearch(lazySearch) && IsSearch(repairSearch)
      modifies this, observed, received
      ensures Valid(now) && TickPermits(config, old(Model()), now, c)
      ensures Model() == Ticked(config, old(Model()), now, c).tree
      ensures outEvents == old(outEvents) + Ticked(config, old(Model()), now, c).events
    {
      hide Coherent, NotAfter, IsSearch, Enumerates, Grafts, GraftsOut, IHavesOut, Expected;
      ghost var before, queued := Model(), outEvents;
      ghost var peers := PublishIHaves(now, lazySearch);
      assert Model() == before;
      ghost var infos, grafted := RepairTree(now, repairSearch);
      c := Choice(peers, infos, grafted, lazySearch, repairSearch);
      lastTick := now;
      assert outEvents == queued + Ticked(config, before, now, c).events;
    }

    // Periodic maintenance when due, then the oldest queued action.
    method Poll(now: Instant, lazySearch: Search, repairSearch: Search)
      returns (ready: Option<Action>, ghost c: Choice)
      requires Valid(now) && config.WellFormed() && IsSearch(lazySearch) && IsSearch(repairSearch)
      modifies this, observed, received
      ensures Valid(now)
      ensures var due := now - old(lastTick) > config.tickFrequency;
        && (due ==> TickPermits(config, old(Model()), now, c))
        && Model() == (if due then Ticked(config, old(Model()), now, c).tree else old(Model()))
        && var queued := old(outEvents) + if due then Ticked(config, old(Model()), now, c).events else [];
           if queued == [] then ready == None && outEvents == []
           else ready == Some(queued[0]) && outEvents == queued[1..]
      ensures lastTick == if now - old(lastTick) > config.tickFrequency then now else old(lastTick)
    {
      c := Walk([]);
      if now - lastTick > config.tickFrequency {
        c := Maintain(now, lazySearch, repairSearch);
      }
      if outEvents == [] {
        ready := None;
      } else {
        ready := Some(outEvents[0]);
        outEvents := outEvents[1..];
      }
    }
  }
}
