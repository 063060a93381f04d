/** The HyParView object of view.rs, proved against ViewSpec. Random draws are
    arbitrary choices; `Pick` reports what they came to. */
module HyParViews {
  import opened Types
  import opened ViewSpec

  // -- Arithmetic of absorbing peers into a bounded set --------------------------------

  lemma SameSize<T>(a: set<T>, b: set<T>)
    requires a <= b && |a| == |b|
    ensures a == b
  {
    if x :| x in b && x !in a {
      Smaller(a, b - {x});
    }
  }

  lemma AbsorbsNothing(s: set<Peer>, cap: nat)
    requires |s| <= cap
    ensures Absorbs(s, {}, cap, s)
  {
    assert s + {} == s;
  }

  lemma AbsorbsOne(before: set<Peer>, node: Peer, cap: nat, after: set<Peer>)
    requires |before| <= cap
    requires var all := before + {node};
      if |all| > cap then exists e :: e in all && after == all - {e} else after == all
    ensures Absorbs(before, {node}, cap, after)
  {}

  lemma AbsorbsMore(before: set<Peer>, extra: set<Peer>, cap: nat, middle: set<Peer>, more: set<Peer>, after: set<Peer>)
    requires Absorbs(before, extra, cap, middle) && Absorbs(middle, more, cap, after)
    ensures Absorbs(before, extra + more, cap, after)
  {
    var all := before + (extra + more);
    Smaller(middle + more, all);
    Smaller(before + extra, all);
    if |before + extra| <= cap {
      SameSize(middle, before + extra);
      assert middle + more == all;
    } else {
      Smaller(middle, middle + more);
    }
  }

  // With nothing left to evict to, the set is what was put in.
  lemma AbsorbsKnown(before: set<Peer>, extra: set<Peer>, cap: nat, after: set<Peer>)
    requires |before| <= cap && extra <= before && Absorbs(before, extra, cap, after)
    ensures after == before
  {
    assert before + extra == before;
    SameSize(after, before);
  }

  lemma ShufflingKeepsView(lim: Limits, v: View, c: Pick)
    ensures SendShuffle(lim, v, c).view == v
  {}

  class HyParView {
    const config: Limits
    const shuffleInterval: nat
    const tickFrequency: nat
    const local: Peer
    var active: set<Peer>
    var passive: set<Peer>
    var lastTick: Instant
    var lastShuffle: Instant
    var outEvents: seq<Action>

    ghost function Model(): View
      reads this
    {
      View(local, active, passive)
    }

    ghost predicate Valid()
      reads this
    {
      ViewSpec.Valid(config, Model())
    }

    // The transition from (v, q) to the current state is that of `o`.
    ghost predicate Became(q: seq<Action>, o: Outcome)
      reads this
    {
      Model() == o.view && outEvents == q + o.events
    }

    constructor (config: Limits, shuffleInterval: nat, tickFrequency: nat, local: Peer, now: Instant)
      ensures Valid() && Model() == View(local, {}, {}) && outEvents == []
      ensures this.config == config && this.shuffleInterval == shuffleInterval && this.tickFrequency == tickFrequency
      ensures lastTick == now && lastShuffle == now
    {
      this.config, this.shuffleInterval, this.tickFrequency := config, shuffleInterval, tickFrequency;
      this.local := local;
      active, passive, outEvents := {}, {}, [];
      lastTick, lastShuffle := now, now;
    }

    method IsActive(peer: Peer) returns (b: bool)
      ensures b <==> peer in Model().active
    {
      b := peer in active;
    }

    method AddNodeToActiveView(node: Peer, initiator: bool)
      requires Valid()
      modifies this`active, this`outEvents
      ensures Valid() && Became(old(outEvents), AddActive(old(Model()), node, initiator))
    {
      if node == local {
        return;
      }
      if node !in active {
        active := active + {node};
        if initiator {
          outEvents := outEvents + [Dial(node, false)];
          outEvents := outEvents + [Notify(node, Rpc.Neighbor(Some(local), if active == {} then HIGH else LOW))];
        }
        outEvents := outEvents + [PeerAdded(node)];
      }
    }

    method AddNodeToPassiveView(node: Peer)
      requires Valid()
      modifies this`passive
      ensures Valid() && Absorbs(old(passive), {node} - {local}, config.maxPassive, passive)
    {
      if node != local {
        ghost var before := passive;
        passive := passive + {node};
        assert |passive| <= |before| + 1;
        if |passive| > config.maxPassive {
          var random :| random in passive;
          passive := passive - {random};
        }
        AbsorbsOne(before, node, config.maxPassive, passive);
        assert {node} - {local} == {node};
      } else {
        assert {node} - {local} == {};
        AbsorbsNothing(passive, config.maxPassive);
      }
    }

    method FreeUpActiveSlot() returns (ghost c: Pick)
      requires Valid()
      modifies this`active, this`passive, this`outEvents
      ensures Valid() && FreeAllows(config, old(Model()), c)
      ensures Became(old(outEvents), FreeSlot(config, old(Model()), c))
    {
      c := Pick(passive, local, [], [], local);
      if |active| >= config.maxActive && passive != {} {
        var random :| random in passive;
        ghost var before := passive;
        active := active - {random};
        outEvents := outEvents + [Notify(random, Rpc.Disconnect(true))];
        outEvents := outEvents + [PeerRemoved(random)];
        AddNodeToPassiveView(random);
        AbsorbsKnown(before, {random} - {local}, config.maxPassive, passive);
        c := c.(victim := random);
      }
    }

    method InitiateJoin(peer: Peer)
      modifies this`outEvents
      ensures Became(old(outEvents), ViewSpec.InitiateJoin(config, old(Model()), peer))
    {
      outEvents := outEvents + [Notify(peer, Rpc.Join(config.walkLength, Some(local)))];
    }

    // The forwarding loop: one copy to every active peer but two.
    method Forward(skip: Peer, also: Peer, rpc: Rpc) returns (ghost order: seq<Peer>)
      modifies this`outEvents
      ensures Enumerates(order, active - {skip, also})
      ensures outEvents == old(outEvents) + Fan(order, rpc)
    {
      var rest := active;
      ghost var done: set<Peer> := {};
      order := [];
      while rest != {}
        invariant rest <= active && done !! rest && active - {skip, also} <= done + rest <= active
        invariant skip !in done && also !in done && Enumerates(order, done)
        invariant outEvents == old(outEvents) + Fan(order, rpc)
      {
        var n :| n in rest;
        rest := rest - {n};
        if n != skip && n != also {
          outEvents := outEvents + [Notify(n, rpc)];
          order := order + [n];
          done := done + {n};
        }
      }
      assert done == active - {skip, also};
    }

    // Room in the active view, or else a place in the passive one.
    method PlaceNode(peer: Peer) returns (ghost c: Pick)
      requires Valid()
      modifies this`active, this`passive, this`outEvents
      ensures Valid() && PlaceAllows(config, old(Model()), peer, c)
      ensures Became(old(outEvents), Place(config, old(Model()), peer, c))
    {
      if |active| < config.maxActive {
        AddNodeToActiveView(peer, true);
      } else {
        AddNodeToPassiveView(peer);
      }
      c := Pick(passive, local, [], [], local);
    }

    method InjectJoin(sender: Peer, peer: Peer, ttl: nat) returns (ghost c: Pick)
      requires Valid()
      modifies this`active, this`passive, this`outEvents
      ensures Valid() && JoinAllows(config, old(Model()), sender, peer, c)
      ensures Became(old(outEvents), JoinIn(config, old(Model()), sender, peer, ttl, c))
    {
      hide Absorbs, Enumerates;
      c := Pick(passive, local, [], [], local);
      if peer in active {
        return;
      }
      c := PlaceNode(peer);
      ghost var order := Forward(peer, sender, Rpc.ForwardJoin(ttl, Some(peer)));
      c := c.(order := order);
    }

    method InjectForwardJoin(peer: Peer, ttl: nat, localNode: Peer, sender: Peer) returns (ghost c: Pick)
      requires Valid() && localNode == local
      modifies this`active, this`passive, this`outEvents
      ensures Valid() && ForwardJoinAllows(config, old(Model()), sender, peer, ttl, c)
      ensures Became(old(outEvents), ForwardJoinIn(config, old(Model()), sender, peer, ttl, c))
    {
      hide Absorbs, Enumerates, AddActive, Fan;
      c := Pick(passive, local, [], [], local);
      if peer == localNode {
        return;
      }
      ghost var victim := local;
      if ttl == 0 && peer !in active {
        ghost var freed := FreeUpActiveSlot();
        victim := freed.victim;
      }
      c := PlaceNode(peer);
      c := c.(victim := victim);
      if ttl != 0 {
        ghost var order := Forward(sender, peer, Rpc.ForwardJoin(ttl - 1, Some(peer)));
        c := c.(order := order);
      }
    }

    method InjectNeighbor(peer: Peer, priority: int) returns (ghost c: Pick)
      requires Valid()
      modifies this`active, this`passive, this`outEvents
      ensures Valid() && NeighborAllows(config, old(Model()), peer, priority, c)
      ensures Became(old(outEvents), NeighborIn(config, old(Model()), peer, priority, c))
    {
      c := Pick(passive, local, [], [], local);
      if peer in active {
        return;
      } else if |active| < config.maxActive {
        AddNodeToActiveView(peer, false);
      } else if priority == HIGH {
        c := FreeUpActiveSlot();
        AddNodeToActiveView(peer, false);
      } else {
        c := InjectDisconnect(peer, true);
      }
    }

    method InjectDisconnect(peer: Peer, alive: bool) returns (ghost c: Pick)
      requires Valid()
      modifies this`active, this`passive, this`outEvents
      ensures Valid() && DisconnectAllows(config, old(Model()), peer, alive, c)
      ensures Became(old(outEvents), DisconnectIn(old(Model()), peer, alive, c))
    {
      if alive {
        if peer in active {
          AddNodeToPassiveView(peer);
        }
      } else {
        Smaller(passive - {peer}, passive);
        passive := passive - {peer};
      }
      c := Pick(passive, local, [], [], local);
      if peer in active {
        outEvents := outEvents + [PeerRemoved(peer)];
        active := active - {peer};
      }
    }

    // Up to `max` elements without replacement.
    method ChooseMultiple(pool: multiset<Peer>, max: nat) returns (sample: seq<Peer>)
      ensures Samples(pool, max, sample)
    {
      sample := [];
      var rest := pool;
      while |sample| < max && |rest| > 0
        invariant multiset(sample) + rest == pool && |sample| <= max
        decreases |rest|
      {
        var p :| p in rest;
        rest := rest - multiset{p};
        sample := sample + [p];
      }
      assert |pool| == |sample| + |rest|;
    }

    method SendShuffleReply(origin: Peer, nodes: seq<Peer>)
      modifies this`outEvents
      ensures outEvents == old(outEvents) + ReplyTo(Model(), origin, nodes)
    {
      if origin !in active {
        outEvents := outEvents + [Dial(origin, true)];
      }
      outEvents := outEvents + [Notify(origin, Rpc.ShuffleReply(Wires(nodes)))];
    }

    // The merge loop over the peers not known yet.
    method Merge(nodes: set<Peer>)
      requires Valid() && local !in nodes
      modifies this`passive
      ensures Valid() && Absorbs(old(passive), nodes, config.maxPassive, passive)
    {
      hide Absorbs;
      var rest := nodes;
      AbsorbsNothing(passive, config.maxPassive);
      assert nodes - rest == {};
      while rest != {}
        invariant rest <= nodes && Valid()
        invariant Absorbs(old(passive), nodes - rest, config.maxPassive, passive)
      {
        var p :| p in rest;
        ghost var middle, taken := passive, nodes - rest;
        rest := rest - {p};
        AddNodeToPassiveView(p);
        AbsorbsMore(old(passive), taken, config.maxPassive, middle, {p} - {local}, passive);
        assert taken + ({p} - {local}) == nodes - rest;
      }
      assert nodes - rest == nodes;
    }

    method InjectShuffle(from: Peer, ttl: nat, nodes: seq<Peer>, origin: Peer) returns (ghost c: Pick)
      requires Valid()
      modifies this`active, this`passive, this`outEvents
      ensures Valid() && ShuffleAllows(config, old(Model()), from, ttl, nodes, origin, c)
      ensures Became(old(outEvents), ShuffleIn(config, old(Model()), from, ttl, nodes, origin, c))
    {
      hide Absorbs, Samples;
      var sample := ChooseMultiple(multiset((active + passive) - set p | p in nodes), config.shuffleMax);
      SendShuffleReply(origin, sample);
      Merge((set p | p in nodes) - active - passive - {local});
      c := Pick(passive, local, [], sample, local);
      if ttl != 0 {
        var candidates := active - {from, origin};
        if candidates != {} {
          var random :| random in candidates;
          outEvents := outEvents + [Notify(random, Rpc.Shuffle(ttl - 1, Some(origin), Wires(nodes)))];
          c := c.(target := random);
        } else {
          AddNodeToActiveView(origin, true);
        }
      }
    }

    method InjectShuffleReply(nodes: seq<WirePeer>) returns (ghost c: Pick)
      requires Valid()
      modifies this`passive
      ensures Valid() && Became(old(outEvents), ShuffleReplyIn(config, old(Model()), Decoded(nodes)))
    {
      passive := passive + set p | p in Decoded(nodes);
      ghost var merged := passive;
      while |passive| > config.maxPassive
        invariant passive == merged || (passive == {} && |merged| > config.maxPassive)
        invariant Model() == old(Model()).(passive := passive)
        decreases |passive|
      {
        passive := {};
      }
      c := Pick(passive, local, [], [], local);
    }

    method SendShuffleTo(peer: Peer) returns (ghost sample: seq<Peer>)
      modifies this`outEvents
      ensures Samples(multiset(active) + multiset(passive), config.shuffleMax, sample)
      ensures outEvents == old(outEvents) + [Notify(peer, Rpc.Shuffle(config.walkLength, Some(local), Wires(sample)))]
    {
      var chosen := ChooseMultiple(multiset(active) + multiset(passive), config.shuffleMax);
      outEvents := outEvents + [Notify(peer, Rpc.Shuffle(config.walkLength, Some(local), Wires(chosen)))];
      sample := chosen;
    }

    method MaybeMoveRandomPassiveToActive() returns (ghost c: Pick)
      requires Valid()
      modifies this`active, this`passive, this`outEvents
      ensures Valid() && PromoteAllows(config, old(Model()), c)
      ensures Became(old(outEvents), Promote(config, old(Model()), c))
    {
      c := Pick(passive, local, [], [], local);
      if |active| < config.minActive && passive != {} {
        var random :| random in passive;
        Smaller(passive - {random}, passive);
        passive := passive - {random};
        AddNodeToActiveView(random, true);
        c := c.(victim := random);
      }
    }

    // The periodic shuffle; `sampled` is how the probability roll came out.
    method MaybeShuffle(now: Instant, sampled: bool) returns (ghost c: Pick)
      requires Valid()
      modifies this`outEvents, this`lastShuffle
      ensures Valid() && SendShuffleAllows(config, old(Model()), c)
      ensures var due := now - old(lastShuffle) > shuffleInterval;
        && lastShuffle == (if due then now else old(lastShuffle))
        && Became(old(outEvents),
             if due && sampled then SendShuffle(config, old(Model()), c) else Outcome(old(Model()), []))
    {
      ghost var sample := [];
      ghost var target := local;
      if active != {} {
        sample := ChooseMultiple(multiset(active) + multiset(passive), config.shuffleMax);
        target :| target in active;
      }
      if now - lastShuffle > shuffleInterval {
        if sampled && active != {} {
          var random :| random in active;
          sample := SendShuffleTo(random);
          target := random;
        }
        lastShuffle := now;
      }
      c := Pick(passive, local, [], sample, target);
    }

    // The periodic topping up.
    method MaybeTopUp(now: Instant) returns (ghost c: Pick)
      requires Valid()
      modifies this`active, this`passive, this`outEvents, this`lastTick
      ensures Valid() && PromoteAllows(config, old(Model()), c)
      ensures var due := now - old(lastTick) > tickFrequency;
        && lastTick == (if due then now else old(lastTick))
        && Became(old(outEvents), if due then Promote(config, old(Model()), c) else Outcome(old(Model()), []))
    {
      c := Pick(passive, local, [], [], local);
      if passive != {} {
        c := c.(victim :=
          var p :| p in passive; p);
      }
      if now - lastTick > tickFrequency {
        hide Promote, PromoteAllows;
        c := MaybeMoveRandomPassiveToActive();
        lastTick := now;
      }
    }

    // Periodic work when due, then the oldest queued action.
    method Poll(now: Instant, sampled: bool) returns (ready: Option<Action>, ghost shuffle: Pick, ghost promote: Pick)
      requires Valid()
      modifies this
      ensures Valid()
      ensures SendShuffleAllows(config, old(Model()), shuffle) && PromoteAllows(config, old(Model()), promote)
      ensures var v := old(Model());
        var shuffled := if now - old(lastShuffle) > shuffleInterval && sampled
                        then SendShuffle(config, v, shuffle).events else [];
        var topped := if now - old(lastTick) > tickFrequency then Promote(config, v, promote) else Outcome(v, []);
        var queued := old(outEvents) + shuffled + topped.events;
        && Model() == topped.view
        && lastShuffle == (if now - old(lastShuffle) > shuffleInterval then now else old(lastShuffle))
        && lastTick == (if now - old(lastTick) > tickFrequency then now else old(lastTick))
        && if queued == [] then ready == None && outEvents == []
           else ready == Some(queued[0]) && outEvents == queued[1..]
    {
      ghost var v, q := Model(), outEvents;
      shuffle := MaybeShuffle(now, sampled);
      ShufflingKeepsView(config, v, shuffle);
      hide SendShuffle, SendShuffleAllows, Promote, PromoteAllows;
      assert Model() == v;
      promote := MaybeTopUp(now);
      if outEvents == [] {
        ready := None;
      } else {
        ready := Some(outEvents[0]);
        outEvents := outEvents[1..];
      }
    }
  }
}
