/** The TopicMesh object of topic.rs: a membership view and a broadcast tree kept
    in step, proved against Mesh. */
module TopicMeshes {
  import opened Types
  import opened PlumTrees
  import opened HyParViews
  import Cache
  import M = Mesh
  import V = ViewSpec
  import T = TreeSpec
  import VE = ViewEffects

  class TopicMesh {
    const tree: PlumTree
    const nodes: HyParView
    const localNode: Peer
    var outEvents: seq<Action>

    ghost function Model(): M.Mesh
      reads nodes, tree, tree.observed, tree.received
    {
      M.Mesh(nodes.Model(), nodes.outEvents, tree.Model())
    }

    ghost predicate Valid(now: Instant)
      reads this, nodes, tree, tree.observed, tree.received
    {
      && nodes as object !in {tree, tree.observed, tree.received, this}
      && this as object !in {tree, tree.observed, tree.received}
      && nodes.Valid() && nodes.local == localNode
      && tree.Valid(now) && tree.config.WellFormed()
      && M.Follows(Model())
    }

    // A membership signal was taken; the tree was not touched.
    ghost predicate Moved(before: M.Mesh, signal: V.Signal, pick: V.Pick)
      reads nodes, tree, tree.observed, tree.received
    {
      var s := M.Membership(signal, pick);
      && M.Enabled(tree.config, nodes.config, before, s)
      && Model() == M.Apply(tree.config, nodes.config, before, s)
      && (M.Agrees(before) ==> M.Agrees(Model()))
    }

    constructor (
      settings: T.Settings, limits: V.Limits, shuffleInterval: nat, viewTick: nat, local: Peer, now: Instant)
      requires settings.WellFormed()
      ensures Valid(now) && M.Fresh(Model()) && M.Agrees(Model()) && outEvents == []
      ensures tree.config == settings && nodes.config == limits && localNode == local
      ensures fresh(tree) && fresh(tree.observed) && fresh(tree.received) && fresh(nodes)
    {
      tree := new PlumTree(settings, local, now);
      nodes := new HyParView(limits, shuffleInterval, viewTick, local, now);
      localNode, outEvents := local, [];
    }

    method Disconnected(peer: Peer, alive: bool, now: Instant) returns (ghost pick: V.Pick)
      requires Valid(now)
      modifies nodes
      ensures Valid(now) && Moved(old(Model()), V.Dropped(peer, alive), pick)
    {
      hide V.DisconnectIn, V.DisconnectAllows, M.Follows, M.Agrees;
      pick := nodes.InjectDisconnect(peer, alive);
      Agreement(old(Model()), M.Membership(V.Dropped(peer, alive), pick));
    }

    method InitiateJoin(peer: Peer, now: Instant) returns (ghost pick: V.Pick)
      requires Valid(now)
      modifies nodes
      ensures Valid(now) && Moved(old(Model()), V.JoinThrough(peer), pick)
    {
      hide V.InitiateJoin, M.Follows, M.Agrees;
      nodes.InitiateJoin(peer);
      pick := V.Pick({}, localNode, [], [], localNode);
      Agreement(old(Model()), M.Membership(V.JoinThrough(peer), pick));
    }

    method Publish(id: Id, payload: Bytes, now: Instant) returns (ghost order: seq<Peer>)
      requires Valid(now)
      modifies tree, tree.received
      ensures Valid(now)
      ensures var s := M.Broadcast(T.Publish(id, payload), now, T.Walk(order));
        && M.Enabled(tree.config, nodes.config, old(Model()), s)
        && Model() == M.Apply(tree.config, nodes.config, old(Model()), s)
        && tree.outEvents == old(tree.outEvents) + T.Published(old(tree.Model()), id, payload, now, order).events
        && (M.Agrees(old(Model())) ==> M.Agrees(Model()))
    {
      hide T.Published, M.Follows, M.Agrees, T.Sound, Enumerates;
      order := tree.Publish(id, payload, now);
      Agreement(old(Model()), M.Broadcast(T.Publish(id, payload), now, T.Walk(order)));
    }

    ghost method Agreement(before: M.Mesh, s: M.Step)
      requires M.Enabled(tree.config, nodes.config, before, s) && M.Follows(before)
      ensures M.Follows(M.Apply(tree.config, nodes.config, before, s))
      ensures M.Agrees(before) && M.Polite(before, s) ==> M.Agrees(M.Apply(tree.config, nodes.config, before, s))
    {
      hide M.Enabled, M.Apply, M.Follows, M.Agrees, M.Polite;
      M.StepKeepsFollowing(tree.config, nodes.config, before, s);
      if M.Agrees(before) && M.Polite(before, s) {
        M.StepKeepsAgreement(tree.config, nodes.config, before, s);
      }
    }

    method InjectIHaves(from: Peer, ihaves: seq<Announcement>, now: Instant)
      requires Valid(now)
      modifies tree.observed
      ensures tree.Valid(now) && tree.Model() == T.IHavesIn(old(tree.Model()), from, ihaves, now)
    {
      hide T.Sound;
      for k := 0 to |ihaves|
        invariant tree.Valid(now) && tree.Model() == T.IHavesIn(old(tree.Model()), from, ihaves[..k], now)
      {
        tree.InjectIHave(from, ihaves[k].id, ihaves[k].hop, now);
        assert ihaves[..k + 1][..k] == ihaves[..k];
      }
      assert ihaves[..|ihaves|] == ihaves;
    }

    // Bytes that are no peer id, and a neighbour speaking for another, are refused as such;
    // nothing else is.
    ghost predicate Judged(from: Peer, rpc: Rpc, error: Option<V.RpcError>) {
      error ==
      if VE.NamesNobody(rpc) then Some(V.InvalidPeerId)
      else if VE.NamesAnother(from, rpc) then Some(V.ImpersonatedPeer(from, rpc.peer.value))
      else None
    }

    method Dispatch(from: Peer, rpc: Rpc, now: Instant)
      returns (error: Option<V.RpcError>, ghost pick: V.Pick, ghost choice: T.Choice)
      requires Valid(now)
      modifies nodes, tree, tree.observed, tree.received
      ensures Judged(from, rpc, error)
      ensures nodes.Valid() && V.ReceiveAllows(nodes.config, old(nodes.Model()), from, rpc, pick)
      ensures nodes.Became(old(nodes.outEvents), V.Received(nodes.config, old(nodes.Model()), from, rpc, pick))
      ensures tree.Valid(now) && T.Permits(tree.config, old(tree.Model()), T.Receive(from, rpc), now, choice)
      ensures tree.Model() == T.Received(tree.config, old(tree.Model()), from, rpc, now, choice).tree
      ensures tree.outEvents ==
              old(tree.outEvents) + T.Received(tree.config, old(tree.Model()), from, rpc, now, choice).events
    {
      hide V.JoinIn, V.JoinAllows, V.ForwardJoinIn, V.ForwardJoinAllows, V.NeighborIn, V.NeighborAllows;
      hide V.DisconnectIn, V.DisconnectAllows, V.ShuffleIn, V.ShuffleAllows, V.ShuffleReplyIn, V.Decoded, V.Valid;
      hide T.MessageIn, T.IHavesIn, T.GraftIn, T.PruneIn, T.Sound, Enumerates, M.Follows;
      error := None;
      pick := V.Pick({}, localNode, [], [], localNode);
      choice := T.Walk([]);
      T.NextKeepsSound(tree.config, tree.Model(), T.Receive(from, rpc), now, choice);
      match rpc
      case Join(ttl, peer) =>
        match peer {
          case Some(p) => pick := nodes.InjectJoin(from, p, ttl);
          case None => error := Some(V.InvalidPeerId);
        }
      case ForwardJoin(ttl, peer) =>
        match peer {
          case Some(p) => pick := nodes.InjectForwardJoin(p, ttl, localNode, from);
          case None => error := Some(V.InvalidPeerId);
        }
      case Neighbor(peer, priority) =>
        match peer {
          case Some(p) =>
            if p == from {
              pick := nodes.InjectNeighbor(p, priority);
            } else {
              error := Some(V.ImpersonatedPeer(from, p));
            }
          case None => error := Some(V.InvalidPeerId);
        }
      case Disconnect(alive) => pick := nodes.InjectDisconnect(from, alive);
      case Shuffle(ttl, origin, peers) =>
        match origin {
          case Some(o) => pick := nodes.InjectShuffle(from, ttl, V.Decoded(peers), o);
          case None => error := Some(V.InvalidPeerId);
        }
      case ShuffleReply(peers) => pick := nodes.InjectShuffleReply(peers);
      case Message(id, hop, payload) =>
        ghost var order := tree.InjectMessage(from, id, hop, payload, now);
        choice := T.Walk(order);
      case IHave(ihaves) => InjectIHaves(from, ihaves, now);
      case Prune => tree.InjectPrune(from);
      case Graft(ids) => tree.InjectGraft(from, ids);
    }

    // A call is a membership step and a broadcast step, one of which does nothing.
    method InjectRpcCall(from: Peer, rpc: Rpc, now: Instant)
      returns (error: Option<V.RpcError>, ghost pick: V.Pick, ghost choice: T.Choice)
      requires Valid(now)
      modifies nodes, tree, tree.observed, tree.received
      ensures Valid(now) && Judged(from, rpc, error)
      ensures error.Some? ==> Model() == old(Model()) && tree.outEvents == old(tree.outEvents)
      ensures var view := M.Membership(V.Receive(from, rpc), pick);
        var cast := M.Broadcast(T.Receive(from, rpc), now, choice);
        && M.Enabled(tree.config, nodes.config, old(Model()), view)
        && M.Enabled(tree.config, nodes.config, old(Model()), cast)
        && Model() == M.Apply(tree.config, nodes.config, M.Apply(tree.config, nodes.config, old(Model()), view), cast)
        && (M.Agrees(old(Model())) && M.Polite(old(Model()), cast) ==> M.Agrees(Model()))
      ensures tree.outEvents ==
              old(tree.outEvents) + T.Received(tree.config, old(tree.Model()), from, rpc, now, choice).events
    {
      hide V.Received, V.ReceiveAllows, V.Valid, T.Received, T.Permits, T.Sound, M.Follows, M.Agrees;
      ghost var before := Model();
      error, pick, choice := Dispatch(from, rpc, now);
      ghost var view := M.Membership(V.Receive(from, rpc), pick);
      Agreement(before, view);
      Agreement(M.Apply(tree.config, nodes.config, before, view), M.Broadcast(T.Receive(from, rpc), now, choice));
      if error.Some? {
        RefusedWithoutEffect(before, from, rpc, now, pick, choice);
      }
    }

    lemma RefusedWithoutEffect(m: M.Mesh, from: Peer, rpc: Rpc, now: Instant, pick: V.Pick, choice: T.Choice)
      requires VE.NamesNobody(rpc) || VE.NamesAnother(from, rpc)
      ensures var refused := M.Apply(tree.config, nodes.config, m, M.Membership(V.Receive(from, rpc), pick));
        refused == m
        && M.Apply(tree.config, nodes.config, m, M.Broadcast(T.Receive(from, rpc), now, choice)) == m
      ensures T.Received(tree.config, m.tree, from, rpc, now, choice).events == []
    {
      VE.RefusedExactly(nodes.config, m.view, from, rpc, pick);
      assert m.queue + [] == m.queue;
    }

    // The view's periodic work, done before it hands anything out.
    ghost function Refreshed(before: M.Mesh, shuffle: Option<V.Pick>, promote: Option<V.Pick>): M.Mesh {
      var shuffled :=
        if shuffle.Some? then M.Apply(tree.config, nodes.config, before, M.Membership(V.ShuffleDue, shuffle.value))
        else before;
      if promote.Some? then M.Apply(tree.config, nodes.config, shuffled, M.Membership(V.TopUpDue, promote.value))
      else shuffled
    }

    ghost predicate RefreshAllows(before: M.Mesh, shuffle: Option<V.Pick>, promote: Option<V.Pick>) {
      && (shuffle.Some? ==> V.SendShuffleAllows(nodes.config, before.view, shuffle.value))
      && (promote.Some? ==> V.PromoteAllows(nodes.config, before.view, promote.value))
    }

    ghost method RefreshAgrees(before: M.Mesh, shuffle: Option<V.Pick>, promote: Option<V.Pick>)
      requires M.Follows(before) && RefreshAllows(before, shuffle, promote)
      ensures var after := Refreshed(before, shuffle, promote);
        && M.Follows(after) && (M.Agrees(before) ==> M.Agrees(after))
        && (after.queue != [] ==> M.Follows(M.Apply(tree.config, nodes.config, after, M.Bridge)))
        && (after.queue != [] && M.Agrees(before) ==> M.Agrees(M.Apply(tree.config, nodes.config, after, M.Bridge)))
    {
      hide M.Follows, M.Agrees, V.SendShuffleAllows, V.PromoteAllows, V.Promote;
      var shuffled := Refreshed(before, shuffle, None);
      if shuffle.Some? {
        Agreement(before, M.Membership(V.ShuffleDue, shuffle.value));
      }
      if promote.Some? {
        Agreement(shuffled, M.Membership(V.TopUpDue, promote.value));
      }
      if Refreshed(before, shuffle, promote).queue != [] {
        Agreement(Refreshed(before, shuffle, promote), M.Bridge);
      }
    }

    lemma RefreshedIs(before: M.Mesh, shuffle: Option<V.Pick>, promote: Option<V.Pick>)
      ensures var v := before.view;
        var shuffled := if shuffle.Some? then V.SendShuffle(nodes.config, v, shuffle.value).events else [];
        var topped := if promote.Some? then V.Promote(nodes.config, v, promote.value) else V.Outcome(v, []);
        Refreshed(before, shuffle, promote) == M.Mesh(topped.view, before.queue + shuffled + topped.events, before.tree)
    {
      hide V.Promote;
    }

    method NotifyTree(event: Action, now: Instant)
      requires tree.Valid(now)
      modifies tree`eager, tree`lazy
      ensures tree.Valid(now) && tree.Model() == M.Bridged(old(tree.Model()), event)
    {
      hide Cache.Coherent, Cache.NotAfter;
      match event
      case PeerAdded(peer) => tree.InjectNeighborUp(peer);
      case PeerRemoved(peer) => tree.InjectNeighborDown(peer);
      case _ =>
    }

    // The view's queue, on its way out to the swarm, tells the tree.
    method PollNodes(now: Instant, sampled: bool)
      returns (ready: Option<Action>, ghost shuffle: Option<V.Pick>, ghost promote: Option<V.Pick>)
      requires Valid(now)
      modifies nodes, tree`eager, tree`lazy
      ensures Valid(now) && RefreshAllows(old(Model()), shuffle, promote)
      ensures shuffle.Some? <==> now - old(nodes.lastShuffle) > nodes.shuffleInterval && sampled
      ensures promote.Some? <==> now - old(nodes.lastTick) > nodes.tickFrequency
      ensures M.Agrees(old(Model())) ==> M.Agrees(Model())
      ensures var after := Refreshed(old(Model()), shuffle, promote);
        if after.queue == [] then ready == None && Model() == after
        else ready == Some(after.queue[0]) && Model() == M.Apply(tree.config, nodes.config, after, M.Bridge)
    {
      hide M.Follows, M.Agrees, M.Bridged, V.SendShuffleAllows, V.PromoteAllows, V.Promote, V.SendShuffle, V.Valid;
      hide T.Sound;
      ghost var before := Model();
      ghost var moved, topped;
      shuffle, promote := None, None;
      ghost var dueShuffle := now - nodes.lastShuffle > nodes.shuffleInterval && sampled;
      ghost var dueTopUp := now - nodes.lastTick > nodes.tickFrequency;
      ready, moved, topped := nodes.Poll(now, sampled);
      if dueShuffle {
        shuffle := Some(moved);
      }
      if dueTopUp {
        promote := Some(topped);
      }
      RefreshAgrees(before, shuffle, promote);
      RefreshedIs(before, shuffle, promote);
      hide Refreshed, RefreshAllows;
      if ready.Some? {
        NotifyTree(ready.value, now);
      }
      ghost var after := Refreshed(before, shuffle, promote);
      assert Model() == if after.queue == [] then after else M.Apply(tree.config, nodes.config, after, M.Bridge);
    }

    // The tree handed out the first action of what it had queued.
    ghost predicate Took(ready: Option<Action>, queued: seq<Action>)
      reads tree
    {
      if queued == [] then ready == None && tree.outEvents == []
      else ready == Some(queued[0]) && tree.outEvents == queued[1..]
    }

    method PollTree(now: Instant, lazySearch: Cache.Search, repairSearch: Cache.Search)
      returns (ready: Option<Action>, ghost choice: T.Choice)
      requires Valid(now) && nodes.outEvents == [] && Cache.IsSearch(lazySearch) && Cache.IsSearch(repairSearch)
      modifies tree, tree.observed, tree.received
      ensures Valid(now)
      ensures M.Agrees(old(Model())) ==> M.Agrees(Model()) && Model().view.active == M.Known(Model().tree)
      ensures Model().view.active <= M.Known(Model().tree)
      ensures var tick := M.Broadcast(T.Tick, now, choice);
        var due := now - old(tree.lastTick) > tree.config.tickFrequency;
        && (due ==> M.Enabled(tree.config, nodes.config, old(Model()), tick))
        && Model() == (if due then M.Apply(tree.config, nodes.config, old(Model()), tick) else old(Model()))
        && Took(ready, old(tree.outEvents) +
             if due then T.Ticked(tree.config, old(tree.Model()), now, choice).events else [])
    {
      hide V.Valid, T.Sound, T.TickPermits, T.Ticked, M.Follows, M.Agrees, M.Replay;
      ghost var before := Model();
      ghost var due := now - tree.lastTick > tree.config.tickFrequency;
      ready, choice := tree.Poll(now, lazySearch, repairSearch);
      if due {
        Agreement(before, M.Broadcast(T.Tick, now, choice));
      }
      M.Drained(Model());
    }

    // Own events, then the view's, then the tree's: the tree speaks only when it knows
    // every active peer, and exactly them if prunes and grafts were well-mannered.
    method Poll(now: Instant, sampled: bool, lazySearch: Cache.Search, repairSearch: Cache.Search) returns (
        ready: Option<Action>, ghost shuffle: Option<V.Pick>, ghost promote: Option<V.Pick>, ghost choice: T.Choice)
      requires Valid(now) && Cache.IsSearch(lazySearch) && Cache.IsSearch(repairSearch)
      modifies this`outEvents, nodes, tree, tree.observed, tree.received
      ensures Valid(now) && RefreshAllows(old(Model()), shuffle, promote)
      ensures M.Agrees(old(Model())) ==> M.Agrees(Model())
      ensures old(outEvents) != [] ==>
        ready == Some(old(outEvents)[0]) && outEvents == old(outEvents)[1..] && Model() == old(Model())
      ensures var after := Refreshed(old(Model()), shuffle, promote);
        && (old(outEvents) == [] && after.queue != [] ==>
              && ready == Some(after.queue[0]) && Model() == M.Apply(tree.config, nodes.config, after, M.Bridge)
              && tree.outEvents == old(tree.outEvents))
        && (old(outEvents) == [] && after.queue == [] ==>
              var tick := M.Broadcast(T.Tick, now, choice);
              var due := now - old(tree.lastTick) > tree.config.tickFrequency;
              && (due ==> M.Enabled(tree.config, nodes.config, after, tick))
              && Model() == (if due then M.Apply(tree.config, nodes.config, after, tick) else after)
              && Took(ready, old(tree.outEvents) +
                   if due then T.Ticked(tree.config, after.tree, now, choice).events else [])
              && Model().queue == [] && Model().view.active <= M.Known(Model().tree)
              && (M.Agrees(old(Model())) ==> Model().view.active == M.Known(Model().tree)))
    {
      hide M.Apply, M.Enabled, M.Follows, M.Agrees, V.Valid, T.Sound, T.Ticked, Refreshed;
      choice := T.Walk([]);
      if outEvents != [] {
        shuffle, promote := None, None;
        ready := Some(outEvents[0]);
        outEvents := outEvents[1..];
        return;
      }
      ready, shuffle, promote := PollNodes(now, sampled);
      if ready == None {
        ready, choice := PollTree(now, lazySearch, repairSearch);
      }
    }
  }
}
