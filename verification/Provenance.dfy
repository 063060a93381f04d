/** Where the peers a node knows come from: among nodes that all run this code nobody is
    made up or spoken for, and walks are about peers that asked to join; whatever others
    send, everybody in a view was introduced by name. */
module Provenance {
  import opened Types
  import opened Network
  import opened ViewSpec
  import opened ViewEffects
  import opened Membership
  import Mesh

  // -- A closed network --------------------------------------------------------------------

  function Applicants(steps: seq<Step>): set<Peer> {
    set s | s in steps && s.move.Local? && s.move.signal.JoinThrough? :: s.move.node
  }

  ghost predicate AllNamed(nodes: seq<WirePeer>, members: set<Peer>) {
    forall w :: w in nodes ==> w.Some? && w.value in members
  }

  // Joins and invitations are in the sender's own name, walks about somebody who asked to
  // join, shuffles about members of the network.
  ghost predicate Honest(p: Packet, members: set<Peer>, applicants: set<Peer>) {
    && p.src in members
    && match p.rpc
       case Join(_, peer) => peer == Some(p.src) && p.src in applicants
       case ForwardJoin(_, peer) => peer.Some? && peer.value in applicants
       case Neighbor(peer, priority) => peer == Some(p.src) && priority == LOW
       case Disconnect(_) => true
       case Shuffle(_, origin, nodes) => origin.Some? && origin.value in members && AllNamed(nodes, members)
       case ShuffleReply(nodes) => AllNamed(nodes, members)
       case _ => false
  }

  ghost predicate Inside(v: View, members: set<Peer>) {
    v.local in members && v.active <= members && v.passive <= members
  }

  ghost predicate AllHonest(n: Net, applicants: set<Peer>) {
    && applicants <= n.views.Keys
    && (forall x :: x in n.views ==> n.views[x].local == x && Inside(n.views[x], n.views.Keys))
    && (forall p :: p in n.flight ==> Honest(p, n.views.Keys, applicants))
  }

  // What a node of such a network may be told.
  ghost predicate Told(s: Signal, members: set<Peer>, applicants: set<Peer>) {
    && applicants <= members
    && (s.Receive? ==> Honest(Packet(s.from, 0, s.rpc), members, applicants))
  }

  lemma AllNamedMeans(nodes: seq<WirePeer>, members: set<Peer>)
    requires AllNamed(nodes, members)
    ensures Named(nodes) <= members
  {}

  lemma ToldOfMembers(s: Signal, members: set<Peer>, applicants: set<Peer>, x: Peer)
    requires Told(s, members, applicants) && Introduces(s, x)
    ensures x in members
  {
    if s.rpc.Shuffle? || s.rpc.ShuffleReply? {
      AllNamedMeans(s.rpc.nodes, members);
    }
    hide Named, AllNamed;
  }

  lemma NextStaysInside(
    lim: Limits, v: View, s: Signal, c: Pick, members: set<Peer>, applicants: set<Peer>)
    requires Allows(lim, v, s, c) && Inside(v, members) && Told(s, members, applicants)
    ensures Inside(Next(lim, v, s, c).view, members) && Next(lim, v, s, c).view.local == v.local
  {
    hide Next, Allows, Told, Introduces, Enters, Leaves;
    var after := Next(lim, v, s, c).view;
    ActiveExactly(lim, v, s, c, v.local);
    forall x | x in after.active || x in after.passive ensures x in members {
      NewcomersAreIntroduced(lim, v, s, c, x);
      if Introduces(s, x) {
        ToldOfMembers(s, members, applicants, x);
      }
    }
  }

  lemma WiresNamed(sample: seq<Peer>, members: set<Peer>)
    requires forall p :: p in sample ==> p in members
    ensures AllNamed(Wires(sample), members)
  {}

  lemma DecodedNamed(nodes: seq<WirePeer>, members: set<Peer>)
    requires AllNamed(nodes, members)
    ensures AllNamed(Wires(Decoded(nodes)), members)
  {
    forall p | p in Decoded(nodes) ensures p in members {
      DecodedMembers(nodes, p);
    }
    WiresNamed(Decoded(nodes), members);
  }

  // What such a node sends is honest in turn.
  lemma SaysHonestly(
    lim: Limits, v: View, s: Signal, c: Pick, x: Peer, rpc: Rpc, members: set<Peer>, applicants: set<Peer>)
    requires Allows(lim, v, s, c) && Inside(v, members) && Told(s, members, applicants)
    requires s.JoinThrough? ==> v.local in applicants
    requires Notify(x, rpc) in Next(lim, v, s, c).events
    ensures Honest(Packet(v.local, x, rpc), members, applicants)
  {
    DoesExactly(lim, v, s, c, Notify(x, rpc));
    SampleExactly(lim, v, s, c);
    hide Next, Allows, Named, Wires, Decoded, AllNamed, Strikes, Courts;
    if rpc.Shuffle? || rpc.ShuffleReply? {
      WiresInside(v, c.sample, members);
      if s.Receive? && s.rpc.Shuffle? {
        DecodedNamed(s.rpc.nodes, members);
      }
    }
  }

  lemma WiresInside(v: View, sample: seq<Peer>, members: set<Peer>)
    requires Inside(v, members)
    ensures (forall p :: p in sample ==> p in v.active + v.passive) ==> AllNamed(Wires(sample), members)
  {
    if forall p :: p in sample ==> p in v.active + v.passive {
      WiresNamed(sample, members);
    }
  }

  ghost function StepApplicants(s: Step, applicants: set<Peer>): set<Peer> {
    if s.move.Local? && s.move.signal.JoinThrough? then applicants + {s.move.node} else applicants
  }

  lemma HonestLater(p: Packet, members: set<Peer>, applicants: set<Peer>, more: set<Peer>)
    requires Honest(p, members, applicants) && applicants <= more
    ensures Honest(p, members, more)
  {
    hide AllNamed;
  }

  lemma HonestTold(p: Packet, members: set<Peer>, applicants: set<Peer>)
    requires Honest(p, members, applicants) && applicants <= members
    ensures Told(Receive(p.src, p.rpc), members, applicants)
  {
    hide AllNamed;
  }

  lemma StepKeepsHonest(rules: Rules, n: Net, s: Step, applicants: set<Peer>)
    requires AllHonest(n, applicants) && Enabled(rules, n, s)
    ensures AllHonest(Apply(rules, n, s), StepApplicants(s, applicants))
    ensures Apply(rules, n, s).views.Keys == n.views.Keys
  {
    hide Next, Allows, Inside, Honest, Told, Sends;
    var n', more, members := Apply(rules, n, s), StepApplicants(s, applicants), n.views.Keys;
    forall p | p in n.flight ensures Honest(p, members, more) {
      HonestLater(p, members, applicants, more);
    }
    if s.move.Lose? {
      forall p | p in n'.flight ensures p in n.flight {
        WithoutMembers(n.flight, s.move.index, p);
      }
    } else {
      var node := if s.move.Local? then s.move.node else n.flight[s.move.index].dst;
      var signal := if s.move.Local? then s.move.signal
                    else Receive(n.flight[s.move.index].src, n.flight[s.move.index].rpc);
      var v := n.views[node];
      assert s.move.Arrive? ==> n.flight[s.move.index] in n.flight;
      SignalTold(n, s, members, more);
      NextStaysInside(rules(node), v, signal, s.pick, members, more);
      var events := Next(rules(node), v, signal, s.pick).events;
      assert n'.views == n.views[node := n'.views[node]] && n'.views.Keys == members;
      assert forall x :: x in n'.views ==> n'.views[x].local == x && Inside(n'.views[x], n'.views.Keys);
      forall p | p in n'.flight ensures Honest(p, members, more) {
        if p in Sends(node, events) {
          SendsMembers(node, events, p);
          SaysHonestly(rules(node), v, signal, s.pick, p.dst, p.rpc, members, more);
        } else if s.move.Arrive? {
          WithoutMembers(n.flight, s.move.index, p);
        }
      }
    }
  }

  lemma SignalTold(n: Net, s: Step, members: set<Peer>, applicants: set<Peer>)
    requires applicants <= members
    requires s.move.Local? ==> !s.move.signal.Receive?
    requires s.move.Arrive? ==> s.move.index < |n.flight| && Honest(n.flight[s.move.index], members, applicants)
    ensures s.move.Local? ==> Told(s.move.signal, members, applicants)
    ensures s.move.Arrive? ==>
      Told(Receive(n.flight[s.move.index].src, n.flight[s.move.index].rpc), members, applicants)
  {
    if s.move.Arrive? {
      HonestTold(n.flight[s.move.index], members, applicants);
    }
  }

  lemma {:induction false} RunIsHonest(rules: Rules, n: Net, steps: seq<Step>)
    requires Fresh(n) && Legal(rules, n, steps)
    ensures AllHonest(Run(rules, n, steps), Applicants(steps))
    ensures Run(rules, n, steps).views.Keys == n.views.Keys
  {
    hide Apply, Enabled, Inside, Honest;
    if steps == [] {
      assert Applicants(steps) == {};
      forall x | x in n.views ensures Inside(n.views[x], n.views.Keys) {
        NobodyInside(n.views[x], n.views.Keys);
      }
    } else {
      var init, last := steps[..|steps| - 1], steps[|steps| - 1];
      RunIsHonest(rules, n, init);
      hide AllHonest;
      StepKeepsHonest(rules, Run(rules, n, init), last, Applicants(init));
      assert Applicants(steps) == StepApplicants(last, Applicants(init)) by {
        assert steps == init + [last];
      }
    }
  }

  lemma NobodyInside(v: View, members: set<Peer>)
    requires v.local in members && v.active == {} && v.passive == {}
    ensures Inside(v, members)
  {}

  // In every reachable state of a network of nodes that all run this code: every walk in
  // flight is about a peer that asked to join in that run, every request to join or to be a
  // neighbour is in its sender's own name, nobody would be refused, and all views name
  // members of the network only.
  lemma WalksAreAboutApplicants(rules: Rules, n: Net, steps: seq<Step>)
    requires Fresh(n) && Legal(rules, n, steps)
    ensures var m := Run(rules, n, steps);
      && (forall p :: p in m.flight && p.rpc.ForwardJoin? ==>
            p.rpc.peer.Some? && p.rpc.peer.value in Applicants(steps))
      && (forall p :: p in m.flight && p.rpc.Join? ==> p.rpc.peer == Some(p.src) && p.src in Applicants(steps))
      && (forall p :: p in m.flight && p.rpc.Neighbor? ==> p.rpc.peer == Some(p.src))
      && (forall p :: p in m.flight ==> !NamesNobody(p.rpc) && !NamesAnother(p.src, p.rpc))
      && (forall x :: x in m.views ==> m.views[x].active + m.views[x].passive <= n.views.Keys)
  {
    hide Legal, Run, AllNamed;
    RunIsHonest(rules, n, steps);
  }

  // -- Among whomever ------------------------------------------------------------------------

  // In every run of a topic, whatever its peers send: everybody in a view was introduced by
  // a message of that run, as a neighbour only in its own name.
  lemma {:induction false} EverybodyWasIntroduced(
    cfg: Mesh.T.Settings, lim: Limits, m: Mesh.Mesh, steps: seq<Mesh.Step>, x: Peer)
    returns (k: nat)
    requires Mesh.Legal(cfg, lim, m, steps) && m.view.active == {} && m.view.passive == {}
    requires var v := Mesh.Run(cfg, lim, m, steps).view; x in v.active || x in v.passive
    ensures k < |steps| && steps[k].Membership? && Introduces(steps[k].signal, x)
  {
    hide Introduces, Next, Allows;
    var init, last := steps[..|steps| - 1], steps[|steps| - 1];
    var before := Mesh.Run(cfg, lim, m, init).view;
    if last.Membership? && !(x in before.active || x in before.passive) {
      NewcomersAreIntroduced(lim, before, last.signal, last.pick, x);
      k := |steps| - 1;
    } else {
      k := EverybodyWasIntroduced(cfg, lim, m, init, x);
    }
  }

  // A request to be a neighbour makes nobody but its sender active, and one that names
  // another changes neither view nor queue.
  lemma NeighborsSpeakForThemselves(
    cfg: Mesh.T.Settings, lim: Limits, m: Mesh.Mesh, from: Peer, peer: WirePeer, priority: int, c: Pick)
    requires Mesh.Enabled(cfg, lim, m, Mesh.Membership(Receive(from, Rpc.Neighbor(peer, priority)), c))
    ensures var m' := Mesh.Apply(cfg, lim, m, Mesh.Membership(Receive(from, Rpc.Neighbor(peer, priority)), c));
      && m'.view.active <= m.view.active + {from} && m'.view.passive == m.view.passive && m'.tree == m.tree
      && (peer != Some(from) ==> m' == m)
  {
    var s := Receive(from, Rpc.Neighbor(peer, priority));
    forall x | x in Next(lim, m.view, s, c).view.active ensures x in m.view.active + {from} {
      ActiveExactly(lim, m.view, s, c, x);
    }
    PassiveExactly(lim, m.view, s, c);
    RefusedExactly(lim, m.view, from, s.rpc, c);
    hide Next, Allows, Leaves;
    assert m.queue + [] == m.queue;
  }
}
