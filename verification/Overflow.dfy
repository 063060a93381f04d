/** The capacity theorem at its exact condition: among nodes of one configuration active
    views stay within capacity in every reachable state unless there is a single slot.
    With one slot three nodes get there from empty views, by a shuffle that can go no
    further; with none nobody ever has anybody to shuffle with. */
module Overflow {
  import opened Types
  import opened Network
  import opened ViewSpec
  import opened Membership
  import opened Config
  import opened ConfiguredLimits

  // A single slot, and shuffles of one peer or more that go two hops or more.
  ghost predicate OneSlot(lim: Limits) {
    lim.maxActive == 1 && lim.walkLength >= 2 && lim.shuffleMax >= 1
  }

  ghost predicate AllOneSlot(rules: Rules) {
    forall x :: x in {0, 1, 2} ==> OneSlot(rules(x))
  }

  function Three(a: set<Peer>, b: set<Peer>, c: set<Peer>, flight: seq<Packet>): Net {
    Net(map[0 := View(0, a, {}), 1 := View(1, b, {}), 2 := View(2, c, {})], flight)
  }

  function Only(target: Peer, sample: seq<Peer>): Pick {
    Pick({}, 0, [], sample, target)
  }

  function Invite(src: Peer, dst: Peer): Packet {
    Packet(src, dst, Rpc.Neighbor(Some(src), LOW))
  }

  function Ask(rules: Rules, src: Peer, dst: Peer): Packet {
    Packet(src, dst, Rpc.Join(rules(src).walkLength, Some(src)))
  }

  lemma Joins(rules: Rules, src: Peer, dst: Peer, a: set<Peer>, b: set<Peer>, c: set<Peer>, flight: seq<Packet>)
    requires src in {0, 1, 2}
    ensures var s := Step(Local(src, JoinThrough(dst)), Only(0, []));
      Enabled(rules, Three(a, b, c, flight), s)
      && Apply(rules, Three(a, b, c, flight), s) == Three(a, b, c, flight + [Ask(rules, src, dst)])
  {
    SendsOne(src, Notify(dst, Rpc.Join(rules(src).walkLength, Some(src))));
  }

  // What accepting a peer puts on the wire.
  lemma AcceptSends(node: Peer, peer: Peer, ttl: nat)
    requires node != peer
    ensures Sends(node, AddActive(View(node, {}, {}), peer, true).events + Fan([], Rpc.ForwardJoin(ttl, Some(peer))))
            == [Invite(node, peer)]
    ensures Sends(node, AddActive(View(node, {}, {}), peer, false).events) == []
  {
    AcceptEvents(node, peer, ttl);
    hide AddActive, Sends, Fan;
    InviteSends(node, peer);
    SendsOne(node, PeerAdded(peer));
  }

  lemma AcceptEvents(node: Peer, peer: Peer, ttl: nat)
    requires node != peer
    ensures AddActive(View(node, {}, {}), peer, true).events + Fan([], Rpc.ForwardJoin(ttl, Some(peer)))
            == [Dial(peer, false), Notify(peer, Rpc.Neighbor(Some(node), LOW)), PeerAdded(peer)]
    ensures AddActive(View(node, {}, {}), peer, false).events == [PeerAdded(peer)]
  {
    assert {} + {peer} != {};
  }

  lemma InviteSends(node: Peer, peer: Peer)
    ensures Sends(node, [Dial(peer, false), Notify(peer, Rpc.Neighbor(Some(node), LOW)), PeerAdded(peer)])
            == [Invite(node, peer)]
  {
    var dial, ask, added := Dial(peer, false), Notify(peer, Rpc.Neighbor(Some(node), LOW)), PeerAdded(peer);
    SendsOne(node, dial);
    SendsOne(node, ask);
    SendsOne(node, added);
    SendsConcat(node, [dial], [ask]);
    SendsConcat(node, [dial] + [ask], [added]);
    hide Sends;
    assert [dial] + [ask] + [added] == [dial, ask, added];
  }

  lemma JoinAccepted(rules: Rules, n: Net, i: nat, node: Peer, peer: Peer)
    requires OneSlot(rules(node))
    requires i < |n.flight| && n.flight[i] == Ask(rules, peer, node) && node != peer
    requires node in n.views && n.views[node] == View(node, {}, {})
    ensures var s := Step(Arrive(i), Only(0, []));
      Enabled(rules, n, s)
      && Apply(rules, n, s)
         == Net(n.views[node := View(node, {peer}, {})], Without(n.flight, i) + [Invite(node, peer)])
  {
    AcceptSends(node, peer, rules(peer).walkLength);
    var v, c := View(node, {}, {}), Only(0, []);
    assert Place(rules(node), v, peer, c).view == View(node, {peer}, {});
    assert {peer} - {peer, peer} == {};
  }

  lemma InviteAccepted(rules: Rules, n: Net, i: nat, node: Peer, peer: Peer)
    requires OneSlot(rules(node))
    requires i < |n.flight| && n.flight[i] == Invite(peer, node) && node != peer
    requires node in n.views && n.views[node] == View(node, {}, {})
    ensures var s := Step(Arrive(i), Only(0, []));
      Enabled(rules, n, s)
      && Apply(rules, n, s) == Net(n.views[node := View(node, {peer}, {})], Without(n.flight, i))
  {
    AcceptSends(node, peer, 0);
    assert {} + {peer} == {peer};
    assert Without(n.flight, i) + [] == Without(n.flight, i);
  }

  lemma Then(rules: Rules, n: Net, steps: seq<Step>, s: Step)
    requires Legal(rules, n, steps) && Enabled(rules, Run(rules, n, steps), s)
    ensures Legal(rules, n, steps + [s]) && Run(rules, n, steps + [s]) == Apply(rules, Run(rules, n, steps), s)
  {
    var more := steps + [s];
    assert more[..|more| - 1] == steps;
    hide Enabled, Apply;
  }

  // 1 joins through 0, then 0 through 2; each keeps one peer.

  function Linked(): Net {
    Three({1}, {0}, {0}, [Invite(2, 0)])
  }

  function Deliver(i: nat): Step {
    Step(Arrive(i), Only(0, []))
  }

  function JoinBy(src: Peer, dst: Peer): Step {
    Step(Local(src, JoinThrough(dst)), Only(0, []))
  }

  ghost predicate Leads(rules: Rules, n: Net, s: Step, n': Net) {
    Enabled(rules, n, s) && Apply(rules, n, s) == n'
  }

  lemma FirstJoin(rules: Rules)
    requires AllOneSlot(rules)
    ensures Leads(rules, Three({}, {}, {}, []), JoinBy(1, 0), Three({}, {}, {}, [Ask(rules, 1, 0)]))
  {
    Joins(rules, 1, 0, {}, {}, {}, []);
    hide Enabled, Apply;
    assert [] + [Ask(rules, 1, 0)] == [Ask(rules, 1, 0)];
  }

  lemma FirstAccepted(rules: Rules)
    requires AllOneSlot(rules)
    ensures Leads(rules, Three({}, {}, {}, [Ask(rules, 1, 0)]), Deliver(0), Three({1}, {}, {}, [Invite(0, 1)]))
  {
    var n := Three({}, {}, {}, [Ask(rules, 1, 0)]);
    assert OneSlot(rules(0)) && n.views[0] == View(0, {}, {}) && n.flight[0] == Ask(rules, 1, 0);
    JoinAccepted(rules, n, 0, 0, 1);
    assert n.views[0 := View(0, {1}, {})] == Three({1}, {}, {}, []).views;
    assert Three({1}, {}, {}, [Invite(0, 1)]) == Net(Three({1}, {}, {}, []).views, [Invite(0, 1)]);
    OnlyPacket(n.flight[0], [Invite(0, 1)]);
    hide Enabled, Apply, OneSlot, AllOneSlot, Invite, Ask, Three, Without;
  }

  lemma OnlyPacket(p: Packet, sent: seq<Packet>)
    ensures Without([p], 0) + sent == sent
  {}

  lemma FirstInvite(rules: Rules)
    requires AllOneSlot(rules)
    ensures Leads(rules, Three({1}, {}, {}, [Invite(0, 1)]), Deliver(0), Three({1}, {0}, {}, []))
  {
    InviteAccepted(rules, Three({1}, {}, {}, [Invite(0, 1)]), 0, 1, 0);
    hide Enabled, Apply;
  }

  lemma SecondJoin(rules: Rules)
    requires AllOneSlot(rules)
    ensures Leads(rules, Three({1}, {0}, {}, []), JoinBy(0, 2), Three({1}, {0}, {}, [Ask(rules, 0, 2)]))
  {
    Joins(rules, 0, 2, {1}, {0}, {}, []);
    hide Enabled, Apply;
    assert [] + [Ask(rules, 0, 2)] == [Ask(rules, 0, 2)];
  }

  lemma SecondAccepted(rules: Rules)
    requires AllOneSlot(rules)
    ensures Leads(rules, Three({1}, {0}, {}, [Ask(rules, 0, 2)]), Deliver(0), Linked())
  {
    var n := Three({1}, {0}, {}, [Ask(rules, 0, 2)]);
    assert OneSlot(rules(2)) && n.views[2] == View(2, {}, {}) && n.flight[0] == Ask(rules, 0, 2);
    JoinAccepted(rules, n, 0, 2, 0);
    assert n.views[2 := View(2, {0}, {})] == Three({1}, {0}, {0}, []).views;
    assert Linked() == Net(Three({1}, {0}, {0}, []).views, [Invite(2, 0)]);
    OnlyPacket(n.flight[0], [Invite(2, 0)]);
    hide Enabled, Apply, OneSlot, AllOneSlot, Invite, Ask, Three, Without, Linked;
  }

  lemma Onwards(rules: Rules, n: Net, steps: seq<Step>, m: Net, s: Step, m': Net) returns (more: seq<Step>)
    requires Legal(rules, n, steps) && Run(rules, n, steps) == m && Leads(rules, m, s, m')
    ensures Legal(rules, n, more) && Run(rules, n, more) == m'
  {
    hide Legal, Run, Enabled, Apply;
    Then(rules, n, steps, s);
    more := steps + [s];
  }

  lemma Links(rules: Rules) returns (steps: seq<Step>)
    requires AllOneSlot(rules)
    ensures var n := Three({}, {}, {}, []);
      Legal(rules, n, steps) && Run(rules, n, steps) == Linked()
  {
    var n := Three({}, {}, {}, []);
    var asked, invited := Three({}, {}, {}, [Ask(rules, 1, 0)]), Three({1}, {}, {}, [Invite(0, 1)]);
    var linked, again := Three({1}, {0}, {}, []), Three({1}, {0}, {}, [Ask(rules, 0, 2)]);
    hide *;
    StartsEmpty(rules, n);
    FirstJoin(rules);
    FirstAccepted(rules);
    FirstInvite(rules);
    SecondJoin(rules);
    SecondAccepted(rules);
    steps := Onwards(rules, n, [], n, JoinBy(1, 0), asked);
    steps := Onwards(rules, n, steps, asked, Deliver(0), invited);
    steps := Onwards(rules, n, steps, invited, Deliver(0), linked);
    steps := Onwards(rules, n, steps, linked, JoinBy(0, 2), again);
    steps := Onwards(rules, n, steps, again, Deliver(0), Linked());
  }

  lemma StartsEmpty(rules: Rules, n: Net)
    ensures Legal(rules, n, []) && Run(rules, n, []) == n
  {}

  lemma NobodyKnown()
    ensures Fresh(Three({}, {}, {}, []))
  {}

  // 2 shuffles with 0, which hands the shuffle on to 1, which has nowhere to send it.

  function Walking(ttl: nat, src: Peer, dst: Peer): Packet {
    Packet(src, dst, Rpc.Shuffle(ttl, Some(2), [Some(0)]))
  }

  function Shuffling(ttl: nat): Net {
    Three({1}, {0}, {0}, [Invite(2, 0), Walking(ttl, 2, 0)])
  }

  lemma ShuffleSent(rules: Rules)
    requires AllOneSlot(rules)
    ensures Leads(rules, Linked(), Step(Local(2, ShuffleDue), Only(0, [0])), Shuffling(rules(2).walkLength))
  {
    var nodes: set<Peer> := {0};
    assert OneSlot(rules(2));
    assert multiset(nodes) == multiset{0} && multiset([0 as Peer]) == multiset{0};
    assert Wires([0]) == [Some(0)];
    SendsOne(2, Notify(0, Rpc.Shuffle(rules(2).walkLength, Some(2), [Some(0)])));
  }

  lemma OneDecoded()
    ensures Decoded([Some(0)]) == [0]
  {
    assert [Some(0 as Peer)][..0] == [];
  }

  // Node 0, linked to 1, hears the shuffle.
  lemma PassingOn(lim: Limits, ttl: nat)
    requires OneSlot(lim) && ttl >= 2
    ensures var v := View(0, {1}, {});
      && ReceiveAllows(lim, v, 2, Walking(ttl, 2, 0).rpc, Only(1, [1]))
      && Received(lim, v, 2, Walking(ttl, 2, 0).rpc, Only(1, [1])).view == v
      && Received(lim, v, 2, Walking(ttl, 2, 0).rpc, Only(1, [1])).events
         == [Dial(2, true)] + [Notify(2, Rpc.ShuffleReply([Some(1)]))] + [Notify(1, Walking(ttl - 1, 0, 1).rpc)]
  {
    hide Decoded, News, Unknown, Samples, Absorbs, Wires, JoinIn, ForwardJoinIn, NeighborIn, DisconnectIn;
    hide JoinAllows, ForwardJoinAllows, NeighborAllows, DisconnectAllows, ShuffleReplyIn, AddActive;
    OneDecoded();
    NewsOfOne(lim.shuffleMax, lim.maxPassive);
    OneWired(0);
    OneWired(1);
  }

  lemma OneWired(p: Peer)
    ensures Wires([p]) == [Some(p)]
  {}

  lemma OneSampled(p: Peer, max: nat)
    requires max >= 1
    ensures Samples(multiset({p}), max, [p])
  {
    assert multiset({p}) == multiset{p} == multiset([p]);
  }

  lemma NothingAbsorbed(cap: nat)
    ensures Absorbs({}, {}, cap, {})
  {
    var nobody: set<Peer> := {};
    assert nobody + nobody == nobody;
  }

  lemma NewsOfOne(max: nat, cap: nat)
    requires max >= 1
    ensures var v := View(0, {1}, {});
      && Samples(multiset(News(v, [0])), max, [1]) && Absorbs({}, Unknown(v, [0]), cap, {})
      && 2 !in v.active && v.active - {2, 2} == {1}
  {
    hide Samples, Absorbs, News, Unknown;
    NodesOfOne();
    OneSampled(1, max);
    NothingAbsorbed(cap);
  }

  lemma NodesOfOne()
    ensures News(View(0, {1}, {}), [0]) == {1} && Unknown(View(0, {1}, {}), [0]) == {}
  {}

  lemma PassingOnSends(ttl: nat)
    ensures Sends(0, [Dial(2, true)] + [Notify(2, Rpc.ShuffleReply([Some(1)]))] + [Notify(1, Walking(ttl, 0, 1).rpc)])
            == [Packet(0, 2, Rpc.ShuffleReply([Some(1)])), Walking(ttl, 0, 1)]
  {
    var dial, reply, on := Dial(2, true), Notify(2, Rpc.ShuffleReply([Some(1)])), Notify(1, Walking(ttl, 0, 1).rpc);
    SendsConcat(0, [dial], [reply]);
    SendsConcat(0, [dial] + [reply], [on]);
    SendsOne(0, dial);
    SendsOne(0, reply);
    SendsOne(0, on);
  }

  function Stuck(ttl: nat): Net {
    Three({1}, {0}, {0}, [Invite(2, 0), Packet(0, 2, Rpc.ShuffleReply([Some(1)])), Walking(ttl, 0, 1)])
  }

  lemma ShufflePassedOn(rules: Rules, ttl: nat)
    requires AllOneSlot(rules) && ttl >= 2
    ensures Leads(rules, Shuffling(ttl), Step(Arrive(1), Only(1, [1])), Stuck(ttl - 1))
  {
    var n := Shuffling(ttl);
    var v, p := View(0, {1}, {}), Walking(ttl, 2, 0);
    assert 0 in n.views && n.views[0] == v && n.flight[1] == p && p.src == 2 && p.dst == 0;
    PassingOn(rules(0), ttl);
    PassingOnSends(ttl - 1);
    assert Without(n.flight, 1) == [Invite(2, 0)];
    var sent := [Packet(0, 2, Rpc.ShuffleReply([Some(1)])), Walking(ttl - 1, 0, 1)];
    assert Stuck(ttl - 1) == Net(n.views, [Invite(2, 0)] + sent);
    hide ReceiveAllows, Received, Sends, Without, Three, Stuck, Shuffling, Walking, Invite, Only, AllOneSlot, Leads;
    SameView(rules, n, 1, Only(1, [1]), [Invite(2, 0)] + sent);
  }

  // The receiver's view stays as it is.
  lemma SameView(rules: Rules, n: Net, i: nat, c: Pick, flight: seq<Packet>)
    requires i < |n.flight| && n.flight[i].dst in n.views
    requires var p := n.flight[i]; var v := n.views[p.dst]; var lim := rules(p.dst);
      && ReceiveAllows(lim, v, p.src, p.rpc, c) && Received(lim, v, p.src, p.rpc, c).view == v
      && flight == Without(n.flight, i) + Sends(p.dst, Received(lim, v, p.src, p.rpc, c).events)
    ensures Leads(rules, n, Step(Arrive(i), c), Net(n.views, flight))
  {
    hide ReceiveAllows, Received, Sends;
    assert n.views[n.flight[i].dst := n.views[n.flight[i].dst]] == n.views;
  }

  lemma ShuffleStuck(rules: Rules, ttl: nat) returns (n: Net)
    requires AllOneSlot(rules) && ttl >= 1
    ensures Leads(rules, Stuck(ttl), Step(Arrive(2), Only(0, [])), n)
    ensures 1 in n.views && n.views[1].active == {0, 2}
  {
    var s := Step(Arrive(2), Only(0, []));
    assert Walking(ttl, 0, 1) == Stuck(ttl).flight[2];
    StuckReceipt(rules(1), ttl);
    hide Received, ReceiveAllows, Sends;
    n := Apply(rules, Stuck(ttl), s);
  }

  lemma StuckReceipt(lim: Limits, ttl: nat)
    requires OneSlot(lim) && ttl >= 1
    ensures ReceiveAllows(lim, View(1, {0}, {}), 0, Walking(ttl, 0, 1).rpc, Only(0, []))
    ensures Received(lim, View(1, {0}, {}), 0, Walking(ttl, 0, 1).rpc, Only(0, [])).view.active == {0, 2}
  {
    var v: View := View(1, {0}, {});
    OneDecoded();
    assert News(v, [0]) == {} && Unknown(v, [0]) == {} && v.active - {0, 2} == {};
    assert multiset(News(v, [0])) == multiset{};
    NothingAbsorbed(lim.maxPassive);
    hide Decoded, News, Unknown, Samples, Absorbs, Wires, JoinIn, ForwardJoinIn, NeighborIn, DisconnectIn;
    hide JoinAllows, ForwardJoinAllows, NeighborAllows, DisconnectAllows, ShuffleReplyIn;
  }

  lemma OneSlotMeans(rules: Rules)
    requires AllOneSlot(rules)
    ensures rules(1).maxActive == 1 && rules(2).walkLength >= 2
  {
    assert OneSlot(rules(1)) && OneSlot(rules(2));
  }

  // Whatever else the nodes' limits are, the same or not.
  lemma OneSlotOverflows(rules: Rules) returns (n: Net, steps: seq<Step>)
    requires AllOneSlot(rules)
    ensures Fresh(n) && Legal(rules, n, steps) && 1 in Run(rules, n, steps).views
    ensures |Run(rules, n, steps).views[1].active| == 2 > rules(1).maxActive
  {
    hide *;
    OneSlotMeans(rules);
    NobodyKnown();
    var ttl := rules(2).walkLength;
    n := Three({}, {}, {}, []);
    steps := Links(rules);
    ShuffleSent(rules);
    steps := Onwards(rules, n, steps, Linked(), Step(Local(2, ShuffleDue), Only(0, [0])), Shuffling(ttl));
    ShufflePassedOn(rules, ttl);
    steps := Onwards(rules, n, steps, Shuffling(ttl), Step(Arrive(1), Only(1, [1])), Stuck(ttl - 1));
    var last := ShuffleStuck(rules, ttl - 1);
    steps := Onwards(rules, n, steps, Stuck(ttl - 1), Step(Arrive(2), Only(0, [])), last);
  }

  // -- No slots at all -------------------------------------------------------------------

  // Nobody knows anybody, and only requests to join are under way.
  ghost predicate Solitary(n: Net) {
    && (forall x :: x in n.views ==> n.views[x] == View(x, {}, {}))
    && (forall p :: p in n.flight ==> p.rpc.Join?)
  }

  lemma NothingTakenIn(lim: Limits, v: View, s: Signal, c: Pick)
    requires lim.maxActive == 0 && lim.maxPassive == 0 && v.active == {} && v.passive == {}
    requires Allows(lim, v, s, c) && (s.Receive? ==> s.rpc.Join?)
    ensures Next(lim, v, s, c).view == v
    ensures forall a :: a in Next(lim, v, s, c).events && a.Notify? ==> a.rpc.Join?
  {
    if s.Receive? && Verdict(s.from, s.rpc).None? {
      assert c.passive == {};
      assert v.active - {s.rpc.peer.value, s.from} == {};
      EnumerationLength(c.order, {});
    }
  }

  lemma StepKeepsSolitary(rules: Rules, n: Net, s: Step)
    requires Solitary(n) && Enabled(rules, n, s)
    requires forall x :: x in n.views ==> rules(x).maxActive == 0 && rules(x).maxPassive == 0
    ensures Solitary(Apply(rules, n, s)) && Apply(rules, n, s).views.Keys == n.views.Keys
  {
    hide Next, Allows;
    var n' := Apply(rules, n, s);
    if s.move.Lose? {
      forall p | p in n'.flight ensures p in n.flight {
        WithoutMembers(n.flight, s.move.index, p);
      }
    } else {
      var node := if s.move.Local? then s.move.node else n.flight[s.move.index].dst;
      var signal := if s.move.Local? then s.move.signal
                    else Receive(n.flight[s.move.index].src, n.flight[s.move.index].rpc);
      assert s.move.Arrive? ==> n.flight[s.move.index] in n.flight;
      NothingTakenIn(rules(node), n.views[node], signal, s.pick);
      var events := Next(rules(node), n.views[node], signal, s.pick).events;
      forall p | p in n'.flight ensures p.rpc.Join? {
        if p in Sends(node, events) {
          SendsMembers(node, events, p);
        } else if s.move.Arrive? {
          WithoutMembers(n.flight, s.move.index, p);
        }
      }
    }
  }

  lemma {:induction false} NoSlotsNoPeers(rules: Rules, n: Net, steps: seq<Step>)
    requires Fresh(n) && Legal(rules, n, steps)
    requires forall x :: x in n.views ==> rules(x).maxActive == 0 && rules(x).maxPassive == 0
    ensures Solitary(Run(rules, n, steps)) && Run(rules, n, steps).views.Keys == n.views.Keys
  {
    hide Apply, Enabled;
    if steps != [] {
      var init, last := steps[..|steps| - 1], steps[|steps| - 1];
      NoSlotsNoPeers(rules, n, init);
      hide Solitary;
      StepKeepsSolitary(rules, Run(rules, n, init), last);
    }
  }

  // -- The exact condition ----------------------------------------------------------------

  function Uniform(c: Config): Rules {
    (_: Peer) => LimitsOf(c)
  }

  ghost predicate StaysWithin(rules: Rules, n: Net, steps: seq<Step>) {
    Fresh(n) && Legal(rules, n, steps) ==> CapacityKept(rules, Run(rules, n, steps))
  }

  // In every reachable state of every network of one configuration.
  lemma CapacityIff(c: Config)
    ensures (forall n, steps :: StaysWithin(Uniform(c), n, steps)) <==> c.MaxActiveViewSize() != 1
  {
    var rules := Uniform(c);
    ViewSizesOrdered(c);
    hide Legal, Run;
    if c.MaxActiveViewSize() == 1 {
      var n, steps := OneSlotOverflows(rules);
      assert !StaysWithin(rules, n, steps);
    } else {
      forall n, steps ensures StaysWithin(rules, n, steps) {
        if Fresh(n) && Legal(rules, n, steps) {
          if c.MaxActiveViewSize() == 0 {
            NoSlotsNoPeers(rules, n, steps);
          } else {
            Capacity(rules, n, steps);
          }
        }
      }
    }
  }
}
