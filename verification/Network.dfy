/** Packets in flight between nodes. The flight is a bag kept as a sequence:
    any packet in it may be the next one to arrive. */
module Network {
  import opened Types

  datatype Packet = Packet(src: Peer, dst: Peer, rpc: Rpc)

  // The packets among a node's queued actions.
  function Sends(src: Peer, events: seq<Action>): seq<Packet> {
    if events == [] then []
    else
      var last := events[|events| - 1];
      Sends(src, events[..|events| - 1]) + if last.Notify? then [Packet(src, last.peer, last.rpc)] else []
  }

  function Without(flight: seq<Packet>, i: nat): seq<Packet>
    requires i < |flight|
  {
    flight[..i] + flight[i + 1..]
  }

  // A sum over the packets.
  function Total(flight: seq<Packet>, w: Packet -> nat): nat {
    if flight == [] then 0 else Total(flight[..|flight| - 1], w) + w(flight[|flight| - 1])
  }

  lemma {:induction false} SendsMembers(src: Peer, events: seq<Action>, p: Packet)
    ensures p in Sends(src, events) <==> p.src == src && Notify(p.dst, p.rpc) in events
  {
    if events != [] {
      SendsMembers(src, events[..|events| - 1], p);
      assert events == events[..|events| - 1] + [events[|events| - 1]];
    }
  }

  lemma {:induction false} SendsConcat(src: Peer, a: seq<Action>, b: seq<Action>)
    ensures Sends(src, a + b) == Sends(src, a) + Sends(src, b)
  {
    if b == [] {
      assert a + b == a;
    } else {
      SendsConcat(src, a, b[..|b| - 1]);
      assert (a + b)[..|a + b| - 1] == a + b[..|b| - 1];
    }
  }

  lemma WithoutMembers(flight: seq<Packet>, i: nat, p: Packet)
    requires i < |flight|
    ensures p in Without(flight, i) ==> p in flight
    ensures p in flight && p != flight[i] ==> p in Without(flight, i)
  {
    assert flight == flight[..i] + [flight[i]] + flight[i + 1..];
  }

  lemma {:induction false} TotalConcat(a: seq<Packet>, b: seq<Packet>, w: Packet -> nat)
    ensures Total(a + b, w) == Total(a, w) + Total(b, w)
  {
    if b == [] {
      assert a + b == a;
    } else {
      TotalConcat(a, b[..|b| - 1], w);
      assert (a + b)[..|a + b| - 1] == a + b[..|b| - 1];
    }
  }

  lemma TotalOne(p: Packet, w: Packet -> nat)
    ensures Total([p], w) == w(p)
  {
    assert [p][..0] == [];
  }

  lemma {:induction false} TotalWithout(flight: seq<Packet>, i: nat, w: Packet -> nat)
    requires i < |flight|
    ensures Total(flight, w) == Total(Without(flight, i), w) + w(flight[i])
  {
    var init, last := flight[..|flight| - 1], flight[|flight| - 1];
    if i == |init| {
      assert Without(flight, i) == init;
    } else {
      TotalWithout(init, i, w);
      var rest := Without(flight, i);
      assert rest == Without(init, i) + [last];
      assert rest[..|rest| - 1] == Without(init, i);
    }
  }

  lemma SendsOne(src: Peer, a: Action)
    ensures Sends(src, [a]) == if a.Notify? then [Packet(src, a.peer, a.rpc)] else []
  {
    assert [a][..0] == [];
  }

  lemma {:induction false} TotalZero(flight: seq<Packet>, w: Packet -> nat)
    ensures Total(flight, w) > 0 <==> exists p :: p in flight && w(p) > 0
  {
    if flight != [] {
      TotalZero(flight[..|flight| - 1], w);
      assert flight == flight[..|flight| - 1] + [flight[|flight| - 1]];
    }
  }

  // A fanned-out message, packet by packet.
  lemma {:induction false} FanTotal(src: Peer, order: seq<Peer>, rpc: Rpc, w: Packet -> nat, bound: nat)
    requires forall k :: 0 <= k < |order| ==> w(Packet(src, order[k], rpc)) <= bound
    ensures Total(Sends(src, Fan(order, rpc)), w) <= |order| * bound
  {
    if order != [] {
      var init := order[..|order| - 1];
      FanTotal(src, init, rpc, w, bound);
      FanInit(src, order, rpc);
      assert |order| * bound == |init| * bound + bound;
    }
  }

  lemma FanInit(src: Peer, order: seq<Peer>, rpc: Rpc)
    requires order != []
    ensures Sends(src, Fan(order, rpc)) ==
            Sends(src, Fan(order[..|order| - 1], rpc)) + [Packet(src, order[|order| - 1], rpc)]
  {
    assert Fan(order, rpc)[..|order| - 1] == Fan(order[..|order| - 1], rpc);
  }

  lemma FanPackets(src: Peer, order: seq<Peer>, rpc: Rpc)
    ensures forall q :: q in Sends(src, Fan(order, rpc)) ==> q.src == src && q.dst in order && q.rpc == rpc
  {
    forall q | q in Sends(src, Fan(order, rpc)) ensures q.src == src && q.dst in order && q.rpc == rpc {
      SendsMembers(src, Fan(order, rpc), q);
      FanMembers(order, rpc, Notify(q.dst, q.rpc));
    }
  }
}
