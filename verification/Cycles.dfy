/** Prunes need cycles: two holders of which neither had the message from the other,
    joined by a link, close a cycle of initial eager links. */
module Cycles {
  import opened Types
  import opened Cache
  import opened TreeSpec
  import opened Network
  import opened Gossip
  import opened GossipRuns
  import opened Broadcast
  import opened BroadcastInvariants
  import opened BroadcastOutcome
  import opened Graphs

  // -- Two ways up from the ends of a link close a cycle ---------------------------------

  ghost predicate UpLink(g: Graph, parent: map<Peer, Peer>, rank: map<Peer, nat>, x: Peer)
    requires parent.Keys == rank.Keys && x in parent
  {
    parent[x] in parent && Edge(g, x, parent[x]) && rank[parent[x]] < rank[x]
  }

  // Part of a graph hangs together by links to parents of lower rank.
  ghost predicate Hung(g: Graph, origin: Peer, parent: map<Peer, Peer>, rank: map<Peer, nat>) {
    && parent.Keys == rank.Keys && origin in parent
    && (forall x :: x in parent && x != origin ==> UpLink(g, parent, rank, x))
    && (forall x, y :: x in rank && y in rank && rank[x] == rank[y] ==> x == y)
  }

  lemma {:induction false} OriginRanksLowest(
    g: Graph, origin: Peer, parent: map<Peer, Peer>, rank: map<Peer, nat>, x: Peer)
    requires Hung(g, origin, parent, rank) && x in rank
    ensures rank[origin] <= rank[x]
    decreases rank[x]
  {
    if x != origin {
      OriginRanksLowest(g, origin, parent, rank, parent[x]);
    }
  }

  lemma InsertDistinct(left: seq<Peer>, right: seq<Peer>, x: Peer)
    requires Distinct(left + right) && x !in left + right
    ensures Distinct(left + [x] + right)
  {
    var all, c := left + right, left + [x] + right;
    forall i, j | 0 <= i < j < |c| ensures c[i] != c[j] {
      var i', j' := if i > |left| then i - 1 else i, if j > |left| then j - 1 else j;
      assert i != |left| ==> c[i] == all[i'];
      assert j != |left| ==> c[j] == all[j'];
    }
  }

  // Two stretches of nodes whose far ends are linked and whose near ends rank lowest.
  ghost predicate Stretches(g: Graph, rank: map<Peer, nat>, left: seq<Peer>, right: seq<Peer>) {
    && left != [] && right != []
    && Path(g, left) && Path(g, right) && Edge(g, right[|right| - 1], left[0])
    && Distinct(left + right)
    && (forall x :: x in left + right ==> x in rank)
    && (forall x :: x in left + right && x != left[|left| - 1] && x != right[0] ==>
          rank[x] > rank[left[|left| - 1]] && rank[x] > rank[right[0]])
  }

  lemma Closed(g: Graph, rank: map<Peer, nat>, left: seq<Peer>, right: seq<Peer>)
    requires Stretches(g, rank, left, right) && Edge(g, left[|left| - 1], right[0]) && |left| + |right| >= 3
    ensures Cycle(g, left + right)
  {
    assert Path(g, left + right);
  }

  lemma GrowLeft(g: Graph, rank: map<Peer, nat>, left: seq<Peer>, right: seq<Peer>, up: Peer)
    requires Stretches(g, rank, left, right) && up in rank && up != right[0]
    requires Edge(g, left[|left| - 1], up)
    requires rank[up] < rank[left[|left| - 1]] && rank[right[0]] < rank[left[|left| - 1]]
    ensures Stretches(g, rank, left + [up], right)
  {
    var longer := left + [up];
    assert up !in left + right;
    assert forall x :: x in longer + right ==> x in left + right || x == up;
    assert Path(g, longer);
    InsertDistinct(left, right, up);
  }

  lemma GrowRight(g: Graph, rank: map<Peer, nat>, left: seq<Peer>, right: seq<Peer>, up: Peer)
    requires Stretches(g, rank, left, right) && up in rank && up != left[|left| - 1]
    requires Edge(g, up, right[0])
    requires rank[up] < rank[right[0]] && rank[left[|left| - 1]] < rank[right[0]]
    ensures Stretches(g, rank, left, [up] + right)
  {
    var longer := [up] + right;
    assert up !in left + right;
    assert forall x :: x in left + longer ==> x in left + right || x == up;
    assert Path(g, longer);
    InsertDistinct(left, right, up);
    assert left + [up] + right == left + longer;
  }

  lemma {:induction false} CrossingMakesCycle(
    g: Graph, origin: Peer, parent: map<Peer, Peer>, rank: map<Peer, nat>, left: seq<Peer>, right: seq<Peer>)
    requires Undirected(g) && Hung(g, origin, parent, rank) && Stretches(g, rank, left, right)
    requires left[0] in parent && right[0] in parent
    requires |left| + |right| >= 3 || (parent[left[0]] != right[0] && parent[right[0]] != left[0])
    ensures exists c :: Cycle(g, c)
    decreases rank[left[|left| - 1]] + rank[right[0]]
  {
    hide Cycle, Path, Stretches, Hung, Undirected, Edge;
    Ends(g, rank, left, right);
    var a, b := left[|left| - 1], right[0];
    if rank[a] > rank[b] {
      Upwards(g, origin, parent, rank, a, b);
      if parent[a] == b {
        Closed(g, rank, left, right);
      } else {
        GrowLeft(g, rank, left, right, parent[a]);
        CrossingMakesCycle(g, origin, parent, rank, left + [parent[a]], right);
      }
    } else {
      Upwards(g, origin, parent, rank, b, a);
      if parent[b] == a {
        Closed(g, rank, left, right);
      } else {
        GrowRight(g, rank, left, right, parent[b]);
        CrossingMakesCycle(g, origin, parent, rank, left, [parent[b]] + right);
      }
    }
  }

  // The higher of two nodes has a parent, lower than itself.
  lemma Upwards(g: Graph, origin: Peer, parent: map<Peer, Peer>, rank: map<Peer, nat>, high: Peer, low: Peer)
    requires Undirected(g) && Hung(g, origin, parent, rank)
    requires high in rank && low in rank && high != low && rank[low] <= rank[high]
    ensures rank[low] < rank[high] && parent.Keys == rank.Keys && parent[high] in rank
    ensures rank[parent[high]] < rank[high] && Edge(g, high, parent[high]) && Edge(g, parent[high], high)
  {
    OriginRanksLowest(g, origin, parent, rank, low);
  }

  lemma Ends(g: Graph, rank: map<Peer, nat>, left: seq<Peer>, right: seq<Peer>)
    requires Stretches(g, rank, left, right)
    ensures left != [] && right != [] && left[|left| - 1] in rank && right[0] in rank && left[|left| - 1] != right[0]
  {
    var all := left + right;
    assert all[|left| - 1] == left[|left| - 1] && all[|left|] == right[0];
    assert all[|left| - 1] in all && all[|left|] in all;
  }

  // -- Links given up lie on cycles ------------------------------------------------------------

  ghost predicate Acyclic(g: Graph) {
    forall c :: !Cycle(g, c)
  }

  lemma {:induction false} RankPosition(log: seq<Receipt>, x: Peer, id: Id)
    requires Rank(log, x, id) > 0
    ensures Rank(log, x, id) <= |log| && log[Rank(log, x, id) - 1].node == x
  {
    var last := log[|log| - 1];
    if !(last.node == x && last.id == id) {
      RankPosition(log[..|log| - 1], x, id);
    }
  }

  ghost function GotParents(n: Net, b: Cast): map<Peer, Peer> {
    map x | x in n.nodes && Got(n, b, x) :: Parent(n, b, x)
  }

  ghost function GotRanks(n: Net, b: Cast): map<Peer, nat> {
    map x | x in n.nodes && Got(n, b, x) :: Rank(n.log, x, b.id)
  }

  lemma RanksDiffer(log: seq<Receipt>, x: Peer, y: Peer, id: Id)
    requires Rank(log, x, id) == Rank(log, y, id) > 0
    ensures x == y
  {
    RankPosition(log, x, id);
    RankPosition(log, y, id);
  }

  lemma GotLeadsUp(n: Net, b: Cast, x: Peer)
    requires Symmetric(b) && Rooted(n, b) && n.nodes.Keys == b.links.Keys && Got(n, b, x)
    ensures x in n.nodes && Rank(n.log, x, b.id) > 0
    ensures x != b.origin ==>
      var up := Parent(n, b, x);
      up in n.nodes && up in b.links[x] && Got(n, b, up) && Rank(n.log, up, b.id) < Rank(n.log, x, b.id)
  {
    hide Rank, Find;
  }

  lemma GotIsHung(n: Net, b: Cast)
    requires Symmetric(b) && Rooted(n, b) && n.nodes.Keys == b.links.Keys
    ensures Hung(b.links, b.origin, GotParents(n, b), GotRanks(n, b))
  {
    assert b.origin in n.nodes && Got(n, b, b.origin);
    hide Rank, Find, Got, Parent, Rooted, Symmetric;
    var parent, rank := GotParents(n, b), GotRanks(n, b);
    forall x, y | x in rank && y in rank && rank[x] == rank[y] ensures x == y {
      GotLeadsUp(n, b, x);
      hide *;
      RanksDiffer(n.log, x, y, b.id);
    }
    forall x | x in parent && x != b.origin ensures UpLink(b.links, parent, rank, x) {
      GotLeadsUp(n, b, x);
    }
  }

  // A copy meeting its like on a link would have come round a cycle.
  lemma NothingCrosses(cfg: Settings, n: Net, b: Cast, x: Peer, y: Peer)
    requires Invariant(cfg, n, b) && Acyclic(b.links) && x in b.links && y in b.links[x]
    ensures !Crossed(n, b, x, y)
  {
    hide Rank, Find, Links, Rooted, Got, Parent, Acyclic, Hung, Undirected;
    if Crossed(n, b, x, y) {
      GotIsHung(n, b);
      LinksUndirected(b);
      hide Shape, Symmetric;
      LinkCloses(b.links, b.origin, GotParents(n, b), GotRanks(n, b), x, y);
    }
  }

  lemma LinksUndirected(b: Cast)
    requires Symmetric(b)
    ensures Undirected(b.links)
  {}

  lemma OneApart(g: Graph, rank: map<Peer, nat>, x: Peer, y: Peer)
    requires Undirected(g) && Edge(g, x, y) && x in rank && y in rank
    ensures Stretches(g, rank, [x], [y])
  {}

  lemma LinkCloses(g: Graph, origin: Peer, parent: map<Peer, Peer>, rank: map<Peer, nat>, x: Peer, y: Peer)
    requires Undirected(g) && Hung(g, origin, parent, rank) && Edge(g, x, y) && x in parent && y in parent
    requires parent.Keys == rank.Keys && parent[x] != y && parent[y] != x
    ensures !Acyclic(g)
  {
    hide Cycle, Hung, Stretches;
    OneApart(g, rank, x, y);
    hide Undirected, Edge;
    CrossingMakesCycle(g, origin, parent, rank, [x], [y]);
  }
}
