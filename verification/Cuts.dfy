/** Splitting a graph: a branch of one tree, none of whose other links are kept. */
module Cuts {
  import opened Types
  import opened Graphs
  import opened Cycles

  // No link between the two sides, and somebody on either.
  ghost predicate Split(g: Graph, side: set<Peer>) {
    && side != {} && side < g.Keys
    && forall u, v :: Edge(g, u, v) ==> (u in side <==> v in side)
  }

  lemma {:induction false} StaysOnSide(g: Graph, side: set<Peer>, p: seq<Peer>)
    requires Split(g, side) && Path(g, p)
    ensures p[0] in side <==> p[|p| - 1] in side
  {
    if |p| > 1 {
      Shorter(g, p);
      StaysOnSide(g, side, p[..|p| - 1]);
    }
  }

  lemma SplitDisconnects(g: Graph, side: set<Peer>, root: Peer)
    requires Split(g, side)
    ensures !Connected(g, root)
  {
    var x :| x in side;
    var y :| y in g.Keys && y !in side;
    var other := if root in side then y else x;
    forall p | Path(g, p) && p[0] == root ensures p[|p| - 1] != other {
      StaysOnSide(g, side, p);
    }
    assert other in g;
  }

  // The first link of a path that leaves a set.
  lemma {:induction false} Frontier(g: Graph, p: seq<Peer>, s: set<Peer>) returns (u: Peer, v: Peer)
    requires Path(g, p) && p[0] in s && p[|p| - 1] !in s
    ensures Edge(g, u, v) && u in s && v !in s
  {
    Shorter(g, p);
    if p[|p| - 2] in s {
      u, v := p[|p| - 2], p[|p| - 1];
    } else {
      u, v := Frontier(g, p[..|p| - 1], s);
    }
  }

  // -- Branches ------------------------------------------------------------------------------

  // Going up from u one comes to y.
  ghost predicate Under(parent: map<Peer, Peer>, rank: map<Peer, nat>, origin: Peer, y: Peer, u: Peer)
    decreases if u in rank then rank[u] else 0
  {
    || u == y
    || (u != origin && u in parent && u in rank && parent[u] in rank && rank[parent[u]] < rank[u]
        && Under(parent, rank, origin, y, parent[u]))
  }

  ghost function Branch(parent: map<Peer, Peer>, rank: map<Peer, nat>, origin: Peer, y: Peer): set<Peer> {
    set u | u in parent && Under(parent, rank, origin, y, u)
  }

  // If only links to parents are left, and not the one y hung by, y's branch is cut off.
  lemma BranchIsCut(
    links: Graph, g: Graph, origin: Peer, parent: map<Peer, Peer>, rank: map<Peer, nat>, y: Peer)
    requires Hung(links, origin, parent, rank) && g.Keys == parent.Keys
    requires y in parent && y != origin && parent[y] == origin
    requires forall u, v :: Edge(g, u, v) ==> v in parent && (parent[u] == v || parent[v] == u)
    requires !Edge(g, origin, y) && !Edge(g, y, origin)
    requires parent[origin] == origin
    ensures Split(g, Branch(parent, rank, origin, y))
  {
    var side := Branch(parent, rank, origin, y);
    assert y in side && origin !in side;
    forall u, v | Edge(g, u, v) ensures u in side <==> v in side {
      if parent[u] == v {
        OneUp(links, origin, parent, rank, y, u);
      } else {
        OneUp(links, origin, parent, rank, y, v);
      }
    }
  }

  lemma OneUp(links: Graph, origin: Peer, parent: map<Peer, Peer>, rank: map<Peer, nat>, y: Peer, u: Peer)
    requires Hung(links, origin, parent, rank) && u in parent && u != y
    ensures u != origin ==>
      (Under(parent, rank, origin, y, u) <==> Under(parent, rank, origin, y, parent[u]))
  {
    if u != origin {
      assert UpLink(links, parent, rank, u);
    }
  }
}
