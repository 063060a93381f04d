/** Undirected graphs as neighbour sets, and when one is a spanning tree. */
module Graphs {
  import opened Types

  type Graph = map<Peer, set<Peer>>

  ghost predicate Edge(g: Graph, x: Peer, y: Peer) {
    x in g && y in g[x]
  }

  // No loops, no dangling links, every link at both ends.
  ghost predicate Undirected(g: Graph) {
    forall x, y :: Edge(g, x, y) ==> x != y && y in g && Edge(g, y, x)
  }

  ghost predicate Path(g: Graph, p: seq<Peer>) {
    && p != [] && p[0] in g
    && forall i, j :: 0 <= i < |p| && j == i + 1 && j < |p| ==> Edge(g, p[i], p[j])
  }

  ghost predicate Reaches(g: Graph, x: Peer, y: Peer) {
    exists p :: Path(g, p) && p[0] == x && p[|p| - 1] == y
  }

  ghost predicate Connected(g: Graph, origin: Peer) {
    forall x :: x in g ==> Reaches(g, origin, x)
  }

  ghost predicate Distinct(c: seq<Peer>) {
    forall i, j :: 0 <= i < j < |c| ==> c[i] != c[j]
  }

  // At least three different nodes, each linked to the next, the last to the first.
  ghost predicate Cycle(g: Graph, c: seq<Peer>) {
    |c| >= 3 && Distinct(c) && Path(g, c) && Edge(g, c[|c| - 1], c[0])
  }

  ghost predicate SpanningTree(g: Graph, origin: Peer) {
    Undirected(g) && Connected(g, origin) && forall c :: !Cycle(g, c)
  }

  // Every link joins a node to its parent; parents rank strictly lower.
  ghost predicate Ranked(g: Graph, origin: Peer, parent: map<Peer, Peer>, rank: map<Peer, nat>) {
    && g.Keys == parent.Keys == rank.Keys
    && origin in g && parent[origin] == origin
    && (forall x :: x in g && x != origin ==> parent[x] in g && Edge(g, parent[x], x) && rank[parent[x]] < rank[x])
    && (forall x, y :: Edge(g, x, y) ==> y in g && (parent[x] == y || parent[y] == x))
  }

  lemma {:induction false} ReachedFromOrigin(
    g: Graph, origin: Peer, parent: map<Peer, Peer>, rank: map<Peer, nat>, x: Peer)
    requires Ranked(g, origin, parent, rank) && x in g
    ensures Reaches(g, origin, x)
    decreases rank[x]
  {
    if x == origin {
      assert Path(g, [x]);
    } else {
      ReachedFromOrigin(g, origin, parent, rank, parent[x]);
      hide Ranked;
      Extend(g, origin, parent[x], x);
    }
  }

  lemma Extend(g: Graph, x: Peer, y: Peer, z: Peer)
    requires Reaches(g, x, y) && Edge(g, y, z)
    ensures Reaches(g, x, z)
  {
    var p :| Path(g, p) && p[0] == x && p[|p| - 1] == y;
    assert Path(g, p + [z]);
  }

  // A path but for its last node, and the link to that.
  lemma Shorter(g: Graph, p: seq<Peer>)
    requires Path(g, p) && |p| > 1
    ensures Path(g, p[..|p| - 1]) && Edge(g, p[|p| - 2], p[|p| - 1])
    ensures p[..|p| - 1][0] == p[0] && p[..|p| - 1][|p| - 2] == p[|p| - 2]
  {}

  lemma {:induction false} Along(g: Graph, x: Peer, p: seq<Peer>)
    requires Path(g, p) && Reaches(g, x, p[0])
    ensures Reaches(g, x, p[|p| - 1])
  {
    var k := |p| - 1;
    if k > 0 {
      Along(g, x, p[..k]);
      assert Edge(g, p[k - 1], p[k]);
      Extend(g, x, p[k - 1], p[k]);
    }
  }

  lemma {:induction false} Back(g: Graph, p: seq<Peer>)
    requires Undirected(g) && Path(g, p)
    ensures Reaches(g, p[|p| - 1], p[0])
  {
    if |p| == 1 {
      assert Path(g, p);
    } else {
      assert Edge(g, p[0], p[1]);
      Back(g, p[1..]);
      Extend(g, p[|p| - 1], p[1], p[0]);
    }
  }

  // Connected from one node, connected from all.
  lemma ConnectedFromAll(g: Graph, root: Peer, x: Peer, y: Peer)
    requires Undirected(g) && Connected(g, root) && x in g && y in g
    ensures Reaches(g, x, y)
  {
    var p :| Path(g, p) && p[0] == root && p[|p| - 1] == x;
    var q :| Path(g, q) && q[0] == root && q[|q| - 1] == y;
    Back(g, p);
    Along(g, x, q);
  }

  // The highest-ranked member of a sequence of nodes.
  lemma {:induction false} Highest(c: seq<Peer>, rank: map<Peer, nat>) returns (k: nat)
    requires c != [] && forall x :: x in c ==> x in rank
    ensures k < |c| && forall i :: 0 <= i < |c| ==> rank[c[i]] <= rank[c[k]]
  {
    var init := c[..|c| - 1];
    assert c == init + [c[|c| - 1]];
    if init == [] {
      k := 0;
    } else {
      k := Highest(init, rank);
      if rank[c[|c| - 1]] > rank[c[k]] {
        k := |c| - 1;
      }
    }
  }

  // Both its neighbours in a cycle would have to be its parent.
  lemma NoCycle(g: Graph, origin: Peer, parent: map<Peer, Peer>, rank: map<Peer, nat>, c: seq<Peer>)
    requires Ranked(g, origin, parent, rank) && Undirected(g)
    ensures !Cycle(g, c)
  {
    if Cycle(g, c) {
      forall x | x in c ensures x in rank {
        var i :| 0 <= i < |c| && c[i] == x;
        if i + 1 < |c| {
          assert Edge(g, c[i], c[i + 1]);
        }
      }
      var k := Highest(c, rank);
      var before, after := if k == 0 then |c| - 1 else k - 1, if k == |c| - 1 then 0 else k + 1;
      assert Edge(g, c[before], c[k]) && Edge(g, c[k], c[after]);
      OnlyUp(g, origin, parent, rank, c[k], c[before]);
      OnlyUp(g, origin, parent, rank, c[k], c[after]);
    }
  }

  lemma OnlyUp(g: Graph, origin: Peer, parent: map<Peer, Peer>, rank: map<Peer, nat>, x: Peer, y: Peer)
    requires Ranked(g, origin, parent, rank) && Undirected(g) && Edge(g, x, y) && rank[y] <= rank[x]
    ensures parent[x] == y
  {}

  lemma RankedIsSpanningTree(g: Graph, origin: Peer, parent: map<Peer, Peer>, rank: map<Peer, nat>)
    requires Ranked(g, origin, parent, rank) && Undirected(g)
    ensures SpanningTree(g, origin)
  {
    forall x | x in g ensures Reaches(g, origin, x) {
      ReachedFromOrigin(g, origin, parent, rank, x);
    }
    forall c ensures !Cycle(g, c) {
      NoCycle(g, origin, parent, rank, c);
    }
  }

  // The links kept out of a larger graph are exactly those to a parent.
  lemma ParentLinksAreSpanningTree(
    links: Graph, g: Graph, origin: Peer, parent: map<Peer, Peer>, rank: map<Peer, nat>)
    requires Undirected(links) && g.Keys == links.Keys == parent.Keys == rank.Keys
    requires origin in g && parent[origin] == origin
    requires forall x, y :: Edge(g, x, y) ==> Edge(links, x, y)
    requires forall x, y :: Edge(links, x, y) ==> (Edge(g, x, y) <==> parent[x] == y || parent[y] == x)
    requires forall x :: x in g && x != origin ==> Edge(links, x, parent[x]) && rank[parent[x]] < rank[x]
    ensures SpanningTree(g, origin)
  {
    assert Undirected(g);
    forall x | x in g && x != origin ensures parent[x] in g && Edge(g, parent[x], x) {
      assert Edge(links, x, parent[x]);
    }
    hide Reaches, Cycle;
    RankedIsSpanningTree(g, origin, parent, rank);
  }
}
