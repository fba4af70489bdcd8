/** Finite graphs over service names, as the service-graph endpoint sees them. */
module Graphs {

  type Node = string

  /** Undirected adjacency: the neighbour set of every node, absent meaning empty. */
  type Adjacency = map<Node, set<Node>>

  function Neighbors(g: Adjacency, u: Node): set<Node> {
    if u in g then g[u] else {}
  }

  ghost function Listed(nodes: seq<Node>): set<Node> {
    set n | n in nodes
  }

  ghost predicate Symmetric(g: Adjacency) {
    forall u, v :: v in Neighbors(g, u) ==> u in Neighbors(g, v)
  }

  /** Every endpoint of every edge is one of `nodes`. */
  ghost predicate Closed(g: Adjacency, nodes: set<Node>) {
    forall u, v :: v in Neighbors(g, u) ==> u in nodes && v in nodes
  }

  ghost predicate IsPath(g: Adjacency, p: seq<Node>) {
    |p| > 0 && forall i | 0 <= i < |p| - 1 :: p[i + 1] in Neighbors(g, p[i])
  }

  ghost predicate PathWithin(g: Adjacency, within: set<Node>, p: seq<Node>, a: Node, b: Node) {
    && IsPath(g, p)
    && p[0] == a
    && p[|p| - 1] == b
    && forall i | 0 <= i < |p| :: p[i] in within
  }

  /** A path from a to b exists that stays inside `within`. */
  ghost predicate Connected(g: Adjacency, within: set<Node>, a: Node, b: Node) {
    exists p :: PathWithin(g, within, p, a, b)
  }

  /** Removing v disconnects two other nodes that the graph connects. */
  ghost predicate Separates(g: Adjacency, nodes: set<Node>, v: Node) {
    exists a, b :: a != v && b != v && Connected(g, nodes, a, b) && !Connected(g, nodes - {v}, a, b)
  }

  lemma ConnectedSelf(g: Adjacency, within: set<Node>, a: Node)
    requires a in within
    ensures Connected(g, within, a, a)
  {
    assert PathWithin(g, within, [a], a, a);
  }

  lemma ConnectedEdge(g: Adjacency, within: set<Node>, a: Node, b: Node)
    requires a in within && b in within && b in Neighbors(g, a)
    ensures Connected(g, within, a, b)
  {
    assert PathWithin(g, within, [a, b], a, b);
  }

  lemma ConnectedTrans(g: Adjacency, within: set<Node>, a: Node, b: Node, c: Node)
    requires Connected(g, within, a, b) && Connected(g, within, b, c)
    ensures Connected(g, within, a, c)
  {
    var p :| PathWithin(g, within, p, a, b);
    var q :| PathWithin(g, within, q, b, c);
    assert PathWithin(g, within, p + q[1..], a, c);
  }

  lemma ConnectedSym(g: Adjacency, within: set<Node>, a: Node, b: Node)
    requires Symmetric(g) && Connected(g, within, a, b)
    ensures Connected(g, within, b, a)
  {
    var p :| PathWithin(g, within, p, a, b);
    var n := |p|;
    var q := seq(n, i requires 0 <= i < n => p[n - 1 - i]);
    forall i | 0 <= i < n - 1 ensures q[i + 1] in Neighbors(g, q[i]) {
      assert p[(n - 2 - i) + 1] in Neighbors(g, p[n - 2 - i]);
    }
    assert PathWithin(g, within, q, b, a);
  }

  lemma ConnectedWider(g: Adjacency, within: set<Node>, wider: set<Node>, a: Node, b: Node)
    requires within <= wider && Connected(g, within, a, b)
    ensures Connected(g, wider, a, b)
  {
    var p :| PathWithin(g, within, p, a, b);
    assert PathWithin(g, wider, p, a, b);
  }

  /** A path that starts in a set closed under edges inside `within` never leaves it. */
  lemma {:induction false} PathStays(g: Adjacency, within: set<Node>, region: set<Node>, p: seq<Node>, k: nat)
    requires IsPath(g, p) && p[0] in region && k < |p|
    requires forall i | 0 <= i < |p| :: p[i] in within
    requires forall u, v | u in region && v in Neighbors(g, u) && v in within :: v in region
    ensures forall i | 0 <= i <= k :: p[i] in region
  {
    if k > 0 {
      PathStays(g, within, region, p, k - 1);
      assert p[k - 1] in region;
      assert p[(k - 1) + 1] in Neighbors(g, p[k - 1]);
    }
  }

  lemma ConnectedStays(g: Adjacency, within: set<Node>, region: set<Node>, a: Node, b: Node)
    requires Connected(g, within, a, b) && a in region
    requires forall u, v | u in region && v in Neighbors(g, u) && v in within :: v in region
    ensures b in region
    ensures Connected(g, within * region, a, b)
  {
    var p :| PathWithin(g, within, p, a, b);
    PathStays(g, within, region, p, |p| - 1);
    assert PathWithin(g, within * region, p, a, b);
  }
}
