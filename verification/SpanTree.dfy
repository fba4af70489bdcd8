/** The assembled span tree as linked nodes: building it, repeated ids or not, and its critical path. */
module SpanTree {
  import opened CriticalChains
  import opened RepeatedIds
  import opened SpanForest

  class SpanNode {
    const span: Row
    var children: seq<SpanNode>
    ghost const at: nat

    constructor (span: Row, ghost at: nat)
      ensures this.span == span && this.at == at && children == []
    {
      this.span, this.at, children := span, at, [];
    }
  }

  /** Which spans a list of nodes stands for. */
  ghost function Ats(q: seq<SpanNode>): seq<nat> {
    seq(|q|, k requires 0 <= k < |q| => q[k].at)
  }

  ghost predicate IsNode(nodes: seq<SpanNode>, n: SpanNode) {
    n.at < |nodes| && nodes[n.at] == n
  }

  /** The nodes of the first spans, one each. */
  ghost predicate Noded(spans: seq<Row>, nodes: seq<SpanNode>) {
    |nodes| <= |spans| && forall i | 0 <= i < |nodes| :: nodes[i].span == spans[i] && nodes[i].at == i
  }

  /** Node p's children are the nodes of what hangs below p among the first n spans, in order. */
  ghost predicate KidsLinked(spans: seq<Row>, nodes: seq<SpanNode>, p: nat, n: nat)
    requires p < |nodes| && n <= |spans|
    reads nodes[p]
  {
    Ats(nodes[p].children) == LinkedKids(spans, p, n) && forall c | c in nodes[p].children :: IsNode(nodes, c)
  }

  ghost predicate LinkedUpTo(spans: seq<Row>, nodes: seq<SpanNode>, n: nat)
    requires n <= |spans|
    reads nodes
  {
    forall p | 0 <= p < |nodes| :: KidsLinked(spans, nodes, p, n)
  }

  /** What BuildTree leaves behind, repeated ids or not. */
  ghost predicate Assembled(spans: seq<Row>, nodes: seq<SpanNode>)
    reads nodes
  {
    |nodes| == |spans| && Noded(spans, nodes) && LinkedUpTo(spans, nodes, |spans|)
  }

  /** With distinct ids: node p's children are the nodes of the spans naming p as parent. */
  ghost predicate Built(spans: seq<Row>, nodes: seq<SpanNode>)
    reads nodes
  {
    && |nodes| == |spans| && Noded(spans, nodes)
    && forall p | 0 <= p < |nodes| ::
         Ats(nodes[p].children) == Kids(spans, p, |spans|) && forall c | c in nodes[p].children :: IsNode(nodes, c)
  }

  lemma DistinctAssembled(spans: seq<Row>, nodes: seq<SpanNode>)
    requires Assembled(spans, nodes) && DistinctIds(spans)
    ensures Built(spans, nodes) && LinkedRoots(spans, |spans|) == Roots(spans, |spans|)
  {
    hide Kids, LinkedKids, LinkedRoots, Roots, DistinctIds;
    DistinctLinks(spans, 0, |spans|);
    forall p | 0 <= p < |nodes|
      ensures Ats(nodes[p].children) == Kids(spans, p, |spans|) && forall c | c in nodes[p].children :: IsNode(nodes, c)
    {
      assert KidsLinked(spans, nodes, p, |spans|);
      DistinctLinks(spans, p, |spans|);
    }
  }

  /** The id map after the first n spans: each id's last node so far. */
  ghost predicate ById(spans: seq<Row>, nodes: seq<SpanNode>, byId: map<nat, SpanNode>, n: nat)
    requires n <= |spans|
  {
    forall id :: (id in byId <==> LastWith(spans, id, n) < |nodes|)
              && (id in byId ==> byId[id] == nodes[LastWith(spans, id, n)])
  }

  method IndexSpans(spans: seq<Row>) returns (byId: map<nat, SpanNode>, ghost nodes: seq<SpanNode>)
    ensures |nodes| == |spans| && Noded(spans, nodes) && ById(spans, nodes, byId, |spans|) && fresh(nodes)
    ensures forall n | n in nodes :: n.children == []
  {
    byId, nodes := map[], [];
    for i := 0 to |spans|
      invariant |nodes| == i && Noded(spans, nodes) && ById(spans, nodes, byId, i) && fresh(nodes)
      invariant forall n | n in nodes :: n.children == []
    {
      var node := new SpanNode(spans[i], i);
      forall id ensures LastWith(spans, id, i) < i <==> LastWith(spans, id, i) < |spans| {
        LastIs(spans, id, i);
      }
      byId := byId[spans[i].id := node];
      nodes := nodes + [node];
    }
  }

  lemma LastLinked(spans: seq<Row>, p: nat, i: nat)
    requires i < |spans|
    ensures LinkedKids(spans, p, i + 1) == LinkedKids(spans, p, i) + (if Hangs(spans, i, p) then [Stand(spans, i)] else [])
  {
  }

  /** Attach span i's node below its parent's node. */
  method Attach(spans: seq<Row>, ghost nodes: seq<SpanNode>, ghost i: nat, node: SpanNode, ghost p: nat, parent: SpanNode)
    requires i < |spans| == |nodes| && Noded(spans, nodes) && LinkedUpTo(spans, nodes, i)
    requires Hangs(spans, i, p) && Stand(spans, i) < |nodes| && nodes[Stand(spans, i)] == node && nodes[p] == parent
    modifies parent`children
    ensures LinkedUpTo(spans, nodes, i + 1)
  {
    hide LinkedKids, Stand, Hangs, IsChild;
    parent.children := parent.children + [node];
    ghost var next := i + 1;
    HangsInside(spans, i, p);
    forall q | 0 <= q < |nodes| ensures KidsLinked(spans, nodes, q, next) {
      LastLinked(spans, q, i);
      assert old(KidsLinked(spans, nodes, q, i));
      if q != p {
        HangsOnce(spans, i, p, q);
        assert nodes[q] != parent && LinkedKids(spans, q, i) + [] == LinkedKids(spans, q, i);
      }
    }
  }

  lemma HangsInside(spans: seq<Row>, i: nat, p: nat)
    requires Hangs(spans, i, p)
    ensures i < |spans| && p < |spans|
  {
  }

  /** A span hangs below one node only. */
  lemma HangsOnce(spans: seq<Row>, i: nat, p: nat, q: nat)
    requires Hangs(spans, i, p) && q != p
    ensures !Hangs(spans, i, q)
  {
  }

  lemma NotAttached(spans: seq<Row>, nodes: seq<SpanNode>, i: nat)
    requires i < |spans| && LinkedUpTo(spans, nodes, i) && forall p :: !Hangs(spans, i, p)
    ensures LinkedUpTo(spans, nodes, i + 1)
  {
    hide LinkedKids, Hangs, Stand;
    var next := i + 1;
    forall q | 0 <= q < |nodes| ensures KidsLinked(spans, nodes, q, next) {
      LastLinked(spans, q, i);
      assert KidsLinked(spans, nodes, q, i);
      assert LinkedKids(spans, q, i) + [] == LinkedKids(spans, q, i);
    }
  }

  ghost predicate RowsFor(spans: seq<Row>, q: seq<nat>, rows: seq<Row>) {
    |rows| == |q| && forall k | 0 <= k < |q| :: q[k] < |spans| && rows[k] == spans[q[k]]
  }

  // The two loops of BuildTree, on any spans: an id's last span stands for all with that id, and each span adds one link
  // or root for it.
  method LinkSpans(spans: seq<Row>) returns (roots: seq<SpanNode>, orphans: seq<Row>, ghost nodes: seq<SpanNode>)
    ensures Assembled(spans, nodes) && fresh(nodes)
    ensures Ats(roots) == LinkedRoots(spans, |spans|) && forall r | r in roots :: IsNode(nodes, r)
    ensures RowsFor(spans, Orphans(spans, |spans|), orphans)
    ensures DistinctIds(spans) ==> Built(spans, nodes) && Ats(roots) == Roots(spans, |spans|)
  {
    hide LinkedUpTo, LinkedKids, Hangs, Stand, DistinctIds, Built, Roots;
    var byId;
    byId, nodes := IndexSpans(spans);
    roots, orphans := [], [];
    NothingLinked(spans, nodes);
    for i := 0 to |spans|
      invariant fresh(nodes) && LinkedUpTo(spans, nodes, i)
      invariant Ats(roots) == LinkedRoots(spans, i) && forall r | r in roots :: IsNode(nodes, r)
      invariant RowsFor(spans, Orphans(spans, i), orphans)
    {
      Found(spans, nodes, byId, i);
      var node := byId[spans[i].id];
      var parentId := spans[i].parent;
      if parentId == 0 {
        roots := roots + [node];
        NotAttached(spans, nodes, i);
      } else if parentId !in byId {
        orphans := orphans + [spans[i]];
        NotAttached(spans, nodes, i);
      } else {
        Attach(spans, nodes, i, node, byId[parentId].at, byId[parentId]);
      }
    }
    if DistinctIds(spans) {
      DistinctAssembled(spans, nodes);
    }
  }

  /** Looking span i and its parent up by id. */
  lemma Found(spans: seq<Row>, nodes: seq<SpanNode>, byId: map<nat, SpanNode>, i: nat)
    requires |nodes| == |spans| && Noded(spans, nodes) && ById(spans, nodes, byId, |spans|) && i < |spans|
    ensures Stand(spans, i) < |spans| && spans[i].id in byId && byId[spans[i].id] == nodes[Stand(spans, i)]
    ensures spans[i].parent == 0 || spans[i].parent !in byId ==> forall p :: !Hangs(spans, i, p)
    ensures spans[i].parent != 0 ==> (spans[i].parent !in byId <==> IsOrphan(spans, i))
    ensures spans[i].parent != 0 && spans[i].parent in byId ==>
              IsNode(nodes, byId[spans[i].parent]) && Hangs(spans, i, byId[spans[i].parent].at)
  {
    hide LastWith;
    LastIs(spans, spans[i].id, |spans|);
    LastIs(spans, spans[i].parent, |spans|);
  }

  lemma NothingLinked(spans: seq<Row>, nodes: seq<SpanNode>)
    requires forall n | n in nodes :: n.children == []
    ensures LinkedUpTo(spans, nodes, 0)
  {
    forall p | 0 <= p < |nodes| ensures KidsLinked(spans, nodes, p, 0) {
      assert nodes[p] in nodes;
    }
  }

  // ---- The critical path ----

  lemma NodeKids(spans: seq<Row>, nodes: seq<SpanNode>, n: SpanNode)
    requires Assembled(spans, nodes) && IsNode(nodes, n)
    ensures n.at < |spans| && n.span == spans[n.at] && Ats(n.children) == KidsOf(spans, n.at)
    ensures forall j | 0 <= j < |n.children| ::
              IsNode(nodes, n.children[j]) && n.children[j].at < |spans| && n.children[j].span == spans[n.children[j].at]
  {
    hide LinkedKids;
    assert KidsLinked(spans, nodes, n.at, |spans|);
    forall j | 0 <= j < |n.children| ensures IsNode(nodes, n.children[j]) {
      assert n.children[j] in n.children;
    }
  }

  method LatestChild(spans: seq<Row>, ghost nodes: seq<SpanNode>, n: SpanNode) returns (next: SpanNode)
    requires Assembled(spans, nodes) && IsNode(nodes, n) && n.children != []
    ensures !Leaf(spans, n.at) && IsNode(nodes, next) && next.at == Next(spans, n.at)
  {
    hide Assembled, KidsOf;
    NodeKids(spans, nodes, n);
    ghost var kids := KidsOf(spans, n.at);
    assert forall j | 0 <= j < |kids| :: kids[j] == n.children[j].at;
    next := n.children[0];
    var latestEnd := End(next.span);
    ghost var at := 0;
    for i := 1 to |n.children|
      invariant at < i && n.children[at] == next && latestEnd == End(next.span)
      invariant forall j | 0 <= j < at :: End(n.children[j].span) < latestEnd
      invariant forall j | at <= j < i :: End(n.children[j].span) <= latestEnd
    {
      var c := n.children[i];
      if End(c.span) > latestEnd {
        next, latestEnd, at := c, End(c.span), i;
      }
    }
    assert FirstLatest(spans, kids, at);
    NextOnly(spans, n.at, next.at);
  }

  /** The rows of the chain from p: each node's latest-ending child in turn, down to a node without children. */
  ghost predicate CriticalChainOf(spans: seq<Row>, p: nat, chain: seq<Row>) {
    && chain != [] && Running(spans, p, |chain| - 1) && Leaf(spans, Nth(spans, p, |chain| - 1))
    && forall k | 0 <= k < |chain| :: Nth(spans, p, k) < |spans| && chain[k] == spans[Nth(spans, p, k)]
  }

  /** criticalChain, from any node whose chain ends. */
  method CriticalChain(spans: seq<Row>, ghost nodes: seq<SpanNode>, n: SpanNode) returns (chain: seq<Row>)
    requires Assembled(spans, nodes) && IsNode(nodes, n) && ChainEnds(spans, n.at)
    ensures CriticalChainOf(spans, n.at, chain)
  {
    hide Assembled, Leaf, Next, Nth;
    NodeKids(spans, nodes, n);
    ghost var last: nat :| Leaf(spans, Nth(spans, n.at, last));
    ChainStarts(spans, n.at);
    chain := [n.span];
    var cur := n;
    while |cur.children| > 0
      invariant IsNode(nodes, cur) && chain != [] && cur.at == Nth(spans, n.at, |chain| - 1)
      invariant Running(spans, n.at, |chain| - 1) && |chain| - 1 <= last
      invariant forall k | 0 <= k < |chain| :: Nth(spans, n.at, k) < |spans| && chain[k] == spans[Nth(spans, n.at, k)]
      decreases last - |chain|
    {
      NodeKids(spans, nodes, cur);
      var next := LatestChild(spans, nodes, cur);
      NodeKids(spans, nodes, next);
      ChainGoesOn(spans, n.at, |chain| - 1, last);
      chain, cur := chain + [next.span], next;
    }
    NodeKids(spans, nodes, cur);
    ChildlessIsLeaf(spans, cur);
  }

  lemma ChainStarts(spans: seq<Row>, p: nat)
    ensures Nth(spans, p, 0) == p
  {
  }

  lemma ChainGoesOn(spans: seq<Row>, p: nat, k: nat, last: nat)
    requires !Leaf(spans, Nth(spans, p, k)) && Leaf(spans, Nth(spans, p, last)) && k <= last
    ensures k < last && Nth(spans, p, k + 1) == Next(spans, Nth(spans, p, k))
  {
    hide Leaf, Next;
  }

  lemma ChildlessIsLeaf(spans: seq<Row>, n: SpanNode)
    requires n.children == [] && Ats(n.children) == KidsOf(spans, n.at)
    ensures Leaf(spans, n.at)
  {
  }

  function TotalDuration(chain: seq<Row>): nat {
    if chain == [] then 0 else TotalDuration(chain[..|chain| - 1]) + chain[|chain| - 1].duration
  }

  method SumDurations(chain: seq<Row>) returns (total: nat)
    ensures total == TotalDuration(chain)
  {
    total := 0;
    for i := 0 to |chain|
      invariant total == TotalDuration(chain[..i])
    {
      assert chain[..i + 1][..i] == chain[..i];
      total := total + chain[i].duration;
    }
    assert chain[..|chain|] == chain;
  }

  /** The best is some root's critical chain, no root's is longer, and the first such root wins. */
  ghost predicate LongestOf(chains: seq<seq<Row>>, best: seq<Row>, bestNs: nat) {
    && bestNs == TotalDuration(best)
    && (forall c | c in chains :: TotalDuration(c) <= bestNs)
    && (if bestNs == 0 then best == []
        else exists k :: 0 <= k < |chains| && chains[k] == best && forall j | 0 <= j < k :: TotalDuration(chains[j]) < bestNs)
  }

  ghost predicate ChainsOf(spans: seq<Row>, starts: seq<nat>, chains: seq<seq<Row>>) {
    |chains| == |starts| && forall k | 0 <= k < |starts| :: CriticalChainOf(spans, starts[k], chains[k])
  }

  ghost predicate CriticalPathOf(spans: seq<Row>, starts: seq<nat>, best: seq<Row>, bestNs: nat) {
    exists chains :: ChainsOf(spans, starts, chains) && LongestOf(chains, best, bestNs)
  }

  method ComputeCriticalPath(spans: seq<Row>, ghost nodes: seq<SpanNode>, roots: seq<SpanNode>)
    returns (best: seq<Row>, bestNs: nat)
    requires Assembled(spans, nodes)
    requires forall r | r in roots :: IsNode(nodes, r) && ChainEnds(spans, r.at)
    ensures CriticalPathOf(spans, Ats(roots), best, bestNs)
  {
    hide Assembled, ChainEnds, CriticalChainOf, TotalDuration;
    best, bestNs := [], 0;
    ghost var chains: seq<seq<Row>> := [];
    NoDuration();
    for i := 0 to |roots|
      invariant |chains| == i && forall k | 0 <= k < i :: CriticalChainOf(spans, roots[k].at, chains[k])
      invariant LongestOf(chains, best, bestNs)
    {
      var chain := CriticalChain(spans, nodes, roots[i]);
      var total := SumDurations(chain);
      chains := chains + [chain];
      if total > bestNs {
        bestNs, best := total, chain;
        assert chains[i] == best;
      }
    }
    assert ChainsOf(spans, Ats(roots), chains);
  }

  lemma NoDuration()
    ensures TotalDuration([]) == 0
  {
  }

  // BuildTree: link the spans, then compute the critical path. It returns exactly on the spans it is given here; on any
  // others some root's chain never ends.
  method BuildTree(spans: seq<Row>)
    returns (roots: seq<SpanNode>, orphans: seq<Row>, path: seq<Row>, pathNs: nat, ghost nodes: seq<SpanNode>)
    requires AllChainsEnd(spans)
    ensures Assembled(spans, nodes) && fresh(nodes)
    ensures Ats(roots) == LinkedRoots(spans, |spans|) && forall r | r in roots :: IsNode(nodes, r)
    ensures RowsFor(spans, Orphans(spans, |spans|), orphans)
    ensures CriticalPathOf(spans, LinkedRoots(spans, |spans|), path, pathNs)
  {
    hide Assembled, ChainEnds, LinkedRoots, Orphans, CriticalPathOf;
    roots, orphans, nodes := LinkSpans(spans);
    forall r | r in roots ensures ChainEnds(spans, r.at) {
      var k :| 0 <= k < |roots| && roots[k] == r;
      assert Ats(roots)[k] == r.at;
    }
    path, pathNs := ComputeCriticalPath(spans, nodes, roots);
  }
}
