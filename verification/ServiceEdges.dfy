/** The cross-service edges of an assembled span tree: one for each way down from a root that ends by changing service. */
module ServiceEdges {
  import opened RepeatedIds
  import opened SpanForest
  import opened SpanTree

  datatype ServiceEdge = ServiceEdge(timestamp: int, caller: string, callee: string, duration: nat, isError: bool, weight: real)

  function EdgeOf(caller: Row, callee: Row, weight: real): ServiceEdge {
    ServiceEdge(callee.start, caller.service, callee.service, callee.duration, callee.status == "error", weight)
  }

  /** The edge is the call from one row's service to another's, as the called row records it. */
  ghost predicate IsCall(caller: Row, callee: Row, edge: ServiceEdge, weight: real) {
    && edge.caller == caller.service && edge.callee == callee.service
    && edge.timestamp == callee.start && edge.duration == callee.duration
    && (edge.isError <==> callee.status == "error") && edge.weight == weight
  }

  lemma EdgeIsCall(caller: Row, callee: Row, weight: real)
    ensures IsCall(caller, callee, EdgeOf(caller, callee, weight), weight)
  {
  }

  // ---- Ways down ----

  /** The row of the node that stands for span i. */
  ghost function NodeRow(spans: seq<Row>, i: nat): Row
    requires i < |spans|
  {
    StandIs(spans, i);
    spans[Stand(spans, i)]
  }

  ghost predicate Listed(spans: seq<Row>, w: seq<nat>) {
    forall k | 0 <= k < |w| :: w[k] < |spans|
  }

  /** The last step of the way changes service. */
  ghost predicate CrossesAt(spans: seq<Row>, w: seq<nat>) {
    && Listed(spans, w) && |w| >= 2
    && NodeRow(spans, w[|w| - 2]).service != NodeRow(spans, w[|w| - 1]).service
  }

  ghost function EdgeAt(spans: seq<Row>, w: seq<nat>, weight: real): ServiceEdge
    requires Listed(spans, w) && |w| >= 2
  {
    EdgeOf(NodeRow(spans, w[|w| - 2]), NodeRow(spans, w[|w| - 1]), weight)
  }

  /** A way down from a root whose last step changes service. */
  ghost predicate Crossing(spans: seq<Row>, w: seq<nat>) {
    RowPath(spans, w) && CrossesAt(spans, w)
  }

  /** The edge is that of the way's last step. */
  ghost predicate Gives(spans: seq<Row>, w: seq<nat>, edge: ServiceEdge, weight: real) {
    Crossing(spans, w) && IsCall(NodeRow(spans, w[|w| - 2]), NodeRow(spans, w[|w| - 1]), edge, weight)
  }

  /** One edge for each of the listed ways, and no way listed twice. */
  ghost predicate Emits(spans: seq<Row>, edges: seq<ServiceEdge>, ways: seq<seq<nat>>, weight: real) {
    && |edges| == |ways|
    && (forall k | 0 <= k < |edges| :: Gives(spans, ways[k], edges[k], weight))
    && (forall k, l | 0 <= k < l < |ways| :: ways[k] != ways[l])
  }

  /** w goes on from q. */
  ghost predicate Beyond(q: seq<nat>, w: seq<nat>) {
    |w| > |q| && w[..|q|] == q
  }

  /** A step of a way hangs below the node of the span before it. */
  lemma StepHangs(spans: seq<Row>, w: seq<nat>, k: nat)
    requires RowPath(spans, w) && 0 < k < |w|
    ensures Hangs(spans, w[k], Stand(spans, w[k - 1]))
  {
    hide Stand;
    StandIs(spans, w[k - 1]);
  }

  lemma PathGoesOn(spans: seq<Row>, q: seq<nat>, r: nat)
    requires RowPath(spans, q) && Hangs(spans, r, Stand(spans, q[|q| - 1]))
    ensures r < |spans| && RowPath(spans, q + [r])
  {
    hide Stand;
    StandIs(spans, q[|q| - 1]);
  }

  lemma EmitsMore(
    spans: seq<Row>, edges: seq<ServiceEdge>, ways: seq<seq<nat>>, more: seq<ServiceEdge>, added: seq<seq<nat>>, weight: real)
    requires Emits(spans, edges, ways, weight) && Emits(spans, more, added, weight)
    requires forall w | w in ways :: w !in added
    ensures Emits(spans, edges + more, ways + added, weight)
  {
    hide Gives;
    forall k, l | 0 <= k < l < |ways + added| ensures (ways + added)[k] != (ways + added)[l] {
      assert k < |ways| <= l ==> ways[k] in ways && added[l - |ways|] in added;
    }
    forall k | 0 <= k < |edges + more|
      ensures Gives(spans, (ways + added)[k], (edges + more)[k], weight)
    {
    }
  }

  lemma EmitsOne(spans: seq<Row>, w: seq<nat>, weight: real)
    requires Crossing(spans, w)
    ensures Emits(spans, [EdgeAt(spans, w, weight)], [w], weight)
  {
    hide EdgeOf, RowPath, NodeRow, IsCall;
    EdgeIsCall(NodeRow(spans, w[|w| - 2]), NodeRow(spans, w[|w| - 1]), weight);
  }

  lemma EmitsNone(spans: seq<Row>, weight: real)
    ensures Emits(spans, [], [], weight)
  {
  }

  /** The ways beyond q: those through q and r, for the rows r that hang below q's node. */
  lemma BeyondByStep(spans: seq<Row>, q: seq<nat>, p: nat, w: seq<nat>)
    requires RowPath(spans, q) && p == Stand(spans, q[|q| - 1]) && RowPath(spans, w) && Beyond(q, w)
    ensures w[|q|] in LinkedRows(spans, p, |spans|)
  {
    hide Stand, LinkedRows;
    RowsBehindKids(spans, p, |spans|);
    assert w[|q| - 1] == q[|q| - 1];
    StepHangs(spans, w, |q|);
  }

  // ---- The recursive walk ----

  /** The ways through q and its child row r that change service last, r's own included. */
  ghost predicate Through(spans: seq<Row>, q: seq<nat>, r: nat, w: seq<nat>) {
    Crossing(spans, w) && |w| > |q| && w[..|q| + 1] == q + [r]
  }

  lemma ThroughSplit(spans: seq<Row>, q: seq<nat>, r: nat, w: seq<nat>)
    ensures Through(spans, q, r, w) <==> Crossing(spans, w) && (w == q + [r] || Beyond(q + [r], w))
  {
    if |w| == |q| + 1 {
      assert w[..|q| + 1] == w;
    }
  }

  /** Exactly one edge for each way through q and r whose last step changes service. */
  ghost predicate EdgesThrough(spans: seq<Row>, q: seq<nat>, r: nat, edges: seq<ServiceEdge>, weight: real) {
    exists ways :: Emits(spans, edges, ways, weight) && forall w :: w in ways <==> Through(spans, q, r, w)
  }

  /** Exactly one edge for each way that goes on from q and whose last step changes service. */
  ghost predicate EdgesBeyond(spans: seq<Row>, q: seq<nat>, edges: seq<ServiceEdge>, weight: real) {
    exists ways :: Emits(spans, edges, ways, weight) && forall w :: w in ways <==> Crossing(spans, w) && Beyond(q, w)
  }

  method WalkChild(spans: seq<Row>, ghost nodes: seq<SpanNode>, n: SpanNode, child: SpanNode,
                   ghost q: seq<nat>, ghost r: nat, ghost fuel: nat, weight: real)
    returns (edges: seq<ServiceEdge>)
    requires Assembled(spans, nodes) && IsNode(nodes, n) && IsNode(nodes, child)
    requires RowPath(spans, q) && Stand(spans, q[|q| - 1]) == n.at
    requires Hangs(spans, r, n.at) && Stand(spans, r) == child.at && EndsAt(spans, child.at, fuel)
    ensures EdgesThrough(spans, q, r, edges, weight)
    decreases fuel, 1
  {
    hide Assembled, Emits, RowPath, EndsAt, Crossing, Stand, LinkedKids, Hangs, Beyond, EdgeAt, Through;
    PathGoesOn(spans, q, r);
    PathListed(spans, q);
    ghost var own := q + [r];
    OwnWay(spans, nodes, n, child, q, r, weight);
    ghost var ways: seq<seq<nat>> := [];
    edges := [];
    EmitsNone(spans, weight);
    if child.span.service != n.span.service {
      edges, ways := [EdgeOf(n.span, child.span, weight)], [own];
      EmitsOne(spans, own, weight);
    }
    assert own[|own| - 1] == r;
    var more := Walk(spans, nodes, child, own, fuel, weight);
    ghost var added :| Emits(spans, more, added, weight) && forall w :: w in added <==> Crossing(spans, w) && Beyond(own, w);
    NotBeyondItself(own);
    EmitsMore(spans, edges, ways, more, added, weight);
    forall w ensures w in ways + added <==> Through(spans, q, r, w) {
      ThroughSplit(spans, q, r, w);
    }
    edges, ways := edges + more, ways + added;
  }

  lemma NotBeyondItself(q: seq<nat>)
    ensures !Beyond(q, q)
  {
  }

  lemma OwnWay(spans: seq<Row>, nodes: seq<SpanNode>, n: SpanNode, child: SpanNode, q: seq<nat>, r: nat, weight: real)
    requires Assembled(spans, nodes) && IsNode(nodes, n) && IsNode(nodes, child) && RowPath(spans, q + [r])
    requires q != [] && Listed(spans, q) && r < |spans|
    requires Stand(spans, q[|q| - 1]) == n.at && Stand(spans, r) == child.at
    ensures Crossing(spans, q + [r]) <==> child.span.service != n.span.service
    ensures Crossing(spans, q + [r]) ==> EdgeAt(spans, q + [r], weight) == EdgeOf(n.span, child.span, weight)
  {
    hide Stand, LinkedUpTo, EdgeOf;
    var w := q + [r];
    assert w[|w| - 2] == q[|q| - 1] && w[|w| - 1] == r;
    assert Listed(spans, w);
  }

  /** The recursive walk: exactly one edge for each way through n that goes on and changes service last. */
  method Walk(spans: seq<Row>, ghost nodes: seq<SpanNode>, n: SpanNode, ghost q: seq<nat>, ghost fuel: nat, weight: real)
    returns (edges: seq<ServiceEdge>)
    requires Assembled(spans, nodes) && IsNode(nodes, n)
    requires RowPath(spans, q) && Stand(spans, q[|q| - 1]) == n.at && EndsAt(spans, n.at, fuel)
    ensures EdgesBeyond(spans, q, edges, weight)
    decreases fuel, 0
  {
    hide Assembled, Emits, RowPath, EndsAt, Crossing, Stand, LinkedKids, Hangs, EdgeAt, Through, LinkedRows;
    ghost var rows := LinkedRows(spans, n.at, |spans|);
    RowsBehindKids(spans, n.at, |spans|);
    ChildrenAre(spans, nodes, n, fuel);
    ghost var ways: seq<seq<nat>> := [];
    edges := [];
    EmitsNone(spans, weight);
    for i := 0 to |n.children|
      invariant Emits(spans, edges, ways, weight)
      invariant forall w :: w in ways <==> ThroughSome(spans, q, rows[..i], w)
    {
      var more := WalkChild(spans, nodes, n, n.children[i], q, rows[i], fuel - 1, weight);
      ghost var added :| Emits(spans, more, added, weight) && forall w :: w in added <==> Through(spans, q, rows[i], w);
      forall w ensures ThroughSome(spans, q, rows[..i + 1], w) <==> ThroughSome(spans, q, rows[..i], w) || Through(spans, q, rows[i], w) {
        OneMoreRow(spans, q, rows, i, w);
      }
      forall w | w in ways ensures w !in added {
        RowsApart(spans, q, rows, i, w);
      }
      EmitsMore(spans, edges, ways, more, added, weight);
      edges, ways := edges + more, ways + added;
    }
    assert rows[..|rows|] == rows;
    forall w ensures ThroughSome(spans, q, rows, w) <==> Crossing(spans, w) && Beyond(q, w) {
      SomeRow(spans, q, n.at, w);
    }
  }

  ghost predicate ThroughSome(spans: seq<Row>, q: seq<nat>, rows: seq<nat>, w: seq<nat>) {
    exists r :: r in rows && Through(spans, q, r, w)
  }

  lemma OneMoreRow(spans: seq<Row>, q: seq<nat>, rows: seq<nat>, i: nat, w: seq<nat>)
    requires i < |rows|
    ensures ThroughSome(spans, q, rows[..i + 1], w) <==> ThroughSome(spans, q, rows[..i], w) || Through(spans, q, rows[i], w)
  {
    hide Through;
    assert rows[..i + 1] == rows[..i] + [rows[i]];
    if ThroughSome(spans, q, rows[..i + 1], w) {
      var r :| r in rows[..i + 1] && Through(spans, q, r, w);
      assert r in rows[..i] || r == rows[i];
    }
    if ThroughSome(spans, q, rows[..i], w) {
      var r :| r in rows[..i] && Through(spans, q, r, w);
      assert r in rows[..i + 1];
    }
    if Through(spans, q, rows[i], w) {
      assert rows[i] in rows[..i + 1];
    }
  }

  lemma RowsApart(spans: seq<Row>, q: seq<nat>, rows: seq<nat>, i: nat, w: seq<nat>)
    requires i < |rows| && Increasing(rows) && ThroughSome(spans, q, rows[..i], w)
    ensures !Through(spans, q, rows[i], w)
  {
    hide Crossing;
    var r :| r in rows[..i] && Through(spans, q, r, w);
    var k :| 0 <= k < i && rows[k] == r;
    assert (q + [r])[|q|] == r && (q + [rows[i]])[|q|] == rows[i];
  }

  lemma SomeRow(spans: seq<Row>, q: seq<nat>, p: nat, w: seq<nat>)
    requires RowPath(spans, q) && p == Stand(spans, q[|q| - 1])
    ensures ThroughSome(spans, q, LinkedRows(spans, p, |spans|), w) <==> Crossing(spans, w) && Beyond(q, w)
  {
    hide CrossesAt, Stand, LinkedRows;
    var rows := LinkedRows(spans, p, |spans|);
    if ThroughSome(spans, q, rows, w) {
      var r :| r in rows && Through(spans, q, r, w);
      assert w[..|q|] == w[..|q| + 1][..|q|] == q;
    }
    if Crossing(spans, w) && Beyond(q, w) {
      BeyondByStep(spans, q, p, w);
      assert w[..|q| + 1] == q + [w[|q|]];
      assert Through(spans, q, w[|q|], w);
    }
  }

  lemma ChildrenAre(spans: seq<Row>, nodes: seq<SpanNode>, n: SpanNode, fuel: nat)
    requires Assembled(spans, nodes) && IsNode(nodes, n) && EndsAt(spans, n.at, fuel)
    ensures fuel > 0 && |n.children| == |LinkedKids(spans, n.at, |spans|)|
    ensures forall k | 0 <= k < |n.children| ::
              && IsNode(nodes, n.children[k]) && n.children[k].at == LinkedKids(spans, n.at, |spans|)[k]
              && EndsAt(spans, n.children[k].at, fuel - 1)
  {
    hide LinkedKids;
    NodeKids(spans, nodes, n);
    assert KidsLinked(spans, nodes, n.at, |spans|);
    forall k | 0 <= k < |n.children|
      ensures n.children[k].at == LinkedKids(spans, n.at, |spans|)[k] && EndsAt(spans, n.children[k].at, fuel - 1)
    {
      assert Ats(n.children)[k] == n.children[k].at;
      assert LinkedKids(spans, n.at, |spans|)[k] in LinkedKids(spans, n.at, |spans|);
    }
  }

  // ---- All roots ----

  /** Exactly one edge per way down from a root whose last step changes service. */
  ghost predicate CrossServiceEdges(spans: seq<Row>, edges: seq<ServiceEdge>, weight: real) {
    exists ways :: Emits(spans, edges, ways, weight) && forall w :: w in ways <==> Crossing(spans, w)
  }

  ghost predicate FromSome(spans: seq<Row>, rows: seq<nat>, w: seq<nat>) {
    Crossing(spans, w) && w != [] && w[0] in rows
  }

  /** ExtractServiceEdges, on any spans whose walk ends. */
  method ExtractServiceEdges(spans: seq<Row>, ghost nodes: seq<SpanNode>, roots: seq<SpanNode>, weight: real)
    returns (edges: seq<ServiceEdge>)
    requires Assembled(spans, nodes) && WalkEnds(spans)
    requires Ats(roots) == LinkedRoots(spans, |spans|) && forall r | r in roots :: IsNode(nodes, r)
    ensures CrossServiceEdges(spans, edges, weight)
  {
    hide Assembled, Emits, RowPath, EndsAt, Crossing, Stand, LinkedRoots, Roots, EdgeAt, Beyond;
    ghost var rows := Roots(spans, |spans|);
    ghost var fuel: nat :| AllEnd(spans, fuel);
    RowsBehindRoots(spans, |spans|);
    RootsAre(spans, |spans|);
    edges := [];
    ghost var ways: seq<seq<nat>> := [];
    EmitsNone(spans, weight);
    for i := 0 to |roots|
      invariant Emits(spans, edges, ways, weight)
      invariant forall w :: w in ways <==> FromSome(spans, rows[..i], w)
    {
      RootStarts(spans, roots, i);
      var more := Walk(spans, nodes, roots[i], [rows[i]], fuel, weight);
      ghost var added :|
        Emits(spans, more, added, weight) && forall w :: w in added <==> Crossing(spans, w) && Beyond([rows[i]], w);
      forall w ensures FromSome(spans, rows[..i + 1], w) <==> FromSome(spans, rows[..i], w) || (Crossing(spans, w) && Beyond([rows[i]], w)) {
        OneMoreRoot(spans, rows, i, w);
      }
      forall w | w in ways ensures w !in added {
        RootsApart(spans, rows, i, w);
      }
      EmitsMore(spans, edges, ways, more, added, weight);
      edges, ways := edges + more, ways + added;
    }
    assert rows[..|rows|] == rows;
    forall w ensures FromSome(spans, rows, w) <==> Crossing(spans, w) {
      FromARoot(spans, w);
    }
  }

  lemma RootStarts(spans: seq<Row>, roots: seq<SpanNode>, i: nat)
    requires Ats(roots) == LinkedRoots(spans, |spans|) && i < |roots|
    ensures i < |Roots(spans, |spans|)|
    ensures var r := Roots(spans, |spans|)[i];
            RowPath(spans, [r]) && Stand(spans, r) == roots[i].at && roots[i].at in LinkedRoots(spans, |spans|) && roots[i] in roots
  {
    hide Stand, LinkedRoots, Roots;
    RowsBehindRoots(spans, |spans|);
    RootsAre(spans, |spans|);
    var r := Roots(spans, |spans|)[i];
    assert Ats(roots)[i] == roots[i].at && r in Roots(spans, |spans|);
    assert LinkedRoots(spans, |spans|)[i] in LinkedRoots(spans, |spans|);
  }

  lemma OneMoreRoot(spans: seq<Row>, rows: seq<nat>, i: nat, w: seq<nat>)
    requires i < |rows|
    ensures FromSome(spans, rows[..i + 1], w) <==> FromSome(spans, rows[..i], w) || (Crossing(spans, w) && Beyond([rows[i]], w))
  {
    hide RowPath;
    assert rows[..i + 1] == rows[..i] + [rows[i]];
    assert w != [] ==> w[..1] == [w[0]];
  }

  lemma RootsApart(spans: seq<Row>, rows: seq<nat>, i: nat, w: seq<nat>)
    requires i < |rows| && Increasing(rows) && FromSome(spans, rows[..i], w)
    ensures !Beyond([rows[i]], w)
  {
    hide Crossing;
    var k :| 0 <= k < i && rows[k] == w[0];
    assert w[..1][0] == w[0];
  }

  lemma FromARoot(spans: seq<Row>, w: seq<nat>)
    ensures FromSome(spans, Roots(spans, |spans|), w) <==> Crossing(spans, w)
  {
    hide Roots, CrossesAt;
    RootsAre(spans, |spans|);
  }

  // ---- In a forest: one edge per reachable span called from another service ----

  /** j names a parent that is there and belongs to another service. */
  ghost predicate CalledAcross(spans: seq<Row>, j: nat) {
    && j < |spans| && spans[j].parent != 0 && LastWith(spans, spans[j].parent, |spans|) < |spans|
    && spans[LastWith(spans, spans[j].parent, |spans|)].service != NodeRow(spans, j).service
  }

  /** edge is that of the step from the node of j's parent to j's own. */
  ghost predicate EdgeInto(spans: seq<Row>, j: nat, edge: ServiceEdge, weight: real) {
    && CalledAcross(spans, j)
    && IsCall(spans[LastWith(spans, spans[j].parent, |spans|)], NodeRow(spans, j), edge, weight)
  }

  ghost predicate OneEdgeEach(spans: seq<Row>, edges: seq<ServiceEdge>, callees: seq<nat>, weight: real) {
    && |edges| == |callees|
    && (forall k | 0 <= k < |edges| :: EdgeInto(spans, callees[k], edges[k], weight))
    && (forall k, l | 0 <= k < l < |callees| :: callees[k] != callees[l])
    && (forall j :: j in callees <==> Reachable(spans, j) && CalledAcross(spans, j))
  }

  /** Where a way leads. */
  ghost function Last(w: seq<nat>): nat
    requires w != []
  {
    w[|w| - 1]
  }

  lemma {:induction false} PathHasDepth(spans: seq<Row>, q: seq<nat>)
    requires RowPath(spans, q)
    ensures Depth(spans, q[|q| - 1], |q| - 1)
    decreases |q|
  {
    var m := |q| - 1;
    if m > 0 {
      Shortened(spans, q);
      assert q[..m][m - 1] == q[m - 1];
      PathHasDepth(spans, q[..m]);
      assert IsChild(spans, q[m], q[m - 1]);
    }
  }

  lemma {:induction false} DepthHangs(spans: seq<Row>, i: nat, d: nat)
    requires Depth(spans, i, d)
    ensures Hanging(spans, i) && IdReachable(spans, spans[i].id)
    decreases d
  {
    if d == 0 {
      assert IdUnder(spans, spans[i].id, spans[i].id, 0);
    } else {
      var p: nat :| IsChild(spans, i, p) && Depth(spans, p, d - 1);
      DepthHangs(spans, p, d - 1);
      OneBelow(spans, i);
    }
  }

  /** Reachable spans are those that hang from a root. */
  lemma ReachableHangs(spans: seq<Row>, i: nat)
    ensures Reachable(spans, i) <==> Hanging(spans, i)
  {
    if Reachable(spans, i) {
      var d: nat :| Depth(spans, i, d);
      DepthHangs(spans, i, d);
    }
    if Hanging(spans, i) {
      var q := PathTo(spans, i);
      PathHasDepth(spans, q);
    }
  }

  /** A way changes service last exactly if the span it leads to is called across services. */
  lemma CrossingIsCalled(spans: seq<Row>, w: seq<nat>)
    requires RowPath(spans, w)
    ensures CrossesAt(spans, w) <==> CalledAcross(spans, Last(w))
    ensures CrossesAt(spans, w) ==>
              NodeRow(spans, w[|w| - 2]) == spans[LastWith(spans, spans[Last(w)].parent, |spans|)]
  {
    hide LastWith;
    var m := |w| - 1;
    if m > 0 {
      assert spans[w[m]].parent == spans[w[m - 1]].id;
      StandIs(spans, w[m - 1]);
    }
  }

  lemma SameEnd(spans: seq<Row>, v: seq<nat>, w: seq<nat>)
    requires HangingIdsDistinct(spans) && RowPath(spans, v) && RowPath(spans, w) && Last(v) == Last(w)
    ensures v == w
  {
    OneWay(spans, v, w, spans[Last(v)].id);
  }

  lemma WayTo(spans: seq<Row>, j: nat) returns (w: seq<nat>)
    requires Reachable(spans, j) && CalledAcross(spans, j)
    ensures Crossing(spans, w) && Last(w) == j
  {
    hide RowPath, CalledAcross, CrossesAt;
    ReachableHangs(spans, j);
    w := PathTo(spans, j);
    PathListed(spans, w);
    CrossingIsCalled(spans, w);
  }

  lemma PathListed(spans: seq<Row>, w: seq<nat>)
    requires RowPath(spans, w)
    ensures w != [] && Listed(spans, w)
  {
  }

  lemma WayReaches(spans: seq<Row>, w: seq<nat>)
    requires Crossing(spans, w)
    ensures w != [] && Reachable(spans, Last(w)) && CalledAcross(spans, Last(w))
  {
    hide CalledAcross, CrossesAt;
    CrossingIsCalled(spans, w);
    PathHasDepth(spans, w);
  }

  ghost function Lasts(ways: seq<seq<nat>>): (js: seq<nat>)
    requires forall k | 0 <= k < |ways| :: ways[k] != []
  {
    seq(|ways|, k requires 0 <= k < |ways| => Last(ways[k]))
  }

  lemma GivesInto(spans: seq<Row>, w: seq<nat>, edge: ServiceEdge, weight: real)
    requires Gives(spans, w, edge, weight)
    ensures w != [] && RowPath(spans, w) && Reachable(spans, Last(w)) && EdgeInto(spans, Last(w), edge, weight)
  {
    hide LastWith, RowPath, NodeRow, IsCall, CrossesAt, Reachable, CalledAcross;
    PathListed(spans, w);
    WayReaches(spans, w);
    CrossingIsCalled(spans, w);
    CalledListed(spans, Last(w));
    CrossesListed(spans, w);
  }

  lemma CalledListed(spans: seq<Row>, j: nat)
    requires CalledAcross(spans, j)
    ensures j < |spans| && LastWith(spans, spans[j].parent, |spans|) < |spans|
  {
  }

  lemma CrossesListed(spans: seq<Row>, w: seq<nat>)
    requires CrossesAt(spans, w)
    ensures Listed(spans, w) && |w| >= 2
  {
  }

  lemma EmittedInto(spans: seq<Row>, edges: seq<ServiceEdge>, ways: seq<seq<nat>>, weight: real)
    requires Emits(spans, edges, ways, weight)
    ensures forall k | 0 <= k < |edges| ::
              && ways[k] != [] && RowPath(spans, ways[k]) && Reachable(spans, Last(ways[k]))
              && EdgeInto(spans, Last(ways[k]), edges[k], weight)
  {
    hide Gives, RowPath, Reachable, EdgeInto;
    forall k | 0 <= k < |edges|
      ensures && ways[k] != [] && RowPath(spans, ways[k]) && Reachable(spans, Last(ways[k]))
              && EdgeInto(spans, Last(ways[k]), edges[k], weight)
    {
      GivesInto(spans, ways[k], edges[k], weight);
    }
  }

  lemma LastsDiffer(spans: seq<Row>, ways: seq<seq<nat>>)
    requires HangingIdsDistinct(spans) && forall k, l | 0 <= k < l < |ways| :: ways[k] != ways[l]
    requires forall k | 0 <= k < |ways| :: ways[k] != [] && RowPath(spans, ways[k])
    ensures forall k, l | 0 <= k < l < |ways| :: Lasts(ways)[k] != Lasts(ways)[l]
  {
    hide RowPath, HangingIdsDistinct;
    forall k, l | 0 <= k < l < |ways| ensures Lasts(ways)[k] != Lasts(ways)[l] {
      if Last(ways[k]) == Last(ways[l]) {
        SameEnd(spans, ways[k], ways[l]);
      }
    }
  }

  lemma LastsAll(spans: seq<Row>, ways: seq<seq<nat>>, j: nat)
    requires forall k | 0 <= k < |ways| :: ways[k] != []
    requires forall w :: w in ways <==> Crossing(spans, w)
    ensures j in Lasts(ways) <==> Reachable(spans, j) && CalledAcross(spans, j)
  {
    hide Crossing, Reachable, CalledAcross;
    if j in Lasts(ways) {
      var k :| 0 <= k < |ways| && Lasts(ways)[k] == j;
      assert ways[k] in ways;
      WayReaches(spans, ways[k]);
    }
    if Reachable(spans, j) && CalledAcross(spans, j) {
      var w := WayTo(spans, j);
      var k :| 0 <= k < |ways| && ways[k] == w;
      assert Lasts(ways)[k] == j;
    }
  }

  // If no two spans hanging from the roots share an id, there is exactly one edge per reachable span called from another
  // service.
  lemma ForestEdges(spans: seq<Row>, edges: seq<ServiceEdge>, weight: real) returns (callees: seq<nat>)
    requires HangingIdsDistinct(spans) && CrossServiceEdges(spans, edges, weight)
    ensures OneEdgeEach(spans, edges, callees, weight)
  {
    hide Crossing, CalledAcross, RowPath, HangingIdsDistinct, Reachable, EdgeInto, Gives, Last;
    var ways :| Emits(spans, edges, ways, weight) && forall w :: w in ways <==> Crossing(spans, w);
    EmittedInto(spans, edges, ways, weight);
    callees := Lasts(ways);
    LastsDiffer(spans, ways);
    forall j ensures j in callees <==> Reachable(spans, j) && CalledAcross(spans, j) {
      LastsAll(spans, ways, j);
    }
  }

  /** With distinct ids every span stands for itself and none shares its id. */
  lemma DistinctIsForest(spans: seq<Row>)
    requires DistinctIds(spans)
    ensures HangingIdsDistinct(spans) && WalkEnds(spans) && forall i | 0 <= i < |spans| :: NodeRow(spans, i) == spans[i]
  {
    hide WalkEnds, Forest, LastWith;
    ForestExactly(spans);
    ForestsEnd(spans);
    forall i | 0 <= i < |spans| ensures NodeRow(spans, i) == spans[i] {
      StandIs(spans, i);
    }
  }
}
