/** The service-graph endpoint's derived facts: call cycles, cut vertices and criticality of the aggregated edges. */
module ServiceGraph {
  import opened Graphs
  import Cycles
  import CutVertices
  import Sorting

  /** One aggregated caller -> callee observation. */
  datatype EdgeStat = EdgeStat(caller: Node, callee: Node, calls: real)

  /** Some row has these two services as its ends, in either direction. */
  ghost predicate Linked(edges: seq<EdgeStat>, a: Node, b: Node) {
    exists e :: e in edges && ((e.caller == a && e.callee == b) || (e.caller == b && e.callee == a))
  }

  ghost predicate CallsTo(edges: seq<EdgeStat>, a: Node, b: Node) {
    exists e :: e in edges && e.caller == a && e.callee == b
  }

  ghost predicate Endpoint(edges: seq<EdgeStat>, n: Node) {
    exists e :: e in edges && (e.caller == n || e.callee == n)
  }

  ghost predicate Called(edges: seq<EdgeStat>, n: Node) {
    exists e :: e in edges && e.callee == n
  }

  /** Call volume flowing into n. */
  function CallsInto(edges: seq<EdgeStat>, n: Node): real {
    if edges == [] then 0.0
    else CallsInto(edges[..|edges| - 1], n) + (if edges[|edges| - 1].callee == n then edges[|edges| - 1].calls else 0.0)
  }

  /** The callees of each caller, in the order of the rows. */
  function CallsOf(edges: seq<EdgeStat>): Cycles.Calls {
    if edges == [] then map[]
    else
      var before, e := CallsOf(edges[..|edges| - 1]), edges[|edges| - 1];
      before[e.caller := Cycles.Callees(before, e.caller) + [e.callee]]
  }

  function TotalCalls(edges: seq<EdgeStat>): real {
    if edges == [] then 0.0
    else TotalCalls(edges[..|edges| - 1]) + edges[|edges| - 1].calls
  }

  /** The directed and undirected adjacency of the rows read so far. */
  ghost predicate Reads(edges: seq<EdgeStat>, nodes: set<Node>, directed: Cycles.Calls, undirected: Adjacency) {
    && (forall n :: n in nodes <==> Endpoint(edges, n))
    && (forall a, b :: Cycles.HasCall(directed, a, b) <==> CallsTo(edges, a, b))
    && (forall a, b :: b in Neighbors(undirected, a) <==> Linked(edges, a, b))
  }

  function AddNeighbor(g: Adjacency, a: Node, b: Node): Adjacency {
    g[a := Neighbors(g, a) + {b}]
  }

  lemma ReadsOneMore(edges: seq<EdgeStat>, e: EdgeStat, nodes: set<Node>, directed: Cycles.Calls, undirected: Adjacency)
    requires Reads(edges, nodes, directed, undirected)
    ensures Reads(edges + [e], nodes + {e.caller, e.callee},
                  directed[e.caller := Cycles.Callees(directed, e.caller) + [e.callee]],
                  AddNeighbor(AddNeighbor(undirected, e.caller, e.callee), e.callee, e.caller))
  {
    var more := edges + [e];
    assert forall x :: x in more <==> x in edges || x == e;
    var d := directed[e.caller := Cycles.Callees(directed, e.caller) + [e.callee]];
    forall a, b ensures Cycles.HasCall(d, a, b) <==> Cycles.HasCall(directed, a, b) || (a == e.caller && b == e.callee) {}
    var u := AddNeighbor(AddNeighbor(undirected, e.caller, e.callee), e.callee, e.caller);
    forall a, b
      ensures b in Neighbors(u, a) <==>
              b in Neighbors(undirected, a) || (a == e.caller && b == e.callee) || (a == e.callee && b == e.caller)
    {}
    forall a, b ensures Linked(more, a, b) <==>
                        Linked(edges, a, b) || (a == e.caller && b == e.callee) || (a == e.callee && b == e.caller)
    {}
    forall a, b ensures CallsTo(more, a, b) <==> CallsTo(edges, a, b) || (a == e.caller && b == e.callee) {}
    forall n ensures Endpoint(more, n) <==> Endpoint(edges, n) || n == e.caller || n == e.callee {}
  }

  datatype Graph = Graph(
    nodes: seq<Node>,
    cycles: seq<seq<Node>>,
    criticality: map<Node, real>,
    cutVertices: set<Node>)

  /** A cycle of calls among the rows. */
  ghost predicate CallCycle(edges: seq<EdgeStat>, k: seq<Node>) {
    && |k| > 0
    && (forall i | 0 <= i < |k| - 1 :: CallsTo(edges, k[i], k[i + 1]))
    && CallsTo(edges, k[|k| - 1], k[0])
  }

  /** A route between two services along rows read in either direction, avoiding `without`. */
  ghost predicate Route(edges: seq<EdgeStat>, without: set<Node>, p: seq<Node>, a: Node, b: Node) {
    && |p| > 0 && p[0] == a && p[|p| - 1] == b
    && (forall i | 0 <= i < |p| - 1 :: Linked(edges, p[i], p[i + 1]))
    && (forall i | 0 <= i < |p| :: Endpoint(edges, p[i]) && p[i] !in without)
  }

  ghost predicate Routed(edges: seq<EdgeStat>, without: set<Node>, a: Node, b: Node) {
    exists p :: Route(edges, without, p, a, b)
  }

  /** Removing v cuts off from each other two other services that the rows connect. */
  ghost predicate SinglePointOfFailure(edges: seq<EdgeStat>, v: Node) {
    exists a, b :: a != v && b != v && Routed(edges, {}, a, b) && !Routed(edges, {v}, a, b)
  }

  lemma RoutesArePaths(edges: seq<EdgeStat>, g: Adjacency, nodes: set<Node>, without: set<Node>, a: Node, b: Node)
    requires forall x, y :: y in Neighbors(g, x) <==> Linked(edges, x, y)
    requires forall n :: n in nodes <==> Endpoint(edges, n)
    ensures Connected(g, nodes - without, a, b) <==> Routed(edges, without, a, b)
  {
    hide Linked, Endpoint, Neighbors;
    if Connected(g, nodes - without, a, b) {
      var p :| PathWithin(g, nodes - without, p, a, b);
      forall i | 0 <= i < |p| ensures Endpoint(edges, p[i]) && p[i] !in without {
        assert p[i] in nodes - without;
      }
      assert Route(edges, without, p, a, b);
    }
    if p :| Route(edges, without, p, a, b) {
      forall i | 0 <= i < |p| ensures p[i] in nodes - without {
        assert Endpoint(edges, p[i]);
      }
      assert PathWithin(g, nodes - without, p, a, b);
    }
  }

  lemma SeparatesIsFailure(edges: seq<EdgeStat>, g: Adjacency, nodes: set<Node>, v: Node)
    requires forall x, y :: y in Neighbors(g, x) <==> Linked(edges, x, y)
    requires forall n :: n in nodes <==> Endpoint(edges, n)
    ensures Separates(g, nodes, v) <==> SinglePointOfFailure(edges, v)
  {
    hide Connected, Routed, Linked, Endpoint, Neighbors;
    assert nodes - {} == nodes;
    forall a, b
      ensures Connected(g, nodes, a, b) <==> Routed(edges, {}, a, b)
      ensures Connected(g, nodes - {v}, a, b) <==> Routed(edges, {v}, a, b)
    {
      assert nodes - {} == nodes;
      RoutesArePaths(edges, g, nodes, {}, a, b);
      RoutesArePaths(edges, g, nodes, {v}, a, b);
    }
  }

  lemma CyclesAgree(edges: seq<EdgeStat>, g: Cycles.Calls, k: seq<Node>)
    requires forall a, b :: Cycles.HasCall(g, a, b) <==> CallsTo(edges, a, b)
    ensures Cycles.DirectedCycle(g, k) <==> CallCycle(edges, k)
  {
    hide Cycles.HasCall, CallsTo;
  }

  lemma UndirectedIsSound(edges: seq<EdgeStat>, g: Adjacency, nodes: set<Node>)
    requires forall x, y :: y in Neighbors(g, x) <==> Linked(edges, x, y)
    requires forall n :: n in nodes <==> Endpoint(edges, n)
    ensures Symmetric(g) && Closed(g, nodes)
  {
  }

  /** The service list is the set of row ends in ascending order, so it does not depend on how the set is walked. */
  method NodeList(nodeSet: set<Node>) returns (q: seq<Node>)
    ensures Listed(q) == nodeSet && Cycles.Distinct(q) && Sorting.Ascending(q)
  {
    q := [];
    var rest := nodeSet;
    while rest != {}
      invariant rest <= nodeSet && Listed(q) == nodeSet - rest && Cycles.Distinct(q)
      decreases rest
    {
      var n :| n in rest;
      assert n !in Listed(q);
      assert Listed(q + [n]) == Listed(q) + {n};
      q := q + [n];
      rest := rest - {n};
    }
    SortedList(q);
    q := Sorting.SortStrings(q);
  }

  lemma SortedList(q: seq<Node>)
    requires Cycles.Distinct(q)
    ensures var r := Sorting.SortStrings(q);
            Listed(r) == Listed(q) && Sorting.Ascending(r) && Cycles.Distinct(r)
  {
    hide Sorting.SortStrings, Sorting.AtMost;
    Sorting.SortedAscending(q);
    Sorting.SortedStringsSame(q);
    var r := Sorting.SortStrings(q);
    assert forall x :: x in Listed(q) <==> x in q;
    assert forall x :: x in Listed(r) <==> x in r;
  }

  // ---- Criticality: shares of the total call volume ----

  function SumInto(edges: seq<EdgeStat>, q: seq<Node>): real {
    if q == [] then 0.0 else SumInto(edges, q[..|q| - 1]) + CallsInto(edges, q[|q| - 1])
  }

  /** One more row adds its calls once to every list that names its callee once. */
  lemma {:induction false} SumIntoStep(edges: seq<EdgeStat>, q: seq<Node>)
    requires edges != [] && Cycles.Distinct(q)
    ensures SumInto(edges, q) ==
            SumInto(edges[..|edges| - 1], q)
            + (if edges[|edges| - 1].callee in q then edges[|edges| - 1].calls else 0.0)
  {
    if q != [] {
      var n := q[|q| - 1];
      SumIntoStep(edges, q[..|q| - 1]);
      assert q == q[..|q| - 1] + [n];
      assert edges[|edges| - 1].callee in q <==>
             edges[|edges| - 1].callee in q[..|q| - 1] || edges[|edges| - 1].callee == n;
      assert n !in q[..|q| - 1];
    }
  }

  /** Volume is conserved: what flows into all services together is everything the rows carry. */
  lemma {:induction false} VolumeConserved(edges: seq<EdgeStat>, q: seq<Node>)
    requires Cycles.Distinct(q) && forall e | e in edges :: e.callee in q
    ensures SumInto(edges, q) == TotalCalls(edges)
  {
    if edges == [] {
      NothingFlows(q);
    } else {
      SumIntoStep(edges, q);
      VolumeConserved(edges[..|edges| - 1], q);
    }
  }

  lemma {:induction false} NothingFlows(q: seq<Node>)
    ensures SumInto([], q) == 0.0
  {
    if q != [] {
      NothingFlows(q[..|q| - 1]);
    }
  }

  /** Each service's share of the total, undivided when there is no volume at all. */
  ghost predicate Shares(edges: seq<EdgeStat>, criticality: map<Node, real>) {
    && (forall n :: n in criticality <==> Called(edges, n))
    && forall n | n in criticality ::
         criticality[n] * (if TotalCalls(edges) > 0.0 then TotalCalls(edges) else 1.0) == CallsInto(edges, n)
  }

  method Normalize(raw: map<Node, real>, totalCalls: real) returns (criticality: map<Node, real>)
    ensures criticality.Keys == raw.Keys
    ensures forall n | n in raw :: criticality[n] * (if totalCalls > 0.0 then totalCalls else 1.0) == raw[n]
  {
    criticality := raw;
    if totalCalls > 0.0 {
      criticality := map n | n in raw :: raw[n] / totalCalls;
    }
  }

  /** Reading the rows: the two adjacencies, the node set, and the volume into every callee. */
  method ReadRows(edges: seq<EdgeStat>)
    returns (nodes: set<Node>, directed: Cycles.Calls, undirected: Adjacency, volume: map<Node, real>, totalCalls: real)
    ensures Reads(edges, nodes, directed, undirected) && directed == CallsOf(edges)
    ensures totalCalls == TotalCalls(edges)
    ensures forall n :: n in volume <==> Called(edges, n)
    ensures forall n | n in volume :: volume[n] == CallsInto(edges, n)
  {
    hide Reads, Cycles.Callees, CallsOf, CallsInto, TotalCalls, Called, AddNeighbor;
    nodes, directed, undirected, volume, totalCalls := {}, map[], map[], map[], 0.0;
    NothingRead();
    assert edges[..0] == [];
    for i := 0 to |edges|
      invariant Reads(edges[..i], nodes, directed, undirected) && directed == CallsOf(edges[..i])
      invariant totalCalls == TotalCalls(edges[..i])
      invariant forall n :: n in volume <==> Called(edges[..i], n)
      invariant forall n :: CallsInto(edges[..i], n) == if n in volume then volume[n] else 0.0
    {
      var e := edges[i];
      assert edges[..i + 1] == edges[..i] + [e];
      ReadsOneMore(edges[..i], e, nodes, directed, undirected);
      OneMoreRow(edges[..i], e);
      nodes := nodes + {e.caller, e.callee};
      directed := directed[e.caller := Cycles.Callees(directed, e.caller) + [e.callee]];
      undirected := AddNeighbor(AddNeighbor(undirected, e.caller, e.callee), e.callee, e.caller);
      volume := volume[e.callee := (if e.callee in volume then volume[e.callee] else 0.0) + e.calls];
      totalCalls := totalCalls + e.calls;
    }
    assert edges[..|edges|] == edges;
  }

  lemma NothingRead()
    ensures Reads([], {}, map[], map[]) && CallsOf([]) == map[] && TotalCalls([]) == 0.0
    ensures forall n :: CallsInto([], n) == 0.0 && !Called([], n)
  {
  }

  lemma OneMoreRow(edges: seq<EdgeStat>, e: EdgeStat)
    ensures TotalCalls(edges + [e]) == TotalCalls(edges) + e.calls
    ensures CallsOf(edges + [e]) == CallsOf(edges)[e.caller := Cycles.Callees(CallsOf(edges), e.caller) + [e.callee]]
    ensures forall n :: CallsInto(edges + [e], n) == CallsInto(edges, n) + if e.callee == n then e.calls else 0.0
    ensures forall n :: Called(edges + [e], n) <==> n == e.callee || Called(edges, n)
  {
    assert (edges + [e])[..|edges|] == edges;
    forall n ensures Called(edges + [e], n) <==> n == e.callee || Called(edges, n) {
      assert e in edges + [e];
      assert forall x | x in edges :: x in edges + [e];
    }
  }

  /** An edge of the cycle closes a reported one. */
  ghost predicate MeetsReport(cycles: seq<seq<Node>>, k: seq<Node>) {
    exists i :: 0 <= i < |k| && Cycles.Reported(cycles, k[i], Cycles.After(k, i))
  }

  /** The answer the endpoint gives about a list of rows. */
  ghost predicate Describes(g: Graph, edges: seq<EdgeStat>) {
    && (forall n :: n in g.nodes <==> Endpoint(edges, n)) && Sorting.Ascending(g.nodes)
    && (forall c | c in g.cycles :: CallCycle(edges, c) && Cycles.Distinct(c))
    && (forall k | CallCycle(edges, k) :: MeetsReport(g.cycles, k))
    && (g.cycles == [] <==> !exists k :: CallCycle(edges, k))
    && g.cycles == Cycles.CyclesOf(g.nodes, CallsOf(edges))
    && (forall v :: v in g.cutVertices <==> Endpoint(edges, v) && SinglePointOfFailure(edges, v))
    && Shares(edges, g.criticality)
    && SumInto(edges, g.nodes) == TotalCalls(edges)
  }

  lemma CutsAgree(edges: seq<EdgeStat>, g: Adjacency, nodes: seq<Node>, isCut: set<Node>)
    requires forall x, y :: y in Neighbors(g, x) <==> Linked(edges, x, y)
    requires forall n :: n in Listed(nodes) <==> Endpoint(edges, n)
    requires forall u :: u in isCut <==> u in nodes && Separates(g, Listed(nodes), u)
    ensures forall v :: v in isCut <==> Endpoint(edges, v) && SinglePointOfFailure(edges, v)
  {
    hide Separates, SinglePointOfFailure, Neighbors, Linked, Endpoint;
    forall v ensures v in isCut <==> Endpoint(edges, v) && SinglePointOfFailure(edges, v) {
      SeparatesIsFailure(edges, g, Listed(nodes), v);
      assert v in nodes <==> v in Listed(nodes);
    }
  }

  lemma CalleesListed(edges: seq<EdgeStat>, nodes: seq<Node>)
    requires forall n :: n in Listed(nodes) <==> Endpoint(edges, n)
    ensures forall n :: n in nodes <==> Endpoint(edges, n)
    ensures forall e | e in edges :: e.callee in nodes
  {
    assert forall n :: n in nodes <==> n in Listed(nodes);
    forall e | e in edges ensures e.callee in nodes {
      assert Endpoint(edges, e.callee);
    }
  }

  /** The whole analysis, stated on the rows themselves. */
  method BuildServiceGraph(edges: seq<EdgeStat>) returns (g: Graph)
    ensures Describes(g, edges)
  {
    hide Cycles.DirectedCycle, Cycles.HasCall, CallCycle, Separates, SinglePointOfFailure, Cycles.Genuine, Cycles.Covers,
         Symmetric, Closed, Neighbors, Linked, CallsTo, SumInto, CallsInto, TotalCalls, Endpoint, Called, Listed, Cycles.Distinct,
         Sorting.Ascending, MeetsReport, CallsOf, Cycles.CyclesOf;
    var nodeSet, directed, undirected, volume, total := ReadRows(edges);
    var nodes := NodeList(nodeSet);
    UndirectedIsSound(edges, undirected, nodeSet);
    var criticality := Normalize(volume, total);
    var cycles := Cycles.FindCycles(nodes, directed);
    var cuts := CutVertices.ArticulationPoints(nodes, undirected);
    g := Graph(nodes, cycles, criticality, cuts);
    CutsAgree(edges, undirected, nodes, cuts);
    ReportAgrees(edges, nodes, directed, cycles);
    EveryCallCycleMeets(edges, nodes, directed, cycles);
    CalleesListed(edges, nodes);
    VolumeConserved(edges, nodes);
  }

  lemma ReportAgrees(edges: seq<EdgeStat>, nodes: seq<Node>, directed: Cycles.Calls, cycles: seq<seq<Node>>)
    requires Cycles.Genuine(directed, cycles) && Cycles.Covers(nodes, directed, cycles)
    requires forall a, b :: Cycles.HasCall(directed, a, b) <==> CallsTo(edges, a, b)
    requires forall n :: n in Listed(nodes) <==> Endpoint(edges, n)
    ensures forall c | c in cycles :: CallCycle(edges, c) && Cycles.Distinct(c)
    ensures cycles == [] <==> !exists k :: CallCycle(edges, k)
  {
    forall k ensures Cycles.DirectedCycle(directed, k) <==> CallCycle(edges, k) {
      CyclesAgree(edges, directed, k);
    }
    forall u, v | Cycles.HasCall(directed, u, v) ensures u in nodes {
      assert CallsTo(edges, u, v);
      assert u in Listed(nodes);
    }
    Cycles.EmptyIffAcyclic(nodes, directed, cycles);
  }

  lemma EveryCallCycleMeets(edges: seq<EdgeStat>, nodes: seq<Node>, directed: Cycles.Calls, cycles: seq<seq<Node>>)
    requires Cycles.Covers(nodes, directed, cycles)
    requires forall a, b :: Cycles.HasCall(directed, a, b) <==> CallsTo(edges, a, b)
    requires forall n :: n in Listed(nodes) <==> Endpoint(edges, n)
    ensures forall k | CallCycle(edges, k) :: MeetsReport(cycles, k)
  {
    hide Cycles.Reported, Cycles.DirectedCycle, Cycles.HasCall, Cycles.After;
    forall k | CallCycle(edges, k) ensures MeetsReport(cycles, k) {
      CyclesAgree(edges, directed, k);
      assert Endpoint(edges, k[0]);
      assert k[0] in Listed(nodes);
    }
  }

  /** Two answers about the same rows, in any order and any multiplicity, list the same services in the same order. */
  lemma NodesDetermined(g: Graph, h: Graph, edges: seq<EdgeStat>, rows: seq<EdgeStat>)
    requires Describes(g, edges) && Describes(h, rows) && forall e :: e in edges <==> e in rows
    ensures g.nodes == h.nodes && g.cutVertices == h.cutVertices && (g.cycles == [] <==> h.cycles == [])
  {
    hide Shares, SumInto, TotalCalls, Sorting.Ascending, MeetsReport;
    forall n ensures Endpoint(edges, n) <==> Endpoint(rows, n) {}
    forall a, b ensures Linked(edges, a, b) <==> Linked(rows, a, b) {}
    forall a, b ensures CallsTo(edges, a, b) <==> CallsTo(rows, a, b) {}
    Sorting.AscendingUnique(g.nodes, h.nodes);
    forall k ensures CallCycle(edges, k) <==> CallCycle(rows, k) {}
    forall w, p, a, b ensures Route(edges, w, p, a, b) <==> Route(rows, w, p, a, b) {}
    forall v ensures SinglePointOfFailure(edges, v) <==> SinglePointOfFailure(rows, v) {
      FailuresSame(edges, rows, v);
    }
    assert g.cutVertices == h.cutVertices;
  }

  lemma FailuresSame(edges: seq<EdgeStat>, rows: seq<EdgeStat>, v: Node)
    requires forall w, p, a, b :: Route(edges, w, p, a, b) <==> Route(rows, w, p, a, b)
    ensures SinglePointOfFailure(edges, v) <==> SinglePointOfFailure(rows, v)
  {
    hide Route;
    forall w, a, b ensures Routed(edges, w, a, b) <==> Routed(rows, w, a, b) {
    }
  }

  // ---- The order of the rows does not matter ----

  lemma {:induction false} Joined(x: seq<EdgeStat>, y: seq<EdgeStat>, n: Node)
    ensures Cycles.Callees(CallsOf(x + y), n) == Cycles.Callees(CallsOf(x), n) + Cycles.Callees(CallsOf(y), n)
    ensures CallsInto(x + y, n) == CallsInto(x, n) + CallsInto(y, n)
    ensures TotalCalls(x + y) == TotalCalls(x) + TotalCalls(y)
  {
    if y == [] {
      assert x + y == x;
    } else {
      var m := |y| - 1;
      Joined(x, y[..m], n);
      assert (x + y)[..|x + y| - 1] == x + y[..m] && (x + y)[|x + y| - 1] == y[m];
    }
  }

  lemma LastOut<T>(p: seq<T>)
    requires p != []
    ensures p == p[..|p| - 1] + [p[|p| - 1]] && multiset(p[..|p| - 1]) == multiset(p) - multiset{p[|p| - 1]}
  {
    assert p == p[..|p| - 1] + [p[|p| - 1]];
  }

  lemma OneOut<T>(q: seq<T>, k: nat)
    requires k < |q|
    ensures q == q[..k] + ([q[k]] + q[k + 1..]) && multiset(q[..k] + q[k + 1..]) == multiset(q) - multiset{q[k]}
  {
    assert q == q[..k] + ([q[k]] + q[k + 1..]);
    assert multiset(q) == multiset(q[..k]) + (multiset{q[k]} + multiset(q[k + 1..]));
  }

  lemma WithoutOne<T>(p: seq<T>, q: seq<T>, k: nat)
    requires p != [] && k < |q| && q[k] == p[|p| - 1] && multiset(p) == multiset(q)
    ensures multiset(p[..|p| - 1]) == multiset(q[..k] + q[k + 1..])
    ensures p == p[..|p| - 1] + [q[k]] && q == q[..k] + ([q[k]] + q[k + 1..])
  {
    LastOut(p);
    OneOut(q, k);
  }

  /** Rows that are the same up to order have the same callees up to order, and the same volumes. */
  lemma {:induction false} Rearranged(edges: seq<EdgeStat>, rows: seq<EdgeStat>, n: Node)
    requires multiset(edges) == multiset(rows)
    ensures multiset(Cycles.Callees(CallsOf(edges), n)) == multiset(Cycles.Callees(CallsOf(rows), n))
    ensures CallsInto(edges, n) == CallsInto(rows, n) && TotalCalls(edges) == TotalCalls(rows)
  {
    hide CallsOf, CallsInto, TotalCalls, Cycles.Callees;
    if edges != [] {
      var m := |edges| - 1;
      var e := edges[m];
      assert e in multiset(rows);
      var k :| 0 <= k < |rows| && rows[k] == e;
      var x, y := rows[..k], rows[k + 1..];
      WithoutOne(edges, rows, k);
      Rearranged(edges[..m], x + y, n);
      Joined(edges[..m], [e], n);
      Joined(x, y, n);
      Joined(x, [e] + y, n);
      Joined([e], y, n);
    }
  }

  /** The map of the rows relates their ends and nothing else. */
  lemma {:induction false} CallsOfEnds(edges: seq<EdgeStat>, nodes: seq<Node>)
    requires forall e | e in edges :: e.caller in nodes && e.callee in nodes
    ensures Cycles.AllNodes(nodes, CallsOf(edges)) == Listed(nodes)
  {
    if edges != [] {
      CallsOfEnds(edges[..|edges| - 1], nodes);
      var g, d := CallsOf(edges[..|edges| - 1]), CallsOf(edges);
      var e := edges[|edges| - 1];
      assert e.caller in Listed(nodes) && e.callee in Listed(nodes);
      forall u | u in g ensures u in Listed(nodes) {
        assert u in Cycles.AllNodes(nodes, g);
      }
      forall u, v | u in g && v in g[u] ensures v in Listed(nodes) {
        assert v in Cycles.AllNodes(nodes, g);
      }
      forall u, v | u in d && v in d[u] ensures v in Listed(nodes) {
        assert v == e.callee || (u in g && v in g[u]);
      }
    }
  }

  lemma EndsListed(edges: seq<EdgeStat>, nodes: seq<Node>)
    requires forall n :: n in nodes <==> Endpoint(edges, n)
    ensures forall e | e in edges :: e.caller in nodes && e.callee in nodes
  {
    forall e | e in edges ensures e.caller in nodes && e.callee in nodes {
      assert Endpoint(edges, e.caller) && Endpoint(edges, e.callee);
    }
  }

  lemma SameSearch(edges: seq<EdgeStat>, rows: seq<EdgeStat>, nodes: seq<Node>)
    requires multiset(edges) == multiset(rows)
    requires forall n :: n in nodes <==> Endpoint(edges, n)
    requires forall n :: n in nodes <==> Endpoint(rows, n)
    ensures Cycles.CyclesOf(nodes, CallsOf(edges)) == Cycles.CyclesOf(nodes, CallsOf(rows))
  {
    hide CallsOf, Endpoint, Cycles.Callees, Cycles.AllNodes, Cycles.Walked, CallsInto, TotalCalls;
    EndsListed(edges, nodes);
    EndsListed(rows, nodes);
    CallsOfEnds(edges, nodes);
    CallsOfEnds(rows, nodes);
    var all := Listed(nodes);
    forall u | u in all
      ensures Sorting.SortStrings(Cycles.Callees(CallsOf(edges), u)) == Sorting.SortStrings(Cycles.Callees(CallsOf(rows), u))
    {
      Rearranged(edges, rows, u);
      Sorting.SortedAlike(Cycles.Callees(CallsOf(edges), u), Cycles.Callees(CallsOf(rows), u));
    }
    assert Cycles.SortedCalls(all, CallsOf(edges)) == Cycles.SortedCalls(all, CallsOf(rows));
  }

  lemma SameQuotient(c: real, d: real, t: real)
    requires t != 0.0 && c * t == d * t
    ensures c == d
  {
  }

  lemma SharesDetermined(edges: seq<EdgeStat>, rows: seq<EdgeStat>, c: map<Node, real>, d: map<Node, real>)
    requires multiset(edges) == multiset(rows) && Shares(edges, c) && Shares(rows, d)
    requires forall n :: Called(edges, n) <==> Called(rows, n)
    ensures c == d
  {
    hide CallsInto, TotalCalls, Called;
    forall n | n in c ensures n in d && c[n] == d[n] {
      Rearranged(edges, rows, n);
      SameQuotient(c[n], d[n], if TotalCalls(edges) > 0.0 then TotalCalls(edges) else 1.0);
    }
  }

  /** The rows come back in no particular order: every list of the same rows gets the same answer, cycles and all. */
  lemma AnswerDetermined(g: Graph, h: Graph, edges: seq<EdgeStat>, rows: seq<EdgeStat>)
    requires Describes(g, edges) && Describes(h, rows) && multiset(edges) == multiset(rows)
    ensures g == h
  {
    hide Shares, SumInto, TotalCalls, Sorting.Ascending, MeetsReport, CallCycle, Cycles.CyclesOf, CallsOf, Endpoint,
         SinglePointOfFailure, Called, Cycles.Distinct;
    forall e ensures e in edges <==> e in rows {
      assert e in multiset(edges) <==> e in multiset(rows);
    }
    NodesDetermined(g, h, edges, rows);
    SameSearch(edges, rows, g.nodes);
    CalledSame(edges, rows);
    SharesDetermined(edges, rows, g.criticality, h.criticality);
  }

  lemma CalledSame(edges: seq<EdgeStat>, rows: seq<EdgeStat>)
    requires forall e :: e in edges <==> e in rows
    ensures forall n :: Called(edges, n) <==> Called(rows, n)
  {
  }
}
