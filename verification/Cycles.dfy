/** Directed cycles by white/gray/black depth-first search. */
module Cycles {
  import opened Graphs
  import Sorting

  /** Directed adjacency; a callee may be listed more than once. */
  type Calls = map<Node, seq<Node>>

  function Callees(g: Calls, u: Node): seq<Node> {
    if u in g then g[u] else []
  }

  ghost predicate HasCall(g: Calls, u: Node, v: Node) {
    v in Callees(g, u)
  }

  /** Consecutive nodes call one another. */
  ghost predicate Chain(g: Calls, p: seq<Node>) {
    forall i | 0 <= i < |p| - 1 :: HasCall(g, p[i], p[i + 1])
  }

  ghost predicate Distinct(p: seq<Node>) {
    forall i, j | 0 <= i < j < |p| :: p[i] != p[j]
  }

  ghost predicate DirectedCycle(g: Calls, c: seq<Node>) {
    |c| > 0 && Chain(g, c) && HasCall(g, c[|c| - 1], c[0])
  }

  /** c is reported for the edge u -> v that closes it. */
  ghost predicate ClosedBy(c: seq<Node>, u: Node, v: Node) {
    |c| > 0 && c[0] == v && c[|c| - 1] == u
  }

  ghost predicate Reported(cycles: seq<seq<Node>>, u: Node, v: Node) {
    exists c :: c in cycles && ClosedBy(c, u, v)
  }

  // ---- What a finished search says about the graph ----

  /** Every edge out of a finished node either closes a reported cycle or leads to a node finished earlier. */
  ghost predicate EdgeSettled(fin: map<Node, nat>, cycles: seq<seq<Node>>, u: Node, v: Node) {
    Reported(cycles, u, v) || (u in fin && v in fin && fin[v] < fin[u])
  }

  ghost predicate Complete(g: Calls, fin: map<Node, nat>, cycles: seq<seq<Node>>) {
    forall u, v | u in fin && HasCall(g, u, v) :: v in fin && EdgeSettled(fin, cycles, u, v)
  }

  /** The i-th edge of a cycle. */
  function After(k: seq<Node>, i: nat): Node
    requires i < |k|
  {
    if i + 1 == |k| then k[0] else k[i + 1]
  }

  /** From a finished node of k onwards, up to its end, every node of k is finished. */
  lemma {:induction false} FinishedOnwards(g: Calls, fin: map<Node, nat>, cycles: seq<seq<Node>>, k: seq<Node>, j: nat, m: nat)
    requires Complete(g, fin, cycles) && Chain(g, k) && j <= m < |k| && k[j] in fin
    ensures k[m] in fin
  {
    if j < m {
      FinishedOnwards(g, fin, cycles, k, j, m - 1);
      assert HasCall(g, k[m - 1], k[m - 1 + 1]);
    }
  }

  lemma WholeCycleFinished(g: Calls, fin: map<Node, nat>, cycles: seq<seq<Node>>, k: seq<Node>, j: nat)
    requires Complete(g, fin, cycles) && DirectedCycle(g, k) && j < |k| && k[j] in fin
    ensures forall m | 0 <= m < |k| :: k[m] in fin
  {
    FinishedOnwards(g, fin, cycles, k, j, |k| - 1);
    forall m | 0 <= m < |k| ensures k[m] in fin {
      FinishedOnwards(g, fin, cycles, k, 0, m);
    }
  }

  /** Along edges that close nothing, finishing times fall. */
  lemma {:induction false} FinishingFalls(g: Calls, fin: map<Node, nat>, cycles: seq<seq<Node>>, k: seq<Node>, m: nat)
    requires Complete(g, fin, cycles) && DirectedCycle(g, k) && m < |k|
    requires forall i | 0 <= i < |k| :: k[i] in fin
    requires forall i | 0 <= i < |k| :: !Reported(cycles, k[i], After(k, i))
    ensures fin[k[m]] <= fin[k[0]]
  {
    if m > 0 {
      FinishingFalls(g, fin, cycles, k, m - 1);
      assert After(k, m - 1) == k[m];
      assert HasCall(g, k[m - 1], k[m - 1 + 1]);
      assert EdgeSettled(fin, cycles, k[m - 1], k[m]);
    }
  }

  /** Every directed cycle through a finished node has an edge that closes a reported cycle. */
  lemma EveryCycleMeetsAReport(g: Calls, fin: map<Node, nat>, cycles: seq<seq<Node>>, k: seq<Node>, j: nat)
    requires Complete(g, fin, cycles) && DirectedCycle(g, k) && j < |k| && k[j] in fin
    ensures exists i :: 0 <= i < |k| && Reported(cycles, k[i], After(k, i))
  {
    WholeCycleFinished(g, fin, cycles, k, j);
    if forall i | 0 <= i < |k| :: !Reported(cycles, k[i], After(k, i)) {
      FinishingFalls(g, fin, cycles, k, |k| - 1);
      assert After(k, |k| - 1) == k[0];
      assert EdgeSettled(fin, cycles, k[|k| - 1], k[0]);
    }
  }

  // ---- The search, as a function of the sorted adjacency ----

  /** Where the search stands: the nodes under way, the finished ones, what was reported. */
  datatype State = State(path: seq<Node>, done: set<Node>, cycles: seq<seq<Node>>)

  const START := State([], {}, [])

  /** The nodes of the graph: the listed ones and every edge's ends. */
  ghost function AllNodes(nodes: seq<Node>, g: Calls): set<Node> {
    Listed(nodes) + g.Keys + set u, v | u in g && v in g[u] :: v
  }

  ghost function SortedCalls(all: set<Node>, g: Calls): Calls {
    map u | u in all :: Sorting.SortStrings(Callees(g, u))
  }

  /** p from its first v on. */
  function From(p: seq<Node>, v: Node): seq<Node> {
    if p == [] || p[0] == v then p else From(p[1..], v)
  }

  ghost function Room(sorted: Calls, s: State): nat {
    if |s.path| >= |sorted| then 0 else |sorted| - |s.path|
  }

  /** visit(u) */
  ghost function Visited(sorted: Calls, s: State, u: Node): (t: State)
    ensures t.path == s.path
    decreases Room(sorted, s), 0, 0
  {
    if Room(sorted, s) == 0 then s
    else
      var t := Walked(sorted, s.(path := s.path + [u]), Callees(sorted, u));
      State(s.path, t.done + {u}, t.cycles)
  }

  /** One callee, or one listed node: reported, passed over or visited. */
  ghost function Looked(sorted: Calls, s: State, v: Node): (t: State)
    ensures t.path == s.path
    decreases Room(sorted, s), 1, 0
  {
    if v in s.path then s.(cycles := s.cycles + [From(s.path, v)])
    else if v in s.done then s
    else Visited(sorted, s, v)
  }

  ghost function Walked(sorted: Calls, s: State, ns: seq<Node>): (t: State)
    ensures t.path == s.path
    decreases Room(sorted, s), 2, |ns|
  {
    if ns == [] then s
    else Looked(sorted, Walked(sorted, s, ns[..|ns| - 1]), ns[|ns| - 1])
  }

  /** What the search reports. */
  ghost function CyclesOf(nodes: seq<Node>, g: Calls): seq<seq<Node>> {
    Walked(SortedCalls(AllNodes(nodes, g), g), START, nodes).cycles
  }

  lemma WalkedOn(sorted: Calls, s: State, ns: seq<Node>, i: nat)
    requires i < |ns|
    ensures Walked(sorted, s, ns[..i + 1]) == Looked(sorted, Walked(sorted, s, ns[..i]), ns[i])
  {
    hide Looked;
    assert ns[..i + 1][..i] == ns[..i];
  }

  lemma {:induction false} FromAt(p: seq<Node>, v: Node, i: nat)
    requires i < |p| && p[i] == v && v !in p[..i]
    ensures From(p, v) == p[i..]
  {
    if i > 0 {
      assert p[0] in p[..i];
      assert forall x | x in p[1..][..i - 1] :: x in p[..i];
      FromAt(p[1..], v, i - 1);
      assert p[1..][i - 1..] == p[i..];
    }
  }

  lemma {:induction false} DistinctFits(p: seq<Node>, all: set<Node>)
    requires Distinct(p) && forall x | x in p :: x in all
    ensures |p| <= |all|
  {
    if p != [] {
      var n := |p| - 1;
      assert forall x | x in p[..n] :: x in all - {p[n]};
      DistinctFits(p[..n], all - {p[n]});
    }
  }

  /** An edge u -> v that needs no more work: v is finished, or on the path and reported. */
  ghost predicate Handled(fin: map<Node, nat>, path: seq<Node>, cycles: seq<seq<Node>>, u: Node, v: Node) {
    v in fin || (v in path && Reported(cycles, u, v))
  }

  lemma HandledStays(
    fin: map<Node, nat>, later: map<Node, nat>, path: seq<Node>, cycles: seq<seq<Node>>, more: seq<seq<Node>>, u: Node, v: Node)
    requires Handled(fin, path, cycles, u, v) && fin.Keys <= later.Keys && cycles <= more
    ensures Handled(later, path, more, u, v)
  {
    if Reported(cycles, u, v) {
      var c :| c in cycles && ClosedBy(c, u, v);
      assert c in more;
    }
  }

  lemma PathGrows(g: Calls, p: seq<Node>, u: Node)
    requires Distinct(p) && Chain(g, p) && u !in p && (p != [] ==> HasCall(g, p[|p| - 1], u))
    ensures Distinct(p + [u]) && Chain(g, p + [u])
  {
  }

  /** The segment of the path from v on is a cycle, closed by the edge from the path's end to v. */
  lemma SegmentCloses(g: Calls, p: seq<Node>, v: Node, i: nat)
    requires Distinct(p) && Chain(g, p) && i < |p| && p[i] == v && v !in p[..i] && HasCall(g, p[|p| - 1], v)
    ensures From(p, v) == p[i..] && DirectedCycle(g, p[i..]) && Distinct(p[i..]) && ClosedBy(p[i..], p[|p| - 1], v)
  {
    FromAt(p, v, i);
  }

  lemma ReportedMore(cycles: seq<seq<Node>>, c: seq<Node>, u: Node, v: Node)
    ensures Reported(cycles, u, v) || ClosedBy(c, u, v) ==> Reported(cycles + [c], u, v)
  {
    if Reported(cycles, u, v) {
      var d :| d in cycles && ClosedBy(d, u, v);
      assert d in cycles + [c];
    }
    assert c in cycles + [c];
  }

  lemma SettledStays(fin: map<Node, nat>, cycles: seq<seq<Node>>, c: seq<Node>, u: Node, v: Node)
    requires EdgeSettled(fin, cycles, u, v)
    ensures EdgeSettled(fin, cycles + [c], u, v)
  {
    hide Reported;
    ReportedMore(cycles, c, u, v);
  }

  lemma SortedSize(all: set<Node>, g: Calls)
    ensures |SortedCalls(all, g)| == |all|
  {
    hide Callees;
    var m := SortedCalls(all, g);
    assert m.Keys == all && |m| == |m.Keys|;
  }

  lemma SortedCallees(all: set<Node>, g: Calls, u: Node)
    requires u in all
    ensures Callees(SortedCalls(all, g), u) == Sorting.SortStrings(Callees(g, u))
    ensures forall v :: v in Sorting.SortStrings(Callees(g, u)) <==> HasCall(g, u, v)
  {
    Sorting.SortedStringsSame(Callees(g, u));
  }

  // ---- The search itself ----

  datatype Color = White | Gray | Black

  class CycleSearch {
    const adjacency: Calls
    ghost const all: set<Node>
    var color: map<Node, Color>
    var path: seq<Node>
    var cycles: seq<seq<Node>>
    /** When each black node turned black. */
    ghost var fin: map<Node, nat>
    ghost var clock: nat

    constructor (adjacency: Calls, ghost all: set<Node>)
      requires forall x, y | HasCall(adjacency, x, y) :: y in all
      ensures this.adjacency == adjacency && this.all == all && Valid()
      ensures Seen() == START && fin == map[]
    {
      this.adjacency, this.all := adjacency, all;
      color, path, cycles := map[], [], [];
      fin, clock := map[], 0;
    }

    function ColorOf(u: Node): Color
      reads this
    {
      if u in color then color[u] else White
    }

    /** The search's own view of where it stands. */
    ghost function Seen(): State
      reads this
    {
      State(path, fin.Keys, cycles)
    }

    ghost function Sorted(): Calls {
      SortedCalls(all, adjacency)
    }

    ghost predicate Valid()
      reads this
    {
      && (forall u :: ColorOf(u) == Gray <==> u in path)
      && (forall u :: ColorOf(u) == Black <==> u in fin)
      && (forall u | u in fin :: fin[u] < clock)
      && (forall u | u in path :: u in all)
      && (forall x, y | HasCall(adjacency, x, y) :: y in all)
      && Distinct(path)
      && Chain(adjacency, path)
      && (forall c | c in cycles :: DirectedCycle(adjacency, c) && Distinct(c))
      && BlackSettled()
    }

    /** Every edge out of a black node is settled; its far end is not white. */
    ghost predicate BlackSettled()
      reads this
    {
      forall u, v | u in fin && HasCall(adjacency, u, v) ::
        ColorOf(v) != White && EdgeSettled(fin, cycles, u, v)
    }

    /** The gray node v closes the path segment from v to the current node. */
    method Report(v: Node)
      requires Valid() && path != [] && v in path && HasCall(adjacency, path[|path| - 1], v)
      modifies this`cycles
      ensures Valid() && cycles == old(cycles) + [From(path, v)]
      ensures Reported(cycles, path[|path| - 1], v)
    {
      hide Chain, Distinct, DirectedCycle, HasCall, EdgeSettled, Reported, ClosedBy, From;
      for i := 0 to |path|
        invariant v !in path[..i]
        invariant cycles == old(cycles)
      {
        if path[i] == v {
          SegmentCloses(adjacency, path, v, i);
          var cyc := path[i..];
          ReportedMore(cycles, cyc, path[|path| - 1], v);
          forall x, y | EdgeSettled(fin, cycles, x, y) ensures EdgeSettled(fin, cycles + [cyc], x, y) {
            SettledStays(fin, cycles, cyc, x, y);
          }
          cycles := cycles + [cyc];
          return;
        }
      }
    }

    ghost function Whites(): set<Node>
      reads this
    {
      set x | x in all && ColorOf(x) == White
    }

    /** What a visit keeps: every report and every finishing time; no node turns white again. */
    twostate predicate Grew()
      reads this
    {
      && path == old(path)
      && old(cycles) <= cycles
      && old(clock) <= clock
      && (forall x | x in old(fin) :: x in fin && fin[x] == old(fin[x]))
      && Whites() <= old(Whites())
    }

    /** u turns gray and joins the path. */
    method Enter(u: Node)
      requires Valid() && ColorOf(u) == White && u in all
      requires path != [] ==> HasCall(adjacency, path[|path| - 1], u)
      modifies this`color, this`path
      ensures Valid() && path == old(path) + [u] && Whites() < old(Whites())
      ensures Room(Sorted(), old(Seen())) > 0
    {
      hide HasCall, DirectedCycle, EdgeSettled, Chain, Distinct, SortedCalls;
      PathGrows(adjacency, path, u);
      DistinctFits(path + [u], all);
      SortedSize(all, adjacency);
      assert u in old(Whites());
      color := color[u := Gray];
      path := path + [u];
      assert u !in Whites();
    }

    /** u leaves the path and turns black, all its edges settled. */
    method Leave(u: Node)
      requires Valid() && path != [] && path[|path| - 1] == u
      requires forall v | HasCall(adjacency, u, v) :: Handled(fin, path, cycles, u, v)
      modifies this`color, this`path, this`fin, this`clock
      ensures Valid() && path == old(path[..|path| - 1]) && clock == old(clock) + 1
      ensures fin.Keys == old(fin.Keys) + {u} && Whites() <= old(Whites())
      ensures forall x | x in old(fin) :: x in fin && fin[x] == old(fin[x])
    {
      hide HasCall, DirectedCycle, Reported;
      assert u !in fin && path == path[..|path| - 1] + [u];
      ghost var before := fin;
      path := path[..|path| - 1];
      color := color[u := Black];
      fin := fin[u := clock];
      clock := clock + 1;
      assert forall x :: x in path <==> x in old(path) && x != u;
      assert forall x :: ColorOf(x) == if x == u then Black else old(ColorOf(x));
      forall x, v | x in fin && HasCall(adjacency, x, v)
        ensures ColorOf(v) != White && EdgeSettled(fin, cycles, x, v)
      {
        if x != u {
          assert EdgeSettled(before, cycles, x, v);
        }
      }
    }

    /** One turn of the loop over the callees of the current node. */
    method Look(v: Node)
      requires Valid() && path != [] && HasCall(adjacency, path[|path| - 1], v)
      modifies this
      ensures Valid() && Grew() && Handled(fin, path, cycles, path[|path| - 1], v)
      ensures Seen() == Looked(Sorted(), old(Seen()), v)
      decreases Whites(), 1
    {
      hide Chain, Distinct, BlackSettled, DirectedCycle, EdgeSettled, SortedCalls, From, Reported;
      match ColorOf(v) {
        case White =>
          Visit(v);
        case Gray =>
          Report(v);
        case Black =>
      }
    }

    /** With nothing on the path, every edge out of a finished node is settled. */
    lemma AllComplete()
      requires Valid() && path == []
      ensures Complete(adjacency, fin, cycles)
    {
      hide EdgeSettled, HasCall;
      forall u, v | u in fin && HasCall(adjacency, u, v) ensures v in fin && EdgeSettled(fin, cycles, u, v) {
        assert ColorOf(v) != White;
        assert v !in path;
      }
    }

    method Visit(u: Node)
      requires Valid() && ColorOf(u) == White && u in all
      requires path != [] ==> HasCall(adjacency, path[|path| - 1], u)
      modifies this
      ensures Valid() && Grew() && u in fin
      ensures Seen() == Visited(Sorted(), old(Seen()), u)
      decreases Whites(), 0
    {
      hide Valid, SortedCalls, Looked, Handled, HasCall, Whites, Room, Sorting.SortStrings;
      Enter(u);
      label Entered:
      var neighbors := Sorting.SortStrings(Callees(adjacency, u));
      SortedCallees(all, adjacency, u);
      ghost var entered := Seen();
      for i := 0 to |neighbors|
        invariant Valid() && Grew@Entered()
        invariant Seen() == Walked(Sorted(), entered, neighbors[..i])
        invariant forall j | 0 <= j < i :: Handled(fin, path, cycles, u, neighbors[j])
      {
        label Before:
        Look(neighbors[i]);
        WalkedOn(Sorted(), entered, neighbors, i);
        forall j | 0 <= j < i ensures Handled(fin, path, cycles, u, neighbors[j]) {
          HandledStays(old@Before(fin), fin, path, old@Before(cycles), cycles, u, neighbors[j]);
        }
      }
      assert neighbors[..|neighbors|] == neighbors;
      Leave(u);
    }
  }

  ghost predicate Genuine(g: Calls, cycles: seq<seq<Node>>) {
    forall c | c in cycles :: DirectedCycle(g, c) && Distinct(c)
  }

  /** Each directed cycle of g through a listed node has an edge that closes a reported cycle. */
  ghost predicate Covers(nodes: seq<Node>, g: Calls, cycles: seq<seq<Node>>) {
    forall k, j | DirectedCycle(g, k) && 0 <= j < |k| && k[j] in nodes ::
      exists i :: 0 <= i < |k| && Reported(cycles, k[i], After(k, i))
  }

  lemma CompleteCovers(nodes: seq<Node>, g: Calls, fin: map<Node, nat>, cycles: seq<seq<Node>>)
    requires Complete(g, fin, cycles) && forall n | n in nodes :: n in fin
    ensures Covers(nodes, g, cycles)
  {
    hide Complete, DirectedCycle, Reported;
    forall k, j | DirectedCycle(g, k) && 0 <= j < |k| && k[j] in nodes
      ensures exists i :: 0 <= i < |k| && Reported(cycles, k[i], After(k, i))
    {
      EveryCycleMeetsAReport(g, fin, cycles, k, j);
    }
  }

  /** Reported cycles are genuine simple cycles, and every cycle shares an edge with one of them. */
  method FindCycles(nodes: seq<Node>, adjacency: Calls) returns (cycles: seq<seq<Node>>)
    ensures Genuine(adjacency, cycles)
    ensures Covers(nodes, adjacency, cycles)
    ensures cycles == CyclesOf(nodes, adjacency)
  {
    hide SortedCalls, Looked, HasCall, CycleSearch.BlackSettled, Covers;
    ghost var all := AllNodes(nodes, adjacency);
    AllHeld(nodes, adjacency);
    var search := new CycleSearch(adjacency, all);
    for i := 0 to |nodes|
      invariant fresh(search) && search.adjacency == adjacency && search.all == all
      invariant search.Valid() && search.path == []
      invariant search.Seen() == Walked(SortedCalls(all, adjacency), START, nodes[..i])
      invariant forall j | 0 <= j < i :: nodes[j] in search.fin
    {
      WalkedOn(SortedCalls(all, adjacency), START, nodes, i);
      LookedAtRoot(SortedCalls(all, adjacency), search.Seen(), nodes[i]);
      if search.ColorOf(nodes[i]) == White {
        search.Visit(nodes[i]);
      }
    }
    assert nodes[..|nodes|] == nodes;
    cycles := search.cycles;
    search.AllComplete();
    CompleteCovers(nodes, adjacency, search.fin, cycles);
  }

  lemma AllHeld(nodes: seq<Node>, g: Calls)
    ensures forall n | n in nodes :: n in AllNodes(nodes, g)
    ensures forall u, v | HasCall(g, u, v) :: v in AllNodes(nodes, g)
  {
  }

  lemma LookedAtRoot(sorted: Calls, s: State, v: Node)
    requires s.path == []
    ensures Looked(sorted, s, v) == if v in s.done then s else Visited(sorted, s, v)
  {
    hide Visited;
  }

  lemma CyclicReported(nodes: seq<Node>, g: Calls, cycles: seq<seq<Node>>, k: seq<Node>)
    requires Covers(nodes, g, cycles) && DirectedCycle(g, k)
    requires forall u, v | HasCall(g, u, v) :: u in nodes
    ensures cycles != []
  {
    assert HasCall(g, k[|k| - 1], k[0]);
    var i :| 0 <= i < |k| && Reported(cycles, k[i], After(k, i));
  }

  /** The report is empty exactly when the graph has no directed cycle. */
  lemma EmptyIffAcyclic(nodes: seq<Node>, g: Calls, cycles: seq<seq<Node>>)
    requires Genuine(g, cycles) && Covers(nodes, g, cycles)
    requires forall u, v | HasCall(g, u, v) :: u in nodes
    ensures cycles == [] <==> !exists k :: DirectedCycle(g, k)
  {
    hide Covers, DirectedCycle;
    if cycles != [] {
      assert cycles[0] in cycles;
      assert DirectedCycle(g, cycles[0]);
    }
    forall k | DirectedCycle(g, k) ensures cycles != [] {
      CyclicReported(nodes, g, cycles, k);
    }
  }
}
