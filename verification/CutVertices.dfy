// Cut vertices by Tarjan's low-link search. `Search` is the state the recursive closure
// captures, per node: disc, low and isCut, and two ghosts of the run: the node's tree parent
// and the timer at which its visit ended. A node x lies in u's DFS subtree exactly when
// disc[u] <= disc[x] < fin[u].
module CutVertices {
  import opened Graphs
  import opened Options

  datatype Info = Info(disc: nat, low: nat, cut: bool, par: Option<Node>, fin: Option<nat>)

  datatype Search = Search(at: map<Node, Info>, timer: nat)

  // ---- What the state of a search satisfies at every step ----

  ghost predicate Done(s: Search, x: Node) {
    x in s.at && s.at[x].fin.Some?
  }

  ghost predicate HasParent(s: Search, x: Node) {
    x in s.at && s.at[x].par.Some?
  }

  ghost predicate ChildOf(s: Search, c: Node, u: Node) {
    c in s.at && s.at[c].par == Some(u)
  }

  ghost predicate InSubtree(s: Search, u: Node, x: Node) {
    Done(s, u) && x in s.at && s.at[u].disc <= s.at[x].disc < s.at[u].fin.value
  }

  /** x was discovered strictly inside u's visit, which may still be running. */
  ghost predicate Below(s: Search, u: Node, x: Node) {
    u in s.at && x in s.at && s.at[u].disc < s.at[x].disc && (Done(s, u) ==> s.at[x].disc < s.at[u].fin.value)
  }

  ghost predicate Numbered(s: Search) {
    && (forall x | x in s.at :: s.at[x].disc < s.timer)
    && (forall x, y | x in s.at && y in s.at && s.at[x].disc == s.at[y].disc :: x == y)
    && (forall x | Done(s, x) :: s.at[x].disc < s.at[x].fin.value <= s.timer)
  }

  ghost predicate Laminar(s: Search) {
    forall x, y | InSubtree(s, x, y) :: Done(s, y) && s.at[y].fin.value <= s.at[x].fin.value
  }

  ghost predicate EdgesSeen(g: Adjacency, s: Search) {
    forall x, y | Done(s, x) && y in Neighbors(g, x) :: y in s.at && s.at[y].disc < s.at[x].fin.value
  }

  ghost predicate TreeEdges(g: Adjacency, s: Search) {
    && (forall x | HasParent(s, x) :: x in Neighbors(g, s.at[x].par.value) && Below(s, s.at[x].par.value, x))
    && (forall u, x | Below(s, u, x) ::
          HasParent(s, x) && s.at[x].par.value in s.at && s.at[u].disc <= s.at[s.at[x].par.value].disc)
  }

  ghost predicate WellFormed(g: Adjacency, s: Search) {
    Numbered(s) && Laminar(s) && EdgesSeen(g, s) && TreeEdges(g, s)
  }

  // ---- What low-link and isCut mean for a finished node ----

  /** (x, w) is an edge whose far end the low-link of x's ancestors must count. */
  ghost predicate Counted(g: Adjacency, s: Search, x: Node, w: Node) {
    w in Neighbors(g, x) && w in s.at && !ChildOf(s, x, w)
  }

  ghost predicate Reaches(g: Adjacency, s: Search, x: Node, w: Node, n: nat) {
    w in Neighbors(g, x) && w in s.at && s.at[w].disc == n
  }

  ghost predicate LowLink(g: Adjacency, s: Search, u: Node)
    requires u in s.at
  {
    && s.at[u].low <= s.at[u].disc
    && (forall x, w | InSubtree(s, u, x) && Counted(g, s, x, w) :: s.at[u].low <= s.at[w].disc)
    && (s.at[u].low == s.at[u].disc || exists x, w :: InSubtree(s, u, x) && Reaches(g, s, x, w, s.at[u].low))
  }

  /** c is a child of u from whose subtree no edge counted by low[c] gets above u. */
  ghost predicate Blocks(s: Search, u: Node, c: Node)
    requires u in s.at
  {
    ChildOf(s, c, u) && s.at[c].low >= s.at[u].disc
  }

  ghost predicate CutRule(s: Search, u: Node)
    requires u in s.at
  {
    s.at[u].cut <==>
    if HasParent(s, u) then exists c :: Blocks(s, u, c)
    else exists c, d :: ChildOf(s, c, u) && ChildOf(s, d, u) && c != d
  }

  ghost predicate Judged(g: Adjacency, s: Search) {
    forall u | Done(s, u) :: LowLink(g, s, u) && CutRule(s, u)
  }

  /** The search ran to its end over `nodes`. */
  ghost predicate Finished(g: Adjacency, nodes: set<Node>, s: Search) {
    && WellFormed(g, s)
    && Judged(g, s)
    && s.at.Keys == nodes
    && forall u | u in nodes :: Done(s, u)
  }

  // ---- From a finished search to connectivity ----

  /** The subtree of u hangs together without leaving itself. */
  lemma {:induction false} SubtreeConnected(g: Adjacency, nodes: set<Node>, s: Search, u: Node, x: Node, within: set<Node>)
    requires Finished(g, nodes, s) && InSubtree(s, u, x)
    requires forall y | InSubtree(s, u, y) :: y in within
    ensures Connected(g, within, u, x)
    decreases s.at[x].disc
  {
    assert InSubtree(s, u, u);
    if x == u {
      ConnectedSelf(g, within, u);
    } else {
      assert Below(s, u, x);
      var p := s.at[x].par.value;
      assert Below(s, p, x);
      assert InSubtree(s, u, p);
      SubtreeConnected(g, nodes, s, u, p, within);
      ConnectedEdge(g, within, p, x);
      ConnectedTrans(g, within, u, p, x);
    }
  }

  /** Every node lies in the subtree of some root. */
  lemma {:induction false} RootOf(g: Adjacency, nodes: set<Node>, s: Search, x: Node) returns (r: Node)
    requires Finished(g, nodes, s) && x in nodes
    ensures r in nodes && !HasParent(s, r) && InSubtree(s, r, x)
    decreases s.at[x].disc
  {
    if HasParent(s, x) {
      assert Below(s, s.at[x].par.value, x);
      r := RootOf(g, nodes, s, s.at[x].par.value);
      assert InSubtree(s, r, s.at[x].par.value);
      assert s.at[s.at[x].par.value].fin.value <= s.at[r].fin.value;
    } else {
      r := x;
    }
  }

  /** An edge that leaves a finished subtree goes to a proper ancestor of its top. */
  lemma LeavingEdge(g: Adjacency, nodes: set<Node>, s: Search, c: Node, x: Node, w: Node)
    requires Finished(g, nodes, s) && Symmetric(g)
    requires Done(s, c) && InSubtree(s, c, x) && w in Neighbors(g, x) && !InSubtree(s, c, w)
    ensures w in s.at && Below(s, w, c) && Below(s, w, x)
  {
    assert w in s.at && s.at[w].disc < s.at[x].fin.value;
    assert Done(s, x) && s.at[x].fin.value <= s.at[c].fin.value;
    assert s.at[w].disc < s.at[c].disc;
    assert x in Neighbors(g, w);
    assert s.at[x].disc < s.at[w].fin.value;
  }

  /** The whole subtree of a root is closed under edges. */
  lemma RootClosed(g: Adjacency, nodes: set<Node>, s: Search, r: Node, x: Node, w: Node)
    requires Finished(g, nodes, s) && Symmetric(g)
    requires r in nodes && !HasParent(s, r) && InSubtree(s, r, x) && w in Neighbors(g, x)
    ensures InSubtree(s, r, w)
  {
    if !InSubtree(s, r, w) {
      LeavingEdge(g, nodes, s, r, x, w);
    }
  }

  /** A child c of u with low[c] >= disc[u]: no edge leaves c's subtree except to u. */
  lemma BlockedSubtree(g: Adjacency, nodes: set<Node>, s: Search, u: Node, c: Node, x: Node, w: Node)
    requires Finished(g, nodes, s) && Symmetric(g)
    requires u in s.at && Blocks(s, u, c)
    requires InSubtree(s, c, x) && w in Neighbors(g, x)
    ensures InSubtree(s, c, w) || w == u
  {
    if !InSubtree(s, c, w) && w != u {
      LeavingEdge(g, nodes, s, c, x, w);
      assert s.at[w].disc <= s.at[u].disc;
      if ChildOf(s, x, w) {
        assert Below(s, c, x);
      } else {
        assert Counted(g, s, x, w);
      }
    }
  }

  /** The separated region is closed under edges once u is gone, so its nodes cannot reach b. */
  lemma RegionSeparates(g: Adjacency, nodes: set<Node>, u: Node, region: set<Node>, a: Node, b: Node)
    requires a in region && b !in region && a != u && b != u
    requires forall x, w | x in region && w in Neighbors(g, x) && w in nodes - {u} :: w in region
    requires Connected(g, nodes, a, b)
    ensures Separates(g, nodes, u)
  {
    if Connected(g, nodes - {u}, a, b) {
      ConnectedStays(g, nodes - {u}, region, a, b);
    }
  }

  lemma ConnectedVia(g: Adjacency, nodes: set<Node>, a: Node, u: Node, b: Node)
    requires Symmetric(g) && u in nodes && a in nodes && b in nodes
    requires a in Neighbors(g, u) && b in Neighbors(g, u)
    ensures Connected(g, nodes, a, b)
  {
    assert u in Neighbors(g, a);
    ConnectedEdge(g, nodes, a, u);
    ConnectedEdge(g, nodes, u, b);
    ConnectedTrans(g, nodes, a, u, b);
  }

  lemma MarkedNonRootSeparates(g: Adjacency, nodes: set<Node>, s: Search, u: Node, c: Node)
    requires Finished(g, nodes, s) && Symmetric(g)
    requires HasParent(s, u) && ChildOf(s, c, u) && s.at[c].low >= s.at[u].disc
    ensures Separates(g, nodes, u)
  {
    var p := s.at[u].par.value;
    assert Below(s, u, c) && Below(s, p, u);
    var region := set x | x in nodes && InSubtree(s, c, x);
    forall x, w | x in region && w in Neighbors(g, x) && w in nodes - {u} ensures w in region {
      BlockedSubtree(g, nodes, s, u, c, x, w);
    }
    assert u in Neighbors(g, p) && p in Neighbors(g, u);
    ConnectedVia(g, nodes, c, u, p);
    RegionSeparates(g, nodes, u, region, c, p);
  }

  lemma ChildOfRootClosed(g: Adjacency, nodes: set<Node>, s: Search, r: Node, c: Node, x: Node, w: Node)
    requires Finished(g, nodes, s) && Symmetric(g)
    requires r in nodes && !HasParent(s, r) && ChildOf(s, c, r)
    requires InSubtree(s, c, x) && w in Neighbors(g, x)
    ensures InSubtree(s, c, w) || w == r
  {
    if !InSubtree(s, c, w) {
      LeavingEdge(g, nodes, s, c, x, w);
      assert Below(s, w, c);
      assert s.at[w].disc <= s.at[r].disc;
      if w != r {
        assert Below(s, r, c);
        assert s.at[w].disc < s.at[r].disc < s.at[c].disc < s.at[w].fin.value;
        assert Below(s, w, r);
        assert false;
      }
    }
  }

  /** Of two children of one node, neither lies in the other's subtree. */
  lemma SiblingsApart(g: Adjacency, nodes: set<Node>, s: Search, u: Node, c: Node, d: Node)
    requires Finished(g, nodes, s)
    requires ChildOf(s, c, u) && ChildOf(s, d, u) && c != d
    ensures !InSubtree(s, c, d)
  {
    assert Below(s, u, c) && Below(s, u, d);
    if Below(s, c, d) {
      assert false;
    }
  }

  lemma MarkedRootSeparates(g: Adjacency, nodes: set<Node>, s: Search, r: Node, c: Node, d: Node)
    requires Finished(g, nodes, s) && Symmetric(g)
    requires r in nodes && !HasParent(s, r) && ChildOf(s, c, r) && ChildOf(s, d, r) && c != d
    ensures Separates(g, nodes, r)
  {
    assert Below(s, r, c) && Below(s, r, d);
    var region := set x | x in nodes && InSubtree(s, c, x);
    forall x, w | x in region && w in Neighbors(g, x) && w in nodes - {r} ensures w in region {
      ChildOfRootClosed(g, nodes, s, r, c, x, w);
    }
    SiblingsApart(g, nodes, s, r, c, d);
    ConnectedVia(g, nodes, c, r, d);
    RegionSeparates(g, nodes, r, region, c, d);
  }

  // ---- Nodes that are not marked keep their tree in one piece ----

  /** The child of u whose subtree holds x. */
  lemma {:induction false} ChildAbove(g: Adjacency, nodes: set<Node>, s: Search, u: Node, x: Node) returns (c: Node)
    requires Finished(g, nodes, s) && u in nodes && x in nodes && InSubtree(s, u, x) && x != u
    ensures ChildOf(s, c, u) && InSubtree(s, c, x)
    decreases s.at[x].disc
  {
    assert Below(s, u, x);
    var p := s.at[x].par.value;
    assert Below(s, p, x);
    if p == u {
      c := x;
    } else {
      assert InSubtree(s, u, p);
      c := ChildAbove(g, nodes, s, u, p);
      assert s.at[p].fin.value <= s.at[c].fin.value;
    }
  }

  /** Outside u's subtree and below the root, the tree parent is again such a node. */
  lemma ParentOutside(g: Adjacency, nodes: set<Node>, s: Search, r: Node, u: Node, x: Node)
    requires Finished(g, nodes, s) && Symmetric(g)
    requires r in nodes && u in nodes && InSubtree(s, r, x) && x != r && !InSubtree(s, u, x)
    ensures HasParent(s, x) && InSubtree(s, r, s.at[x].par.value) && !InSubtree(s, u, s.at[x].par.value)
    ensures s.at[s.at[x].par.value].disc < s.at[x].disc && s.at[x].par.value in Neighbors(g, x)
  {
    assert Below(s, r, x);
    var p := s.at[x].par.value;
    assert Below(s, p, x);
    if InSubtree(s, u, p) {
      assert false;
    }
  }

  /** Everything of the root's tree outside u's subtree reaches the root without u. */
  lemma {:induction false} AboveReachesRoot(g: Adjacency, nodes: set<Node>, s: Search, r: Node, u: Node, x: Node)
    requires Finished(g, nodes, s) && Symmetric(g)
    requires r in nodes && u in nodes && InSubtree(s, r, x) && !InSubtree(s, u, x) && !InSubtree(s, u, r)
    ensures Connected(g, nodes - {u}, x, r)
    decreases s.at[x].disc
  {
    hide Connected, IsPath, LowLink, CutRule, TreeEdges, EdgesSeen, Laminar;
    assert InSubtree(s, u, u);
    if x == r {
      ConnectedSelf(g, nodes - {u}, r);
    } else {
      ParentOutside(g, nodes, s, r, u, x);
      var p := s.at[x].par.value;
      AboveReachesRoot(g, nodes, s, r, u, p);
      ConnectedEdge(g, nodes - {u}, x, p);
      ConnectedTrans(g, nodes - {u}, x, p, r);
    }
  }

  lemma LowLinkWitness(g: Adjacency, s: Search, c: Node) returns (y: Node, w: Node)
    requires c in s.at && LowLink(g, s, c) && s.at[c].low < s.at[c].disc
    ensures InSubtree(s, c, y) && Reaches(g, s, y, w, s.at[c].low)
  {
    hide InSubtree, Reaches, Counted;
    y, w :| InSubtree(s, c, y) && Reaches(g, s, y, w, s.at[c].low);
  }

  /** A child subtree whose low-link escapes above u has an edge to a node of the tree above u. */
  lemma EscapingEdge(g: Adjacency, nodes: set<Node>, s: Search, r: Node, u: Node, c: Node) returns (y: Node, w: Node)
    requires Finished(g, nodes, s) && Symmetric(g)
    requires r in nodes && !HasParent(s, r) && InSubtree(s, r, u)
    requires u in s.at && ChildOf(s, c, u) && s.at[c].low < s.at[u].disc
    ensures InSubtree(s, c, y) && w in Neighbors(g, y)
    ensures InSubtree(s, r, w) && !InSubtree(s, u, w) && !InSubtree(s, c, u)
  {
    hide CutRule, Connected, IsPath, LowLink, EdgesSeen;
    assert Below(s, u, c);
    y, w := LowLinkWitness(g, s, c);
    assert s.at[c].fin.value <= s.at[u].fin.value <= s.at[r].fin.value;
    assert InSubtree(s, r, y);
    RootClosed(g, nodes, s, r, y, w);
  }

  /** Two nodes of one subtree are connected inside it. */
  lemma InOneSubtree(g: Adjacency, nodes: set<Node>, s: Search, u: Node, c: Node, x: Node, y: Node)
    requires Finished(g, nodes, s) && Symmetric(g)
    requires InSubtree(s, c, x) && InSubtree(s, c, y) && !InSubtree(s, c, u)
    ensures Connected(g, nodes - {u}, x, y)
  {
    hide Connected, IsPath, LowLink, CutRule, TreeEdges;
    var rest := nodes - {u};
    SubtreeConnected(g, nodes, s, c, x, rest);
    SubtreeConnected(g, nodes, s, c, y, rest);
    ConnectedSym(g, rest, c, x);
    ConnectedTrans(g, rest, x, c, y);
  }

  lemma UnmarkedRootReaches(g: Adjacency, nodes: set<Node>, s: Search, r: Node, x: Node, y: Node)
    requires Finished(g, nodes, s) && Symmetric(g)
    requires r in nodes && !HasParent(s, r) && !s.at[r].cut
    requires x in nodes && y in nodes && x != r && y != r && InSubtree(s, r, x) && InSubtree(s, r, y)
    ensures Connected(g, nodes - {r}, x, y)
  {
    hide Connected, IsPath, LowLink, Laminar, EdgesSeen;
    var c := ChildAbove(g, nodes, s, r, x);
    var d := ChildAbove(g, nodes, s, r, y);
    assert CutRule(s, r);
    assert c == d;
    assert Below(s, r, c);
    InOneSubtree(g, nodes, s, r, c, x, y);
  }

  lemma EscapeReachesRoot(g: Adjacency, nodes: set<Node>, s: Search, r: Node, u: Node, c: Node) returns (y: Node)
    requires Finished(g, nodes, s) && Symmetric(g)
    requires r in nodes && !HasParent(s, r) && InSubtree(s, r, u) && !InSubtree(s, u, r) && u in nodes
    requires u in s.at && ChildOf(s, c, u) && s.at[c].low < s.at[u].disc
    ensures InSubtree(s, c, y) && !InSubtree(s, c, u) && Connected(g, nodes - {u}, y, r)
  {
    hide Connected, IsPath, LowLink, CutRule, TreeEdges, EdgesSeen, Laminar;
    var w;
    y, w := EscapingEdge(g, nodes, s, r, u, c);
    assert InSubtree(s, u, u);
    AboveReachesRoot(g, nodes, s, r, u, w);
    ConnectedEdge(g, nodes - {u}, y, w);
    ConnectedTrans(g, nodes - {u}, y, w, r);
  }

  lemma UnmarkedNonRootReaches(g: Adjacency, nodes: set<Node>, s: Search, r: Node, u: Node, x: Node)
    requires Finished(g, nodes, s) && Symmetric(g)
    requires r in nodes && !HasParent(s, r) && InSubtree(s, r, u) && HasParent(s, u) && !s.at[u].cut
    requires x in nodes && InSubtree(s, r, x) && x != u
    ensures Connected(g, nodes - {u}, x, r)
  {
    hide Connected, IsPath, LowLink, EdgesSeen;
    assert Below(s, s.at[u].par.value, u) && s.at[r].disc < s.at[u].disc;
    if !InSubtree(s, u, x) {
      AboveReachesRoot(g, nodes, s, r, u, x);
    } else {
      var c := ChildAbove(g, nodes, s, u, x);
      assert CutRule(s, u) && !Blocks(s, u, c);
      var y := EscapeReachesRoot(g, nodes, s, r, u, c);
      InOneSubtree(g, nodes, s, u, c, x, y);
      ConnectedTrans(g, nodes - {u}, x, y, r);
    }
  }

  lemma SameTree(g: Adjacency, nodes: set<Node>, s: Search, r: Node, a: Node, b: Node)
    requires Finished(g, nodes, s) && Symmetric(g)
    requires r in nodes && !HasParent(s, r) && InSubtree(s, r, a) && Connected(g, nodes, a, b)
    ensures InSubtree(s, r, b)
  {
    var tree := set x | x in nodes && InSubtree(s, r, x);
    forall x, w | x in tree && w in Neighbors(g, x) && w in nodes ensures w in tree {
      RootClosed(g, nodes, s, r, x, w);
    }
    ConnectedStays(g, nodes, tree, a, b);
  }

  /** Nodes of a tree that does not hold u stay connected without u. */
  lemma OtherTree(g: Adjacency, nodes: set<Node>, s: Search, r: Node, u: Node, a: Node, b: Node)
    requires Finished(g, nodes, s) && Symmetric(g)
    requires r in nodes && !HasParent(s, r) && InSubtree(s, r, a) && Connected(g, nodes, a, b)
    requires !InSubtree(s, r, u)
    ensures Connected(g, nodes - {u}, a, b)
  {
    var tree := set x | x in nodes && InSubtree(s, r, x);
    forall x, w | x in tree && w in Neighbors(g, x) && w in nodes ensures w in tree {
      RootClosed(g, nodes, s, r, x, w);
    }
    ConnectedStays(g, nodes, tree, a, b);
    ConnectedWider(g, nodes * tree, nodes - {u}, a, b);
  }

  lemma UnmarkedKeeps(g: Adjacency, nodes: set<Node>, s: Search, u: Node, a: Node, b: Node)
    requires Finished(g, nodes, s) && Symmetric(g) && Closed(g, nodes)
    requires u in nodes && !s.at[u].cut && a != u && b != u && Connected(g, nodes, a, b)
    ensures Connected(g, nodes - {u}, a, b)
  {
    var p :| PathWithin(g, nodes, p, a, b);
    assert p[0] in nodes && p[|p| - 1] in nodes;
    var r := RootOf(g, nodes, s, a);
    SameTree(g, nodes, s, r, a, b);
    if !InSubtree(s, r, u) {
      OtherTree(g, nodes, s, r, u, a, b);
    } else if u == r {
      UnmarkedRootReaches(g, nodes, s, r, a, b);
    } else {
      assert Below(s, r, u);
      UnmarkedNonRootReaches(g, nodes, s, r, u, a);
      UnmarkedNonRootReaches(g, nodes, s, r, u, b);
      ConnectedSym(g, nodes - {u}, b, r);
      ConnectedTrans(g, nodes - {u}, a, r, b);
    }
  }

  /** A finished search marks exactly the nodes whose removal disconnects two others. */
  lemma MarksExactlyTheCutVertices(g: Adjacency, nodes: set<Node>, s: Search)
    requires Finished(g, nodes, s) && Symmetric(g) && Closed(g, nodes)
    ensures forall u | u in nodes :: s.at[u].cut <==> Separates(g, nodes, u)
  {
    forall u | u in nodes ensures s.at[u].cut <==> Separates(g, nodes, u) {
      assert CutRule(s, u);
      if s.at[u].cut {
        if HasParent(s, u) {
          var c :| Blocks(s, u, c);
          MarkedNonRootSeparates(g, nodes, s, u, c);
        } else {
          var c, d :| ChildOf(s, c, u) && ChildOf(s, d, u) && c != d;
          MarkedRootSeparates(g, nodes, s, u, c, d);
        }
      } else if Separates(g, nodes, u) {
        var a, b :| a != u && b != u && Connected(g, nodes, a, b) && !Connected(g, nodes - {u}, a, b);
        UnmarkedKeeps(g, nodes, s, u, a, b);
      }
    }
  }

  // ---- The steps of one visit ----

  /** From s to t, nodes known in s keep all they had; new ones are numbered later and, unless open, finished. */
  ghost predicate Extends(s: Search, t: Search, open: set<Node>) {
    && s.timer <= t.timer
    && (forall x | x in s.at :: x in t.at && t.at[x] == s.at[x])
    && (forall x | x in t.at && x !in s.at :: t.at[x].disc >= s.timer && (Done(t, x) || x in open))
  }

  /** Every node discovered after u is finished: u is the innermost open visit. */
  ghost predicate Innermost(s: Search, u: Node) {
    u in s.at && !Done(s, u) && forall x | x in s.at && s.at[x].disc > s.at[u].disc :: Done(s, x)
  }

  /** What low[u] already accounts for while u is open and `seen` of its neighbours are handled. */
  ghost predicate LowSoFar(g: Adjacency, s: Search, u: Node, seen: set<Node>)
    requires u in s.at
  {
    && s.at[u].low <= s.at[u].disc
    && (forall w | w in seen && Counted(g, s, u, w) :: s.at[u].low <= s.at[w].disc)
    && (forall x, w | Below(s, u, x) && Counted(g, s, x, w) :: s.at[u].low <= s.at[w].disc)
    && (s.at[u].low == s.at[u].disc
        || exists x, w :: (x == u || Below(s, u, x)) && Reaches(g, s, x, w, s.at[u].low))
  }

  ghost predicate Scanning(g: Adjacency, s: Search, u: Node, seen: set<Node>) {
    && WellFormed(g, s)
    && Judged(g, s)
    && Innermost(s, u)
    && seen <= s.at.Keys
    && LowSoFar(g, s, u, seen)
    && CutRule(s, u)
  }

  /** Where a visit may start: below the innermost open node, or with nothing open. */
  ghost predicate MayEnter(g: Adjacency, s: Search, u: Node, parent: Option<Node>) {
    && WellFormed(g, s)
    && Judged(g, s)
    && u !in s.at
    && match parent
       case Some(p) => Innermost(s, p) && u in Neighbors(g, p)
       case None => forall x | x in s.at :: Done(s, x)
  }

  ghost function Open(s: Search, u: Node, parent: Option<Node>): Search {
    Search(s.at[u := Info(s.timer, s.timer, false, parent, None)], s.timer + 1)
  }

  ghost function Close(s: Search, u: Node): Search
    requires u in s.at
  {
    s.(at := s.at[u := s.at[u].(fin := Some(s.timer))])
  }

  lemma LowLinkKept(g: Adjacency, s: Search, t: Search, open: set<Node>, u: Node)
    requires WellFormed(g, s) && Extends(s, t, open)
    requires Done(s, u) && LowLink(g, s, u)
    ensures LowLink(g, t, u)
  {
    hide TreeEdges;
    forall x | InSubtree(t, u, x) ensures InSubtree(s, u, x) {}
    forall x, w | InSubtree(t, u, x) && Counted(g, t, x, w) ensures t.at[u].low <= t.at[w].disc {
      assert InSubtree(s, u, x);
      assert Counted(g, s, x, w);
    }
    if s.at[u].low != s.at[u].disc {
      var x, w :| InSubtree(s, u, x) && Reaches(g, s, x, w, s.at[u].low);
      assert InSubtree(t, u, x) && Reaches(g, t, x, w, t.at[u].low);
    }
  }

  lemma CutRuleKept(s: Search, t: Search, u: Node)
    requires u in s.at && u in t.at && s.at[u] == t.at[u] && CutRule(s, u)
    requires forall c | ChildOf(s, c, u) || ChildOf(t, c, u) :: c in s.at && c in t.at && t.at[c] == s.at[c]
    ensures CutRule(t, u)
  {
    forall c ensures ChildOf(t, c, u) <==> ChildOf(s, c, u) {}
    forall c ensures Blocks(t, u, c) <==> Blocks(s, u, c) {}
  }

  /** What is finished stays judged when the search only adds nodes below open ones. */
  lemma JudgedKept(g: Adjacency, s: Search, t: Search, open: set<Node>)
    requires WellFormed(g, s) && Extends(s, t, open) && Judged(g, s)
    requires forall x | HasParent(t, x) && x !in s.at :: !Done(s, t.at[x].par.value)
    ensures forall u | Done(s, u) :: LowLink(g, t, u) && CutRule(t, u)
  {
    hide LowLink, CutRule, TreeEdges, Laminar, EdgesSeen;
    forall u | Done(s, u) ensures LowLink(g, t, u) && CutRule(t, u) {
      LowLinkKept(g, s, t, open, u);
      CutRuleKept(s, t, u);
    }
  }

  lemma OpenedTree(g: Adjacency, s: Search, u: Node, parent: Option<Node>)
    requires MayEnter(g, s, u, parent)
    ensures TreeEdges(g, Open(s, u, parent))
  {
    hide Judged;
    var t := Open(s, u, parent);
    forall a, x | Below(t, a, x)
      ensures HasParent(t, x) && t.at[x].par.value in t.at && t.at[a].disc <= t.at[t.at[x].par.value].disc
    {
      if x != u {
        assert Below(s, a, x);
      }
    }
    forall x | HasParent(t, x)
      ensures x in Neighbors(g, t.at[x].par.value) && Below(t, t.at[x].par.value, x)
    {
      if x != u {
        assert Below(s, s.at[x].par.value, x);
      }
    }
  }

  lemma OpenedNumbered(g: Adjacency, s: Search, u: Node, parent: Option<Node>)
    requires MayEnter(g, s, u, parent)
    ensures Numbered(Open(s, u, parent))
  {
    hide TreeEdges, Judged, Laminar, EdgesSeen, Innermost;
    var t := Open(s, u, parent);
    forall x | Done(t, x) ensures t.at[x].disc < t.at[x].fin.value <= t.timer {
      assert Done(s, x);
    }
  }

  lemma OpenedNests(g: Adjacency, s: Search, u: Node, parent: Option<Node>)
    requires MayEnter(g, s, u, parent)
    ensures Laminar(Open(s, u, parent)) && EdgesSeen(g, Open(s, u, parent))
  {
    hide TreeEdges, Judged, Innermost;
    var t := Open(s, u, parent);
    forall x, y | InSubtree(t, x, y) ensures Done(t, y) && t.at[y].fin.value <= t.at[x].fin.value {
      assert InSubtree(s, x, y);
    }
    forall x, y | Done(t, x) && y in Neighbors(g, x) ensures y in t.at && t.at[y].disc < t.at[x].fin.value {
      assert Done(s, x);
    }
  }

  lemma OpenedWellFormed(g: Adjacency, s: Search, u: Node, parent: Option<Node>)
    requires MayEnter(g, s, u, parent)
    ensures WellFormed(g, Open(s, u, parent))
    ensures Extends(s, Open(s, u, parent), {u})
  {
    hide TreeEdges, Judged, Numbered, Laminar, EdgesSeen;
    OpenedNumbered(g, s, u, parent);
    OpenedNests(g, s, u, parent);
    OpenedTree(g, s, u, parent);
  }

  /** Entering a node leaves every finished verdict alone and starts its own scan. */
  lemma Opened(g: Adjacency, s: Search, u: Node, parent: Option<Node>)
    requires MayEnter(g, s, u, parent)
    ensures Scanning(g, Open(s, u, parent), u, {})
    ensures Extends(s, Open(s, u, parent), {u})
  {
    var t := Open(s, u, parent);
    OpenedWellFormed(g, s, u, parent);
    JudgedKept(g, s, t, {u});
    assert forall c | ChildOf(t, c, u) :: Below(t, u, c);
  }

  /** u's record after low[u] and isCut[u] are updated; nothing else moves. */
  ghost function Update(s: Search, u: Node, low: nat, cut: bool): Search
    requires u in s.at
  {
    s.(at := s.at[u := s.at[u].(low := low, cut := cut)])
  }

  ghost predicate SameShape(s: Search, t: Search) {
    && s.timer == t.timer
    && s.at.Keys == t.at.Keys
    && forall x | x in s.at :: s.at[x].disc == t.at[x].disc && s.at[x].par == t.at[x].par && s.at[x].fin == t.at[x].fin
  }

  lemma SameShapeNests(g: Adjacency, s: Search, t: Search)
    requires WellFormed(g, s) && SameShape(s, t)
    ensures Numbered(t) && Laminar(t) && EdgesSeen(g, t)
  {
    hide TreeEdges;
    forall x ensures Done(t, x) <==> Done(s, x) {}
    forall x, y ensures InSubtree(t, x, y) <==> InSubtree(s, x, y) {}
  }

  lemma SameShapeWellFormed(g: Adjacency, s: Search, t: Search)
    requires WellFormed(g, s) && SameShape(s, t)
    ensures WellFormed(g, t)
  {
    hide Numbered, Laminar, EdgesSeen;
    SameShapeNests(g, s, t);
    forall x ensures HasParent(t, x) <==> HasParent(s, x) {}
    forall x, y ensures Below(t, x, y) <==> Below(s, x, y) {}
  }

  lemma UpdateKeepsJudged(g: Adjacency, s: Search, u: Node, low: nat, cut: bool)
    requires WellFormed(g, s) && Judged(g, s) && u in s.at && !Done(s, u)
    ensures WellFormed(g, Update(s, u, low, cut)) && Judged(g, Update(s, u, low, cut))
  {
    hide LowLink, CutRule;
    var t := Update(s, u, low, cut);
    SameShapeWellFormed(g, s, t);
    forall v | Done(t, v) ensures LowLink(g, t, v) && CutRule(t, v) {
      assert Done(s, v);
      LowLinkSameShape(g, s, t, v);
      forall c | ChildOf(s, c, v) || ChildOf(t, c, v) ensures c in s.at && c in t.at && t.at[c] == s.at[c] {
        assert ChildOf(s, c, v);
        assert Below(s, v, c);
        assert InSubtree(s, v, c);
      }
      CutRuleKept(s, t, v);
    }
  }

  lemma LowLinkSameShape(g: Adjacency, s: Search, t: Search, v: Node)
    requires SameShape(s, t) && v in s.at && LowLink(g, s, v) && t.at[v] == s.at[v]
    ensures LowLink(g, t, v)
  {
    forall x ensures InSubtree(t, v, x) <==> InSubtree(s, v, x) {}
    forall x, w ensures Counted(g, t, x, w) <==> Counted(g, s, x, w) {}
    forall x, w, n ensures Reaches(g, t, x, w, n) <==> Reaches(g, s, x, w, n) {}
  }

  function Min(a: nat, b: nat): nat {
    if a < b then a else b
  }

  lemma NotOwnChild(g: Adjacency, s: Search, u: Node)
    requires WellFormed(g, s)
    ensures !ChildOf(s, u, u)
  {
    assert ChildOf(s, u, u) ==> HasParent(s, u);
  }

  /** A neighbour already visited (the parent included or not) only lowers low[u]. */
  lemma HandledVisited(g: Adjacency, s: Search, u: Node, seen: set<Node>, v: Node)
    requires Scanning(g, s, u, seen) && v in Neighbors(g, u) && v in s.at
    ensures Scanning(g, Update(s, u, Min(s.at[u].low, s.at[v].disc), s.at[u].cut), u, seen + {v})
  {
    hide WellFormed, Judged;
    NotOwnChild(g, s, u);
    var t := Update(s, u, Min(s.at[u].low, s.at[v].disc), s.at[u].cut);
    UpdateKeepsJudged(g, s, u, t.at[u].low, t.at[u].cut);
    forall x ensures Below(t, u, x) <==> Below(s, u, x) {}
    forall x, w ensures Counted(g, t, x, w) <==> Counted(g, s, x, w) {}
    forall x, w, n ensures Reaches(g, t, x, w, n) <==> Reaches(g, s, x, w, n) {}
    assert Reaches(g, s, u, v, s.at[v].disc);
    forall c ensures ChildOf(t, c, u) <==> ChildOf(s, c, u) {}
    forall c ensures Blocks(t, u, c) <==> Blocks(s, u, c) {}
  }

  /** The parent itself is skipped. */
  lemma HandledParent(g: Adjacency, s: Search, u: Node, seen: set<Node>, v: Node)
    requires Scanning(g, s, u, seen) && ChildOf(s, u, v) && v in s.at
    ensures Scanning(g, s, u, seen + {v})
  {
    hide WellFormed, Judged;
  }

  /** What one complete visit of v, entered in state s, leaves behind. */
  ghost predicate Visited(g: Adjacency, s: Search, t: Search, v: Node, parent: Option<Node>) {
    && WellFormed(g, t)
    && Judged(g, t)
    && Extends(s, t, {})
    && v !in s.at
    && Done(t, v)
    && t.at[v].disc == s.timer
    && t.at[v].fin == Some(t.timer)
    && t.at[v].par == parent
  }

  /** The nodes a visit of v adds are v's subtree, so v is the only new child of the node it came from. */
  lemma NewNodes(g: Adjacency, s: Search, t: Search, u: Node, v: Node)
    requires Visited(g, s, t, v, Some(u)) && u in s.at && Numbered(s)
    ensures forall x | x in t.at && x !in s.at :: InSubtree(t, v, x)
    ensures forall c | ChildOf(t, c, u) && c !in s.at :: c == v
  {
    hide Judged, Laminar, EdgesSeen;
    forall c | ChildOf(t, c, u) && c !in s.at ensures c == v {
      assert InSubtree(t, v, c) && (c == v || Below(t, v, c));
    }
  }

  ghost predicate HasOtherChild(s: Search, u: Node) {
    exists c :: ChildOf(s, c, u)
  }

  ghost function AfterChild(s: Search, t: Search, u: Node, v: Node): Search
    requires u in t.at && v in t.at
  {
    Update(t, u, Min(t.at[u].low, t.at[v].low),
           t.at[u].cut || if HasParent(t, u) then t.at[v].low >= t.at[u].disc else HasOtherChild(s, u))
  }

  lemma ChildLowBound(g: Adjacency, s: Search, t: Search, u: Node, seen: set<Node>, v: Node, x: Node, w: Node)
    requires Scanning(g, s, u, seen) && Visited(g, s, t, v, Some(u))
    requires Below(t, u, x) && Counted(g, t, x, w)
    ensures Min(t.at[u].low, t.at[v].low) <= t.at[w].disc
  {
    hide Laminar, TreeEdges, CutRule;
    if x in s.at {
      assert Below(s, u, x);
      assert Counted(g, s, x, w);
    } else {
      NewNodes(g, s, t, u, v);
      assert InSubtree(t, v, x);
      assert LowLink(g, t, v);
    }
  }

  lemma ChildLowReached(g: Adjacency, s: Search, t: Search, u: Node, seen: set<Node>, v: Node) returns (x: Node, w: Node)
    requires Scanning(g, s, u, seen) && Visited(g, s, t, v, Some(u))
    requires Min(t.at[u].low, t.at[v].low) != t.at[u].disc
    ensures (x == u || Below(t, u, x)) && Reaches(g, t, x, w, Min(t.at[u].low, t.at[v].low))
  {
    hide Laminar, TreeEdges, EdgesSeen, CutRule;
    if t.at[u].low <= t.at[v].low {
      x, w :| (x == u || Below(s, u, x)) && Reaches(g, s, x, w, s.at[u].low);
    } else {
      assert LowLink(g, t, v);
      x, w :| InSubtree(t, v, x) && Reaches(g, t, x, w, t.at[v].low);
    }
  }

  lemma ChildLow(g: Adjacency, s: Search, t: Search, u: Node, seen: set<Node>, v: Node)
    requires Scanning(g, s, u, seen) && Visited(g, s, t, v, Some(u))
    ensures LowSoFar(g, AfterChild(s, t, u, v), u, seen + {v})
  {
    hide Laminar, TreeEdges, EdgesSeen, CutRule, Judged;
    var r := AfterChild(s, t, u, v);
    forall x, w | Below(r, u, x) && Counted(g, r, x, w) ensures r.at[u].low <= r.at[w].disc {
      assert Below(t, u, x) && Counted(g, t, x, w);
      ChildLowBound(g, s, t, u, seen, v, x, w);
    }
    forall w | w in seen && Counted(g, r, u, w) ensures r.at[u].low <= r.at[w].disc {
      assert Counted(g, s, u, w);
    }
    if r.at[u].low != r.at[u].disc {
      var x, w := ChildLowReached(g, s, t, u, seen, v);
      assert (x == u || Below(r, u, x)) && Reaches(g, r, x, w, r.at[u].low);
    }
  }

  lemma ChildCut(g: Adjacency, s: Search, t: Search, u: Node, seen: set<Node>, v: Node)
    requires Scanning(g, s, u, seen) && Visited(g, s, t, v, Some(u))
    ensures CutRule(AfterChild(s, t, u, v), u)
  {
    hide Laminar, EdgesSeen, LowLink, LowSoFar;
    var r := AfterChild(s, t, u, v);
    NotOwnChild(g, t, u);
    NewNodes(g, s, t, u, v);
    forall c ensures ChildOf(r, c, u) <==> ChildOf(s, c, u) || c == v {}
    forall c ensures Blocks(r, u, c) <==> Blocks(s, u, c) || (c == v && t.at[v].low >= t.at[u].disc) {}
    if HasParent(t, u) {
      assert Blocks(r, u, v) <==> t.at[v].low >= t.at[u].disc;
    } else if HasOtherChild(s, u) {
      var c :| ChildOf(s, c, u);
      assert ChildOf(r, c, u) && ChildOf(r, v, u) && c != v;
    }
  }

  /** A neighbour visited from u as a tree child. */
  lemma HandledChild(g: Adjacency, s: Search, t: Search, u: Node, seen: set<Node>, v: Node)
    requires Scanning(g, s, u, seen) && Visited(g, s, t, v, Some(u))
    ensures Scanning(g, AfterChild(s, t, u, v), u, seen + {v})
  {
    hide Numbered, Laminar, TreeEdges, EdgesSeen, LowLink, LowSoFar, CutRule;
    var r := AfterChild(s, t, u, v);
    ChildLow(g, s, t, u, seen, v);
    ChildCut(g, s, t, u, seen, v);
    UpdateKeepsJudged(g, t, u, r.at[u].low, r.at[u].cut);
    forall x | x in r.at && r.at[x].disc > r.at[u].disc ensures Done(r, x) {
      assert Done(t, x);
    }
  }

  lemma ClosedNumbered(g: Adjacency, s: Search, u: Node)
    requires WellFormed(g, s) && Innermost(s, u)
    ensures Numbered(Close(s, u)) && Laminar(Close(s, u))
  {
    hide TreeEdges, EdgesSeen;
    var t := Close(s, u);
    forall x, y | InSubtree(t, x, y) ensures Done(t, y) && t.at[y].fin.value <= t.at[x].fin.value {
      if x == u {
        assert y == u || s.at[y].disc > s.at[u].disc;
      } else {
        assert InSubtree(s, x, y);
      }
    }
  }

  lemma ClosedEdges(g: Adjacency, s: Search, u: Node)
    requires WellFormed(g, s) && u in s.at && Neighbors(g, u) <= s.at.Keys
    ensures EdgesSeen(g, Close(s, u))
  {
    hide Laminar, TreeEdges;
    var t := Close(s, u);
    forall x, y | Done(t, x) && y in Neighbors(g, x) ensures y in t.at && t.at[y].disc < t.at[x].fin.value {
      assert x == u || Done(s, x);
    }
  }

  lemma ClosedBelow(s: Search, u: Node)
    requires Numbered(s) && u in s.at && !Done(s, u)
    ensures forall x, y :: Below(Close(s, u), x, y) <==> Below(s, x, y)
  {
  }

  lemma ClosedTree(g: Adjacency, s: Search, u: Node)
    requires WellFormed(g, s) && u in s.at && !Done(s, u)
    ensures TreeEdges(g, Close(s, u))
  {
    hide Laminar, EdgesSeen, Numbered, Below;
    var t := Close(s, u);
    ClosedBelow(s, u);
    forall x ensures HasParent(t, x) <==> HasParent(s, x) {}
  }

  lemma ClosedViews(g: Adjacency, s: Search, u: Node)
    requires Numbered(s) && u in s.at && !Done(s, u)
    ensures var t := Close(s, u);
            && (forall x :: InSubtree(t, u, x) <==> x == u || Below(s, u, x))
            && (forall x, w :: Counted(g, t, x, w) <==> Counted(g, s, x, w))
            && (forall x, w, n :: Reaches(g, t, x, w, n) <==> Reaches(g, s, x, w, n))
  {
  }

  lemma OwnLowLink(g: Adjacency, s: Search, u: Node, seen: set<Node>)
    requires Scanning(g, s, u, seen) && Neighbors(g, u) <= seen
    ensures LowLink(g, Close(s, u), u)
  {
    hide Laminar, EdgesSeen, Judged, TreeEdges, InSubtree, Below, CutRule;
    ClosedViews(g, s, u);
  }

  lemma OwnCutRule(g: Adjacency, s: Search, u: Node, seen: set<Node>)
    requires Scanning(g, s, u, seen)
    ensures CutRule(Close(s, u), u)
  {
    hide Laminar, EdgesSeen, Judged, TreeEdges, Numbered, LowSoFar;
    NotOwnChild(g, s, u);
    var t := Close(s, u);
    forall c ensures ChildOf(t, c, u) <==> ChildOf(s, c, u) {}
    forall c ensures Blocks(t, u, c) <==> Blocks(s, u, c) {}
  }

  lemma OthersStayJudged(g: Adjacency, s: Search, u: Node)
    requires WellFormed(g, s) && Judged(g, s) && u in s.at && !Done(s, u)
    ensures forall v | Done(s, v) :: LowLink(g, Close(s, u), v) && CutRule(Close(s, u), v)
  {
    hide Laminar, EdgesSeen, Numbered;
    var t := Close(s, u);
    forall v | Done(s, v) ensures LowLink(g, t, v) && CutRule(t, v) {
      forall x ensures InSubtree(t, v, x) <==> InSubtree(s, v, x) {}
      forall x, w ensures Counted(g, t, x, w) <==> Counted(g, s, x, w) {}
      forall x, w, n ensures Reaches(g, t, x, w, n) <==> Reaches(g, s, x, w, n) {}
      forall c ensures ChildOf(t, c, v) <==> ChildOf(s, c, v) {}
      forall c ensures Blocks(t, v, c) <==> Blocks(s, v, c) {}
    }
  }

  /** Leaving u once all its neighbours are handled. */
  lemma Left(g: Adjacency, s: Search, u: Node, seen: set<Node>)
    requires Scanning(g, s, u, seen) && Neighbors(g, u) <= seen
    ensures WellFormed(g, Close(s, u)) && Judged(g, Close(s, u))
  {
    hide Numbered, Laminar, TreeEdges, EdgesSeen, LowSoFar, LowLink, CutRule;
    ClosedNumbered(g, s, u);
    ClosedEdges(g, s, u);
    ClosedTree(g, s, u);
    OwnLowLink(g, s, u, seen);
    OwnCutRule(g, s, u, seen);
    OthersStayJudged(g, s, u);
    forall v | Done(Close(s, u), v) ensures v == u || Done(s, v) {}
  }

  // ---- The search itself ----

  /** u's visit, entered in state `start`, with `seen` handled and `children` tree children so far. */
  ghost predicate Progress(g: Adjacency, start: Search, s: Search, u: Node, from: Option<Node>,
                           seen: set<Node>, children: nat) {
    && Scanning(g, s, u, seen)
    && Extends(start, s, {u})
    && u !in start.at
    && s.at[u].disc == start.timer
    && s.at[u].par == from
    && (children > 0 <==> HasOtherChild(s, u))
  }

  lemma ProgressStarts(g: Adjacency, s: Search, u: Node, from: Option<Node>)
    requires MayEnter(g, s, u, from)
    ensures Progress(g, s, Open(s, u, from), u, from, {}, 0)
  {
    hide Judged, LowSoFar, CutRule, Numbered, Laminar, EdgesSeen;
    Opened(g, s, u, from);
    assert forall c | ChildOf(Open(s, u, from), c, u) :: HasParent(Open(s, u, from), c);
    assert forall c | ChildOf(Open(s, u, from), c, u) :: Below(Open(s, u, from), u, c);
  }

  lemma ProgressVisited(g: Adjacency, start: Search, s: Search, u: Node, from: Option<Node>,
                        seen: set<Node>, children: nat, v: Node)
    requires Progress(g, start, s, u, from, seen, children) && v in Neighbors(g, u) && v in s.at
    ensures Progress(g, start, Update(s, u, Min(s.at[u].low, s.at[v].disc), s.at[u].cut), u, from, seen + {v}, children)
  {
    hide WellFormed, Judged, LowSoFar, CutRule;
    HandledVisited(g, s, u, seen, v);
    var t := Update(s, u, Min(s.at[u].low, s.at[v].disc), s.at[u].cut);
    assert forall c :: ChildOf(t, c, u) <==> ChildOf(s, c, u);
  }

  lemma ProgressChild(g: Adjacency, start: Search, s: Search, t: Search, u: Node, from: Option<Node>,
                      seen: set<Node>, children: nat, v: Node)
    requires Progress(g, start, s, u, from, seen, children) && Visited(g, s, t, v, Some(u))
    ensures u in t.at && v in t.at && u != v
    ensures Progress(g, start, AfterChild(s, t, u, v), u, from, seen + {v}, children + 1)
    ensures AfterChild(s, t, u, v) ==
            Update(t, u, Min(t.at[u].low, t.at[v].low),
                   t.at[u].cut || if from.Some? then t.at[v].low >= t.at[u].disc else children > 0)
  {
    hide WellFormed, Judged, LowSoFar, CutRule;
    HandledChild(g, s, t, u, seen, v);
    assert ChildOf(AfterChild(s, t, u, v), v, u);
  }

  lemma ProgressMayEnter(g: Adjacency, start: Search, s: Search, u: Node, from: Option<Node>,
                         seen: set<Node>, children: nat, v: Node)
    requires Progress(g, start, s, u, from, seen, children) && v in Neighbors(g, u) && v !in s.at
    ensures MayEnter(g, s, v, Some(u))
  {
  }

  lemma ProgressParent(g: Adjacency, start: Search, s: Search, u: Node, p: Node,
                       seen: set<Node>, children: nat)
    requires Progress(g, start, s, u, Some(p), seen, children)
    ensures Progress(g, start, s, u, Some(p), seen + {p}, children)
  {
    assert HasParent(s, u);
    HandledParent(g, s, u, seen, p);
  }

  /** u's visit as a whole, once it is closed. */
  lemma ProgressEnds(g: Adjacency, start: Search, s: Search, u: Node, from: Option<Node>, seen: set<Node>, children: nat)
    requires Progress(g, start, s, u, from, seen, children) && Neighbors(g, u) <= seen
    ensures u in s.at && Visited(g, start, Close(s, u), u, from)
  {
    hide WellFormed, Judged, LowSoFar, CutRule;
    Left(g, s, u, seen);
  }

  /** The order in which Go hands out map keys is not relied on: any listing of the set will do. */
  method Listing(s: set<Node>) returns (q: seq<Node>)
    ensures forall v :: v in q <==> v in s
  {
    q := [];
    var rest := s;
    while rest != {}
      invariant rest <= s
      invariant forall v :: v in q <==> v in s - rest
      decreases rest
    {
      var v :| v in rest;
      q := q + [v];
      rest := rest - {v};
    }
  }

  /** The maps the closures capture hold what the search records. */
  ghost predicate Agree(disc: map<Node, nat>, low: map<Node, nat>, isCut: set<Node>, s: Search) {
    && (forall x | x in s.at :: x in disc && disc[x] == s.at[x].disc && x in low && low[x] == s.at[x].low)
    && (forall x :: x in isCut <==> x in s.at && s.at[x].cut)
  }

  lemma AgreeUpdated(disc: map<Node, nat>, low: map<Node, nat>, isCut: set<Node>, s: Search, u: Node, n: nat, cut: bool)
    requires Agree(disc, low, isCut, s) && u in s.at
    ensures Agree(disc, low[u := n], if cut then isCut + {u} else isCut - {u}, Update(s, u, n, cut))
    ensures s.at.Keys == Update(s, u, n, cut).at.Keys
  {
  }

  lemma AgreeClosed(disc: map<Node, nat>, low: map<Node, nat>, isCut: set<Node>, s: Search, u: Node)
    requires Agree(disc, low, isCut, s) && u in s.at
    ensures Agree(disc, low, isCut, Close(s, u)) && s.at.Keys == Close(s, u).at.Keys
    ensures Close(s, u).timer == s.timer
  {
  }

  class ArticulationSearch {
    const undirected: Adjacency
    ghost const nodes: set<Node>

    var disc: map<Node, nat>
    var low: map<Node, nat>
    var visited: set<Node>
    var isCut: set<Node>
    var timer: nat

    /** The run so far, as one value. */
    ghost var s: Search

    constructor (undirected: Adjacency, ghost nodes: set<Node>)
      ensures this.undirected == undirected && this.nodes == nodes
      ensures Mirrors() && s == Search(map[], 0)
    {
      this.undirected := undirected;
      this.nodes := nodes;
      disc, low, visited, isCut, timer := map[], map[], {}, {}, 0;
      s := Search(map[], 0);
    }

    /** The captured variables agree with the ghost state. */
    ghost predicate Mirrors()
      reads this
    {
      && timer == s.timer
      && visited == s.at.Keys
      && visited <= nodes
      && Agree(disc, low, isCut, s)
    }

    /** First lines of a visit: number u and open it. */
    method Enter(u: Node, ghost from: Option<Node>)
      requires Mirrors() && u in nodes && MayEnter(undirected, s, u, from)
      modifies this
      ensures Mirrors() && Progress(undirected, old(s), s, u, from, {}, 0)
      ensures visited == old(visited) + {u} && u !in old(visited)
    {
      hide Progress, WellFormed, Judged, Innermost;
      ProgressStarts(undirected, s, u, from);
      visited := visited + {u};
      disc := disc[u := timer];
      low := low[u := timer];
      timer := timer + 1;
      s := Open(s, u, from);
    }

    /** An edge to a node already visited. */
    method NoteVisited(u: Node, v: Node, ghost start: Search, ghost from: Option<Node>, ghost seen: set<Node>, ghost children: nat)
      requires Mirrors() && Progress(undirected, start, s, u, from, seen, children)
      requires v in visited && v in Neighbors(undirected, u)
      modifies this
      ensures Mirrors() && Progress(undirected, start, s, u, from, seen + {v}, children)
      ensures visited == old(visited)
    {
      hide WellFormed, Judged, LowSoFar, CutRule, Extends;
      ProgressVisited(undirected, start, s, u, from, seen, children, v);
      s := Update(s, u, Min(s.at[u].low, s.at[v].disc), s.at[u].cut);
      if disc[v] < low[u] {
        low := low[u := disc[v]];
      }
    }

    /** What u learns from its tree child v, just visited. */
    method NoteChild(u: Node, v: Node, isRoot: bool, children: nat,
                     ghost start: Search, ghost before: Search, ghost from: Option<Node>, ghost seen: set<Node>)
      requires Mirrors() && isRoot == from.None? && children > 0
      requires Progress(undirected, start, before, u, from, seen, children - 1)
      requires Visited(undirected, before, s, v, Some(u))
      modifies this
      ensures Mirrors() && Progress(undirected, start, s, u, from, seen + {v}, children)
      ensures visited == old(visited)
    {
      hide Scanning, Judged, WellFormed, Extends, AfterChild;
      ProgressChild(undirected, start, before, s, u, from, seen, children - 1, v);
      s := AfterChild(before, s, u, v);
      if low[v] < low[u] {
        low := low[u := low[v]];
      }
      if isRoot && children > 1 {
        isCut := isCut + {u};
      }
      if !isRoot && low[v] >= disc[u] {
        isCut := isCut + {u};
      }
    }

    /** u's visit ends. */
    ghost method Leave(u: Node, start: Search, from: Option<Node>, seen: set<Node>, children: nat)
      requires Mirrors() && Progress(undirected, start, s, u, from, seen, children)
      requires Neighbors(undirected, u) <= seen
      modifies this`s
      ensures Mirrors() && Visited(undirected, start, s, u, from)
    {
      hide Progress, Visited, Agree, Close;
      ProgressEnds(undirected, start, s, u, from, seen, children);
      AgreeClosed(disc, low, isCut, s, u);
      s := Close(s, u);
    }

    method Dfs(u: Node, parent: Node, parentKnown: bool, isRoot: bool)
      requires Mirrors() && Closed(undirected, nodes) && u in nodes
      requires isRoot == !parentKnown
      requires MayEnter(undirected, s, u, if parentKnown then Some(parent) else None)
      modifies this
      ensures Mirrors() && old(visited) <= visited <= nodes
      ensures Visited(undirected, old(s), s, u, if parentKnown then Some(parent) else None)
      decreases nodes - visited
    {
      hide Progress, Visited, MayEnter;
      ghost var from := if parentKnown then Some(parent) else None;
      Enter(u, from);
      var children := 0;
      var neighbors := Listing(Neighbors(undirected, u));
      ghost var seen: set<Node> := {};
      for i := 0 to |neighbors|
        invariant Mirrors() && Progress(undirected, old(s), s, u, from, seen, children)
        invariant old(visited) + {u} <= visited && u !in old(visited)
        invariant forall j | 0 <= j < i :: neighbors[j] in seen
      {
        var v := neighbors[i];
        if parentKnown && v == parent {
          ProgressParent(undirected, old(s), s, u, v, seen, children);
        } else if v !in visited {
          children := children + 1;
          ghost var before := s;
          ProgressMayEnter(undirected, old(s), s, u, from, seen, children - 1, v);
          Dfs(v, u, true, false);
          NoteChild(u, v, isRoot, children, old(s), before, from, seen);
        } else {
          NoteVisited(u, v, old(s), from, seen, children);
        }
        seen := seen + {v};
      }
      Leave(u, old(s), from, seen, children);
    }
  }

  /** Between two top-level visits nothing is open. */
  ghost predicate Settled(g: Adjacency, s: Search) {
    && WellFormed(g, s)
    && Judged(g, s)
    && forall x | x in s.at :: Done(s, x)
  }

  lemma SettledAfter(g: Adjacency, s: Search, t: Search, n: Node)
    requires Settled(g, s) && Visited(g, s, t, n, None)
    ensures Settled(g, t) && n in t.at && s.at.Keys <= t.at.Keys
  {
    hide WellFormed, Judged;
  }

  lemma SettledMayEnter(g: Adjacency, s: Search, n: Node)
    requires Settled(g, s) && n !in s.at
    ensures MayEnter(g, s, n, None)
  {
    hide WellFormed, Judged;
  }

  lemma SettledIsExact(g: Adjacency, nodes: set<Node>, s: Search, isCut: set<Node>)
    requires Settled(g, s) && s.at.Keys == nodes && Symmetric(g) && Closed(g, nodes)
    requires forall x :: x in isCut <==> x in s.at && s.at[x].cut
    ensures forall u :: u in isCut <==> u in nodes && Separates(g, nodes, u)
  {
    hide WellFormed, Judged, Separates, Symmetric, Closed;
    MarksExactlyTheCutVertices(g, nodes, s);
  }

  /** The nodes whose removal disconnects two others that the graph connects: exactly those. */
  method ArticulationPoints(nodes: seq<Node>, undirected: Adjacency) returns (isCut: set<Node>)
    requires Symmetric(undirected) && Closed(undirected, Listed(nodes))
    ensures forall u :: u in isCut <==> u in nodes && Separates(undirected, Listed(nodes), u)
  {
    hide Settled, Separates, Symmetric, MayEnter, Visited, Closed;
    ghost var all := Listed(nodes);
    var search := new ArticulationSearch(undirected, all);
    SettledInitially(undirected);
    for i := 0 to |nodes|
      invariant fresh(search) && search.undirected == undirected && search.nodes == all
      invariant search.Mirrors() && Settled(undirected, search.s)
      invariant forall j | 0 <= j < i :: nodes[j] in search.visited
    {
      if nodes[i] !in search.visited {
        ghost var before := search.s;
        SettledMayEnter(undirected, before, nodes[i]);
        search.Dfs(nodes[i], "", false, true);
        SettledAfter(undirected, before, search.s, nodes[i]);
      }
    }
    assert search.visited == all;
    isCut := search.isCut;
    SettledIsExact(undirected, all, search.s, isCut);
  }

  lemma SettledInitially(g: Adjacency)
    ensures Settled(g, Search(map[], 0))
  {
  }
}
