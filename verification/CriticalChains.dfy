/** The line of latest-ending children below a node, on any spans, and exactly when it ends. */
module CriticalChains {
  import opened RepeatedIds
  import opened SpanForest

  function End(r: Row): int {
    r.start + r.duration
  }

  ghost function KidsOf(spans: seq<Row>, p: nat): seq<nat> {
    LinkedKids(spans, p, |spans|)
  }

  ghost predicate Inside(spans: seq<Row>, q: seq<nat>) {
    forall j | 0 <= j < |q| :: q[j] < |spans|
  }

  /** Linked children stand for themselves. */
  lemma KidsStand(spans: seq<Row>, p: nat)
    ensures Inside(spans, KidsOf(spans, p)) && forall c | c in KidsOf(spans, p) :: Stand(spans, c) == c
  {
    hide Stand, Hangs, LinkedKids;
    LinkedKidsAre(spans, p, |spans|);
    forall c | c in KidsOf(spans, p) ensures c < |spans| && Stand(spans, c) == c {
      var i :| 0 <= i < |spans| && Hangs(spans, i, p) && Stand(spans, i) == c;
      StandIs(spans, i);
    }
    var kids := KidsOf(spans, p);
    assert forall j | 0 <= j < |kids| :: kids[j] in kids;
  }

  ghost predicate Leaf(spans: seq<Row>, p: nat) {
    KidsOf(spans, p) == []
  }

  /** a's interval ends after b's. */
  ghost predicate EndsLater(a: Row, b: Row) {
    a.start + a.duration > b.start + b.duration
  }

  /** The k-th of some nodes is the first whose interval ends latest. */
  ghost predicate FirstLatest(spans: seq<Row>, kids: seq<nat>, k: nat)
    requires k < |kids| && Inside(spans, kids)
  {
    && (forall j | 0 <= j < k :: EndsLater(spans[kids[k]], spans[kids[j]]))
    && (forall j | k <= j < |kids| :: !EndsLater(spans[kids[j]], spans[kids[k]]))
  }

  lemma FirstLatestUnique(spans: seq<Row>, kids: seq<nat>, k: nat, j: nat)
    requires k < |kids| && j < |kids| && Inside(spans, kids) && FirstLatest(spans, kids, k) && FirstLatest(spans, kids, j)
    ensures j == k
  {
    var later := EndsLater(spans[kids[k]], spans[kids[j]]);
  }

  lemma {:induction false} SomeLatest(spans: seq<Row>, kids: seq<nat>) returns (k: nat)
    requires kids != [] && Inside(spans, kids)
    ensures k < |kids| && FirstLatest(spans, kids, k)
  {
    var n := |kids| - 1;
    k := n;
    if n > 0 {
      var front := kids[..n];
      var best := SomeLatest(spans, front);
      assert kids[n] in kids && front[best] in kids;
      if End(spans[kids[n]]) <= End(spans[front[best]]) {
        k := best;
      }
    }
  }

  ghost predicate IsNext(spans: seq<Row>, p: nat, c: nat) {
    var kids := KidsOf(spans, p);
    Inside(spans, kids) && exists k :: 0 <= k < |kids| && kids[k] == c && FirstLatest(spans, kids, k)
  }

  lemma HasNext(spans: seq<Row>, p: nat)
    requires !Leaf(spans, p)
    ensures exists c: nat :: IsNext(spans, p, c)
  {
    KidsStand(spans, p);
    var k := SomeLatest(spans, KidsOf(spans, p));
    assert IsNext(spans, p, KidsOf(spans, p)[k]);
  }

  /** The child the chain goes on to. */
  ghost function Next(spans: seq<Row>, p: nat): (c: nat)
    requires !Leaf(spans, p)
    ensures IsNext(spans, p, c) && c in KidsOf(spans, p) && c < |spans| && Stand(spans, c) == c
  {
    HasNext(spans, p);
    KidsStand(spans, p);
    var c: nat :| IsNext(spans, p, c);
    c
  }

  lemma NextOnly(spans: seq<Row>, p: nat, c: nat)
    requires IsNext(spans, p, c)
    ensures !Leaf(spans, p) && c == Next(spans, p)
  {
    hide FirstLatest, Stand;
    var kids := KidsOf(spans, p);
    var k :| 0 <= k < |kids| && kids[k] == c && FirstLatest(spans, kids, k);
    var j :| 0 <= j < |kids| && kids[j] == Next(spans, p) && FirstLatest(spans, kids, j);
    FirstLatestUnique(spans, kids, k, j);
  }

  /** Where the chain from p is after k steps; at a leaf it stays. */
  ghost function Nth(spans: seq<Row>, p: nat, k: nat): nat {
    if k == 0 then p
    else
      var q := Nth(spans, p, k - 1);
      if Leaf(spans, q) then q else Next(spans, q)
  }

  ghost predicate ChainEnds(spans: seq<Row>, p: nat) {
    exists k: nat :: Leaf(spans, Nth(spans, p, k))
  }

  /** The first j nodes all have children. */
  ghost predicate Running(spans: seq<Row>, p: nat, j: nat) {
    forall k | 0 <= k < j :: !Leaf(spans, Nth(spans, p, k))
  }

  ghost predicate MeetsNoneTwice(spans: seq<Row>, p: nat) {
    forall i: nat, j: nat | i < j && Running(spans, p, j) :: Nth(spans, p, i) != Nth(spans, p, j)
  }

  lemma {:induction false} NthFrom(spans: seq<Row>, p: nat, a: nat, b: nat)
    ensures Nth(spans, p, a + b) == Nth(spans, Nth(spans, p, a), b)
  {
    hide Leaf, Next;
    if b > 0 {
      NthFrom(spans, p, a, b - 1);
      assert a + b - 1 == a + (b - 1);
    }
  }

  lemma {:induction false} LeafStays(spans: seq<Row>, p: nat, k: nat, m: nat)
    requires Leaf(spans, Nth(spans, p, k)) && k <= m
    ensures Leaf(spans, Nth(spans, p, m))
    decreases m
  {
    hide Leaf, Next;
    if k < m {
      LeafStays(spans, p, k, m - 1);
    }
  }

  /** A node met again repeats for ever. */
  lemma {:induction false} RoundAndRound(spans: seq<Row>, p: nat, i: nat, j: nat, k: nat)
    requires i < j && Running(spans, p, j) && Nth(spans, p, i) == Nth(spans, p, j)
    ensures !Leaf(spans, Nth(spans, p, k))
    decreases k
  {
    hide Leaf, Nth;
    if k >= j {
      RoundAndRound(spans, p, i, j, k - (j - i));
      NthFrom(spans, p, j, k - j);
      NthFrom(spans, p, i, k - j);
      assert i + (k - j) == k - (j - i) && j + (k - j) == k;
    }
  }

  lemma {:induction false} NthStands(spans: seq<Row>, p: nat, k: nat)
    requires p < |spans| && Stand(spans, p) == p
    ensures Nth(spans, p, k) < |spans| && Stand(spans, Nth(spans, p, k)) == Nth(spans, p, k)
  {
    hide Leaf, Stand;
    if k > 0 {
      NthStands(spans, p, k - 1);
    }
  }

  /** As long as no node is met twice, every step meets a new id. */
  lemma {:induction false} NewIds(spans: seq<Row>, p: nat, m: nat) returns (line: set<nat>)
    requires p < |spans| && Stand(spans, p) == p && MeetsNoneTwice(spans, p) && Running(spans, p, m)
    ensures line <= Ids(spans) && |line| == m + 1
    ensures forall id | id in line :: OnLine(spans, p, m, id)
    decreases m
  {
    hide Leaf, Nth, Stand, OnLine;
    NthStands(spans, p, m);
    var x := Nth(spans, p, m);
    assert spans[x].id in Ids(spans);
    OnLineNow(spans, p, m);
    line := {spans[x].id};
    if m > 0 {
      var front := NewIds(spans, p, m - 1);
      if OnLine(spans, p, m - 1, spans[x].id) {
        MetBefore(spans, p, m);
      }
      forall id | id in front ensures OnLine(spans, p, m, id) {
        OnLineLater(spans, p, m, id);
      }
      line := front + {spans[x].id};
    }
  }

  /** One of the first nodes of the chain, up to the m-th, carries the id. */
  ghost predicate OnLine(spans: seq<Row>, p: nat, m: nat, id: nat) {
    exists k :: 0 <= k <= m && Nth(spans, p, k) < |spans| && spans[Nth(spans, p, k)].id == id
  }

  lemma OnLineNow(spans: seq<Row>, p: nat, m: nat)
    requires Nth(spans, p, m) < |spans|
    ensures OnLine(spans, p, m, spans[Nth(spans, p, m)].id)
  {
  }

  lemma OnLineLater(spans: seq<Row>, p: nat, m: nat, id: nat)
    requires m > 0 && OnLine(spans, p, m - 1, id)
    ensures OnLine(spans, p, m, id)
  {
    hide Nth;
  }

  /** An id met again is a node met again. */
  lemma MetBefore(spans: seq<Row>, p: nat, m: nat)
    requires p < |spans| && Stand(spans, p) == p && m > 0 && Running(spans, p, m)
    requires Nth(spans, p, m) < |spans| && OnLine(spans, p, m - 1, spans[Nth(spans, p, m)].id)
    ensures !MeetsNoneTwice(spans, p)
  {
    hide Nth, Stand, Leaf;
    var x := Nth(spans, p, m);
    var k :| 0 <= k <= m - 1 && Nth(spans, p, k) < |spans| && spans[Nth(spans, p, k)].id == spans[x].id;
    NthStands(spans, p, k);
    NthStands(spans, p, m);
    StandIs(spans, x);
  }

  /** Within as many steps as there are ids the chain is at a leaf, unless it has met a node twice. */
  lemma LeafInTime(spans: seq<Row>, p: nat)
    requires p < |spans| && Stand(spans, p) == p && MeetsNoneTwice(spans, p)
    ensures Leaf(spans, Nth(spans, p, |Ids(spans)|))
  {
    hide Leaf, Nth, Stand;
    var n := |Ids(spans)|;
    if !Leaf(spans, Nth(spans, p, n)) {
      forall k | 0 <= k < n ensures !Leaf(spans, Nth(spans, p, k)) {
        if Leaf(spans, Nth(spans, p, k)) {
          LeafStays(spans, p, k, n);
        }
      }
      var line := NewIds(spans, p, n);
      Fewer(line, Ids(spans));
    }
  }

  /** A chain ends exactly if it meets no node twice, and exactly if it is at a leaf after as many steps as there are ids. */
  lemma ChainEndsExactly(spans: seq<Row>, p: nat)
    requires p < |spans| && Stand(spans, p) == p
    ensures ChainEnds(spans, p) <==> MeetsNoneTwice(spans, p)
    ensures ChainEnds(spans, p) <==> Leaf(spans, Nth(spans, p, |Ids(spans)|))
  {
    hide Leaf, Nth, Stand;
    if MeetsNoneTwice(spans, p) {
      LeafInTime(spans, p);
    }
    if ChainEnds(spans, p) {
      var k: nat :| Leaf(spans, Nth(spans, p, k));
      forall i: nat, j: nat | i < j && Running(spans, p, j) ensures Nth(spans, p, i) != Nth(spans, p, j) {
        if Nth(spans, p, i) == Nth(spans, p, j) {
          RoundAndRound(spans, p, i, j, k);
        }
      }
    }
  }

  // ---- All roots ----

  ghost predicate AllChainsEnd(spans: seq<Row>) {
    forall r | r in LinkedRoots(spans, |spans|) :: ChainEnds(spans, r)
  }

  /** Row r is a root and the chain from its stand-in meets no node twice. */
  ghost predicate StraightFrom(spans: seq<Row>, r: nat)
    requires r < |spans|
  {
    IsRoot(spans, r) ==> MeetsNoneTwice(spans, Stand(spans, r))
  }

  /** Computing the critical path ends exactly if no root's chain meets a node twice, which shows within as many steps as there are ids. */
  lemma CriticalPathEndsExactly(spans: seq<Row>)
    ensures AllChainsEnd(spans) <==> forall r | 0 <= r < |spans| :: StraightFrom(spans, r)
    ensures AllChainsEnd(spans) <==>
            forall r | 0 <= r < |spans| && IsRoot(spans, r) :: Leaf(spans, Nth(spans, Stand(spans, r), |Ids(spans)|))
  {
    hide Leaf, Nth, Stand, LinkedRoots, ChainEnds, MeetsNoneTwice;
    LinkedRootsAre(spans, |spans|);
    forall r | 0 <= r < |spans| && IsRoot(spans, r)
      ensures Stand(spans, r) in LinkedRoots(spans, |spans|)
      ensures ChainEnds(spans, Stand(spans, r)) <==> MeetsNoneTwice(spans, Stand(spans, r))
      ensures ChainEnds(spans, Stand(spans, r)) <==> Leaf(spans, Nth(spans, Stand(spans, r), |Ids(spans)|))
    {
      StandIs(spans, r);
      ChainEndsExactly(spans, Stand(spans, r));
    }
    forall s | s in LinkedRoots(spans, |spans|) ensures exists r :: 0 <= r < |spans| && IsRoot(spans, r) && Stand(spans, r) == s {
    }
    if forall r | 0 <= r < |spans| :: StraightFrom(spans, r) {
      forall s | s in LinkedRoots(spans, |spans|) ensures ChainEnds(spans, s) {
        var r :| 0 <= r < |spans| && IsRoot(spans, r) && Stand(spans, r) == s;
        assert StraightFrom(spans, r);
      }
    }
  }

  lemma {:induction false} EndsBelowChain(spans: seq<Row>, p: nat, n: nat)
    requires EndsAt(spans, p, n)
    ensures ChainEnds(spans, p)
    decreases n
  {
    hide LinkedKids, Stand;
    if Leaf(spans, p) {
      assert Leaf(spans, Nth(spans, p, 0));
    } else {
      var c := Next(spans, p);
      EndsBelowChain(spans, c, n - 1);
      var k: nat :| Leaf(spans, Nth(spans, c, k));
      NthFrom(spans, p, 1, k);
      assert Nth(spans, p, 1) == c;
      assert Leaf(spans, Nth(spans, p, 1 + k));
    }
  }

  /** Where the walk over all children ends, so does the chain through some of them. */
  lemma WalksEndChains(spans: seq<Row>)
    requires WalkEnds(spans)
    ensures AllChainsEnd(spans)
  {
    hide LinkedRoots, EndsAt, ChainEnds;
    var n: nat :| AllEnd(spans, n);
    forall r | r in LinkedRoots(spans, |spans|) ensures ChainEnds(spans, r) {
      EndsBelowChain(spans, r, n);
    }
  }

  // ---- Inputs ----

  lemma {:induction false} TwiceStays(k: nat)
    ensures Nth(TWICE, 1, k) == 1 && !Leaf(TWICE, 1)
  {
    RootIsItsOwnChild();
    assert |TWICE| == 2;
    assert KidsOf(TWICE, 1) == [1];
    if k > 0 {
      TwiceStays(k - 1);
      assert Next(TWICE, 1) in [1];
    }
  }

  /** A root that is its own child: its chain never ends. */
  lemma OwnChildNeverEnds()
    ensures !AllChainsEnd(TWICE)
  {
    RootIsItsOwnChild();
    assert 1 in LinkedRoots(TWICE, |TWICE|);
    forall k: nat ensures !Leaf(TWICE, Nth(TWICE, 1, k)) {
      TwiceStays(k);
    }
  }

  /** A loop beside the chain: node 3 is its own child, but node 1 ends later and has none. */
  const ASIDE := [Row(1, 0, "a", 0, 10, ""), Row(2, 1, "a", 0, 9, ""), Row(3, 1, "a", 0, 1, ""), Row(3, 3, "a", 0, 1, "")]

  lemma AsideStands()
    ensures Stand(ASIDE, 0) == 0 && Stand(ASIDE, 1) == 1 && Stand(ASIDE, 2) == 3 && Stand(ASIDE, 3) == 3
  {
    LastIs(ASIDE, 1, 4);
    LastIs(ASIDE, 2, 4);
    LastIs(ASIDE, 3, 4);
  }

  lemma AsideLinks()
    ensures LinkedRoots(ASIDE, 4) == [0] && KidsOf(ASIDE, 0) == [1, 3] && KidsOf(ASIDE, 1) == []
  {
    hide Stand;
    AsideStands();
    assert LinkedRoots(ASIDE, 1) == [0] && LinkedRoots(ASIDE, 2) == [0] && LinkedRoots(ASIDE, 3) == [0];
    assert LinkedKids(ASIDE, 0, 1) == [] && LinkedKids(ASIDE, 0, 2) == [1] && LinkedKids(ASIDE, 0, 3) == [1, 3];
    assert LinkedKids(ASIDE, 1, 1) == [] && LinkedKids(ASIDE, 1, 2) == [] && LinkedKids(ASIDE, 1, 3) == [];
  }

  /** The chain ends although the walk over all children does not. */
  lemma ChainEndsBesideLoop()
    ensures AllChainsEnd(ASIDE) && !WalkEnds(ASIDE)
  {
    hide WalkEnds, LinkedKids, LinkedRoots, Stand;
    AsideLinks();
    assert FirstLatest(ASIDE, [1, 3], 0);
    assert [1, 3][0] == 1;
    NextOnly(ASIDE, 0, 1);
    assert Nth(ASIDE, 0, 0) == 0;
    assert Nth(ASIDE, 0, 1) == 1;
    assert Leaf(ASIDE, Nth(ASIDE, 0, 1));
    assert IdUnder(ASIDE, 3, 3, 0) && IdUnder(ASIDE, 1, 1, 0);
    assert ASIDE[2].id == 3 && ASIDE[2].parent == 1;
    assert IdUnder(ASIDE, 1, 3, 1);
    assert IsRoot(ASIDE, 0) && IdReachable(ASIDE, 3);
    assert LoopsAt(ASIDE, 3);
    WalkEndsExactly(ASIDE);
  }
}
