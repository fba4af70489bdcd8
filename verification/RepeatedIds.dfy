/** Spans with repeated ids: exactly when walks from the roots end, and exactly when what they reach is a forest. */
module RepeatedIds {
  import opened SpanForest

  // ---- The walk over the linked nodes ----

  /** The recursive walk from node p returns within n levels. */
  ghost predicate EndsAt(spans: seq<Row>, p: nat, n: nat)
    decreases n
  {
    n > 0 && forall c | c in LinkedKids(spans, p, |spans|) :: EndsAt(spans, c, n - 1)
  }

  ghost predicate AllEnd(spans: seq<Row>, n: nat) {
    forall r | r in LinkedRoots(spans, |spans|) :: EndsAt(spans, r, n)
  }

  ghost predicate WalkEnds(spans: seq<Row>) {
    exists n: nat :: AllEnd(spans, n)
  }

  // ---- The same on ids ----

  /** b lies k links below a. */
  ghost predicate IdUnder(spans: seq<Row>, a: nat, b: nat, k: nat)
    decreases k
  {
    if k == 0 then a == b
    else exists i: nat :: i < |spans| && spans[i].id == b && spans[i].parent != 0 && IdUnder(spans, a, spans[i].parent, k - 1)
  }

  ghost predicate IdReachable(spans: seq<Row>, id: nat) {
    exists r: nat, k: nat :: r < |spans| && IsRoot(spans, r) && IdUnder(spans, spans[r].id, id, k)
  }

  ghost predicate IdAtOrAbove(spans: seq<Row>, a: nat, b: nat) {
    exists k: nat :: IdUnder(spans, a, b, k)
  }

  /** Span i hangs from the roots below its own id. */
  ghost predicate LoopsAt(spans: seq<Row>, i: nat) {
    && i < |spans| && spans[i].parent != 0
    && IdReachable(spans, spans[i].parent) && IdAtOrAbove(spans, spans[i].id, spans[i].parent)
  }

  ghost predicate IdEnds(spans: seq<Row>, id: nat, n: nat)
    decreases n
  {
    n > 0 && forall i | 0 <= i < |spans| && spans[i].parent == id && id != 0 :: IdEnds(spans, spans[i].id, n - 1)
  }

  /** A node's children are the stand-ins of the spans naming its id as parent. */
  lemma {:induction false} EndsSame(spans: seq<Row>, p: nat, n: nat)
    requires p < |spans| && Stand(spans, p) == p
    ensures EndsAt(spans, p, n) <==> IdEnds(spans, spans[p].id, n)
    decreases n
  {
    hide Stand, LinkedKids;
    if n > 0 {
      LinkedKidsAre(spans, p, |spans|);
      forall i | 0 <= i < |spans| && spans[i].parent == spans[p].id && spans[p].id != 0
        ensures Stand(spans, i) in LinkedKids(spans, p, |spans|)
        ensures EndsAt(spans, Stand(spans, i), n - 1) <==> IdEnds(spans, spans[i].id, n - 1)
      {
        assert Hangs(spans, i, p);
        StandIs(spans, i);
        EndsSame(spans, Stand(spans, i), n - 1);
      }
    }
  }

  // ---- A loop never ends ----

  lemma {:induction false} EndsBelow(spans: seq<Row>, a: nat, b: nat, k: nat, n: nat)
    requires IdUnder(spans, a, b, k) && IdEnds(spans, a, n)
    ensures n > k && IdEnds(spans, b, n - k)
    decreases k
  {
    if k > 0 {
      var i: nat :| i < |spans| && spans[i].id == b && spans[i].parent != 0 && IdUnder(spans, a, spans[i].parent, k - 1);
      EndsBelow(spans, a, spans[i].parent, k - 1, n);
    }
  }

  lemma {:induction false} LoopDoesNotEnd(spans: seq<Row>, i: nat, k: nat, n: nat)
    requires i < |spans| && spans[i].parent != 0 && IdUnder(spans, spans[i].id, spans[i].parent, k)
    ensures !IdEnds(spans, spans[i].parent, n)
    decreases n
  {
    if IdEnds(spans, spans[i].parent, n) {
      EndsBelow(spans, spans[i].id, spans[i].parent, k, n - 1);
      LoopDoesNotEnd(spans, i, k, n - 1 - k);
    }
  }

  // ---- Without a loop every walk is shorter than the number of ids ----

  function Ids(spans: seq<Row>): set<nat> {
    set i | 0 <= i < |spans| :: spans[i].id
  }

  lemma {:induction false} Fewer(a: set<nat>, b: set<nat>)
    requires a <= b
    ensures |a| <= |b|
  {
    if a != {} {
      var x :| x in a;
      Fewer(a - {x}, b - {x});
    }
  }

  /** line: the ids from a root down to id. */
  lemma {:induction false} LooplessEnds(spans: seq<Row>, id: nat, line: set<nat>, n: nat)
    requires (forall i: nat :: !LoopsAt(spans, i)) && IdReachable(spans, id)
    requires line <= Ids(spans) && forall a | a in line :: IdAtOrAbove(spans, a, id)
    requires n == |Ids(spans)| - |line| + 1
    ensures IdEnds(spans, id, n)
    decreases Ids(spans) - line
  {
    Fewer(line, Ids(spans));
    forall i | 0 <= i < |spans| && spans[i].parent == id && id != 0 ensures IdEnds(spans, spans[i].id, n - 1) {
      var next := spans[i].id;
      assert !LoopsAt(spans, i);
      assert next in Ids(spans) && next !in line;
      assert |line + {next}| == |line| + 1;
      Fewer(line + {next}, Ids(spans));
      OneBelow(spans, i);
      forall a | a in line + {next} ensures IdAtOrAbove(spans, a, next) {
        if a == next {
          assert IdUnder(spans, next, next, 0);
        } else {
          var k: nat :| IdUnder(spans, a, id, k);
          assert IdUnder(spans, a, next, k + 1);
        }
      }
      LooplessEnds(spans, next, line + {next}, n - 1);
    }
  }

  lemma OneBelow(spans: seq<Row>, i: nat)
    requires i < |spans| && spans[i].parent != 0 && IdReachable(spans, spans[i].parent)
    ensures IdReachable(spans, spans[i].id)
  {
    var r: nat, k: nat :| r < |spans| && IsRoot(spans, r) && IdUnder(spans, spans[r].id, spans[i].parent, k);
    assert IdUnder(spans, spans[r].id, spans[i].id, k + 1);
  }

  /** The walk from the roots ends exactly if no span whose parent is reached carries an id at or above that parent. */
  lemma WalkEndsExactly(spans: seq<Row>)
    ensures WalkEnds(spans) <==> forall i: nat :: !LoopsAt(spans, i)
  {
    hide LinkedRoots, LinkedKids, Stand, EndsAt, IdEnds;
    LinkedRootsAre(spans, |spans|);
    forall r: nat, n: nat | r < |spans| && IsRoot(spans, r)
      ensures Stand(spans, r) in LinkedRoots(spans, |spans|)
      ensures EndsAt(spans, Stand(spans, r), n) <==> IdEnds(spans, spans[r].id, n)
    {
      StandIs(spans, r);
      EndsSame(spans, Stand(spans, r), n);
    }
    if WalkEnds(spans) {
      var n: nat :| AllEnd(spans, n);
      forall i: nat ensures !LoopsAt(spans, i) {
        if LoopsAt(spans, i) {
          var r: nat, k: nat :| r < |spans| && IsRoot(spans, r) && IdUnder(spans, spans[r].id, spans[i].parent, k);
          var m: nat :| IdUnder(spans, spans[i].id, spans[i].parent, m);
          assert Stand(spans, r) in LinkedRoots(spans, |spans|);
          EndsBelow(spans, spans[r].id, spans[i].parent, k, n);
          LoopDoesNotEnd(spans, i, m, n - k);
        }
      }
    }
    if forall i: nat :: !LoopsAt(spans, i) {
      var n := |Ids(spans)| + 1;
      forall s | s in LinkedRoots(spans, |spans|) ensures EndsAt(spans, s, n) {
        var r :| 0 <= r < |spans| && IsRoot(spans, r) && Stand(spans, r) == s;
        assert IdUnder(spans, spans[r].id, spans[r].id, 0);
        LooplessEnds(spans, spans[r].id, {}, n);
      }
      assert AllEnd(spans, n);
    }
  }

  // ---- When the reachable part is a forest ----

  /** A way from a root down: each span names the one before as its parent. */
  ghost predicate RowPath(spans: seq<Row>, q: seq<nat>) {
    && q != [] && (forall k | 0 <= k < |q| :: q[k] < |spans|)
    && spans[q[0]].parent == 0
    && forall k | 0 < k < |q| :: spans[q[k]].parent != 0 && spans[q[k]].parent == spans[q[k - 1]].id
  }

  ghost predicate LeadsTo(spans: seq<Row>, q: seq<nat>, id: nat) {
    RowPath(spans, q) && spans[q[|q| - 1]].id == id
  }

  /** Every id reached is reached in one way only. */
  ghost predicate Forest(spans: seq<Row>) {
    forall q, r, id | LeadsTo(spans, q, id) && LeadsTo(spans, r, id) :: q == r
  }

  /** A root, or a span whose parent is reached. */
  ghost predicate Hanging(spans: seq<Row>, i: nat) {
    i < |spans| && (spans[i].parent == 0 || IdReachable(spans, spans[i].parent))
  }

  ghost predicate HangingIdsDistinct(spans: seq<Row>) {
    forall i: nat, j: nat | Hanging(spans, i) && Hanging(spans, j) && spans[i].id == spans[j].id :: i == j
  }

  /** Any way down can be continued to what lies below its end. */
  lemma {:induction false} PathOn(spans: seq<Row>, q: seq<nat>, a: nat, b: nat, k: nat) returns (r: seq<nat>)
    requires LeadsTo(spans, q, a) && IdUnder(spans, a, b, k)
    ensures LeadsTo(spans, r, b) && |r| == |q| + k
    decreases k
  {
    if k == 0 {
      r := q;
    } else {
      var i: nat :| i < |spans| && spans[i].id == b && spans[i].parent != 0 && IdUnder(spans, a, spans[i].parent, k - 1);
      var front := PathOn(spans, q, a, spans[i].parent, k - 1);
      r := front + [i];
    }
  }

  lemma PathTo(spans: seq<Row>, i: nat) returns (q: seq<nat>)
    requires Hanging(spans, i)
    ensures RowPath(spans, q) && q[|q| - 1] == i
  {
    if spans[i].parent == 0 {
      q := [i];
    } else {
      var r: nat, k: nat :| r < |spans| && IsRoot(spans, r) && IdUnder(spans, spans[r].id, spans[i].parent, k);
      assert LeadsTo(spans, [r], spans[r].id);
      var front := PathOn(spans, [r], spans[r].id, spans[i].parent, k);
      q := front + [i];
    }
  }

  lemma {:induction false} PathReaches(spans: seq<Row>, q: seq<nat>)
    requires RowPath(spans, q)
    ensures Hanging(spans, q[|q| - 1]) && IdReachable(spans, spans[q[|q| - 1]].id)
    decreases |q|
  {
    var n := |q| - 1;
    if n == 0 {
      assert IdUnder(spans, spans[q[0]].id, spans[q[0]].id, 0);
    } else {
      assert RowPath(spans, q[..n]) && q[..n][n - 1] == q[n - 1];
      PathReaches(spans, q[..n]);
      OneBelow(spans, q[n]);
    }
  }

  lemma Shortened(spans: seq<Row>, q: seq<nat>)
    requires RowPath(spans, q)
    ensures var m := |q| - 1;
            && (m == 0 <==> spans[q[m]].parent == 0)
            && (m > 0 ==> LeadsTo(spans, q[..m], spans[q[m]].parent))
            && q == q[..m] + [q[m]]
  {
    var m := |q| - 1;
    if m > 0 {
      assert q[..m][m - 1] == q[m - 1];
    }
  }

  lemma {:induction false} OneWay(spans: seq<Row>, q: seq<nat>, r: seq<nat>, id: nat)
    requires HangingIdsDistinct(spans) && LeadsTo(spans, q, id) && LeadsTo(spans, r, id)
    ensures q == r
    decreases |q|
  {
    hide RowPath, Hanging, IdReachable;
    var m, n := |q| - 1, |r| - 1;
    PathReaches(spans, q);
    PathReaches(spans, r);
    Shortened(spans, q);
    Shortened(spans, r);
    Listed(spans, q);
    Listed(spans, r);
    assert q[m] == r[n];
    if m > 0 {
      OneWay(spans, q[..m], r[..n], spans[q[m]].parent);
    }
  }

  lemma Listed(spans: seq<Row>, q: seq<nat>)
    requires RowPath(spans, q)
    ensures q != [] && q[|q| - 1] < |spans|
  {
  }

  /** What the roots reach is a forest exactly if no two spans that hang from them share an id. */
  lemma ForestExactly(spans: seq<Row>)
    ensures Forest(spans) <==> HangingIdsDistinct(spans)
  {
    if Forest(spans) {
      forall i: nat, j: nat | Hanging(spans, i) && Hanging(spans, j) && spans[i].id == spans[j].id ensures i == j {
        var q := PathTo(spans, i);
        var r := PathTo(spans, j);
        assert LeadsTo(spans, q, spans[i].id) && LeadsTo(spans, r, spans[i].id);
      }
    }
    if HangingIdsDistinct(spans) {
      forall q, r, id | LeadsTo(spans, q, id) && LeadsTo(spans, r, id) ensures q == r {
        OneWay(spans, q, r, id);
      }
    }
  }

  /** A loop leads back to its id. */
  lemma LoopLeadsTwice(spans: seq<Row>, i: nat) returns (q: seq<nat>, r: seq<nat>)
    requires LoopsAt(spans, i)
    ensures LeadsTo(spans, q, spans[i].id) && LeadsTo(spans, r, spans[i].id) && |q| < |r|
  {
    var k: nat :| IdUnder(spans, spans[i].id, spans[i].parent, k);
    q := PathTo(spans, i);
    var around := PathOn(spans, q, spans[i].id, spans[i].parent, k);
    r := around + [i];
  }

  /** In a forest every walk ends. */
  lemma ForestsEnd(spans: seq<Row>)
    requires Forest(spans)
    ensures WalkEnds(spans)
  {
    hide WalkEnds, RowPath;
    forall i: nat ensures !LoopsAt(spans, i) {
      if LoopsAt(spans, i) {
        var q, r := LoopLeadsTwice(spans, i);
      }
    }
    WalkEndsExactly(spans);
  }

  /** A trace with a repeated id whose root's node becomes its own child. */
  const TWICE := [Row(1, 0, "a", 0, 1, ""), Row(1, 1, "a", 0, 1, "")]

  /** The second span's node is the only root and its own only child; the first span's node is linked nowhere; the walk never ends. */
  lemma RootIsItsOwnChild()
    ensures LinkedRoots(TWICE, 2) == [1] && LinkedKids(TWICE, 1, 2) == [1] && LinkedKids(TWICE, 0, 2) == []
    ensures !WalkEnds(TWICE)
  {
    hide WalkEnds;
    assert Stand(TWICE, 0) == 1 && Stand(TWICE, 1) == 1;
    assert LinkedRoots(TWICE, 1) == [1];
    assert LinkedKids(TWICE, 1, 1) == [] && LinkedKids(TWICE, 0, 1) == [];
    assert IdUnder(TWICE, 1, 1, 0);
    assert IsRoot(TWICE, 0) && IdReachable(TWICE, 1);
    assert LoopsAt(TWICE, 1);
    WalkEndsExactly(TWICE);
  }
}
