/** What the parent links of a trace's spans amount to: which spans are roots, orphans and children, and why walks from roots end. */
module SpanForest {
  /** A span as far as the tree looks at it; a root's parent id is all zero. */
  datatype Row = Row(id: nat, parent: nat, service: string, start: int, duration: nat, status: string)

  predicate IsRoot(spans: seq<Row>, i: nat)
    requires i < |spans|
  {
    spans[i].parent == 0
  }

  /** p is the span i names as its parent. */
  predicate IsChild(spans: seq<Row>, i: nat, p: nat) {
    i < |spans| && p < |spans| && spans[i].parent != 0 && spans[p].id == spans[i].parent
  }

  ghost predicate IsOrphan(spans: seq<Row>, i: nat)
    requires i < |spans|
  {
    spans[i].parent != 0 && forall p | 0 <= p < |spans| :: spans[p].id != spans[i].parent
  }

  ghost predicate DistinctIds(spans: seq<Row>) {
    forall i, j | 0 <= i < |spans| && 0 <= j < |spans| && spans[i].id == spans[j].id :: i == j
  }

  /** Every span is exactly one of a root, an orphan, or the child of exactly one span. */
  lemma OneRole(spans: seq<Row>, i: nat)
    requires DistinctIds(spans) && i < |spans|
    ensures IsRoot(spans, i) ==> !IsOrphan(spans, i) && forall p :: !IsChild(spans, i, p)
    ensures IsOrphan(spans, i) ==> forall p :: !IsChild(spans, i, p)
    ensures !IsRoot(spans, i) && !IsOrphan(spans, i) ==> exists p :: IsChild(spans, i, p)
    ensures forall p, q | IsChild(spans, i, p) && IsChild(spans, i, q) :: p == q
  {
    if !IsRoot(spans, i) && !IsOrphan(spans, i) {
      var p :| 0 <= p < |spans| && spans[p].id == spans[i].parent;
      assert IsChild(spans, i, p);
    }
  }

  /** i lies d links below a root. */
  ghost predicate Depth(spans: seq<Row>, i: nat, d: nat)
    decreases d
  {
    if d == 0 then i < |spans| && IsRoot(spans, i)
    else exists p: nat :: IsChild(spans, i, p) && Depth(spans, p, d - 1)
  }

  ghost predicate Reachable(spans: seq<Row>, i: nat) {
    exists d: nat :: Depth(spans, i, d)
  }

  /** A span is reached at one depth only: what hangs below the roots is a forest. */
  lemma {:induction false} DepthUnique(spans: seq<Row>, i: nat, d: nat, e: nat)
    requires DistinctIds(spans) && Depth(spans, i, d) && Depth(spans, i, e)
    ensures d == e
    decreases d
  {
    if d > 0 && e > 0 {
      var p: nat :| IsChild(spans, i, p) && Depth(spans, p, d - 1);
      var q: nat :| IsChild(spans, i, q) && Depth(spans, q, e - 1);
      OneRole(spans, i);
      DepthUnique(spans, p, d - 1, e - 1);
    }
  }

  ghost predicate Within(spans: seq<Row>, j: nat, d: nat) {
    exists e: nat :: e <= d && Depth(spans, j, e)
  }

  /** The spans on the way from the root to i. */
  lemma {:induction false} Ancestry(spans: seq<Row>, i: nat, d: nat) returns (line: set<nat>)
    requires DistinctIds(spans) && Depth(spans, i, d)
    ensures |line| == d + 1 && forall j | j in line :: j < |spans| && Within(spans, j, d)
    decreases d
  {
    if d == 0 {
      line := {i};
    } else {
      var p: nat :| IsChild(spans, i, p) && Depth(spans, p, d - 1);
      line := Ancestry(spans, p, d - 1);
      if i in line {
        var e: nat :| e <= d - 1 && Depth(spans, i, e);
        DepthUnique(spans, i, d, e);
      }
      assert i !in line;
      line := line + {i};
    }
  }

  lemma {:induction false} AtMost(line: set<nat>, n: nat)
    requires forall j | j in line :: j < n
    ensures |line| <= n
  {
    if n > 0 {
      AtMost(line - {n - 1}, n - 1);
      assert line - {n - 1} == if n - 1 in line then line - {n - 1} else line;
    } else {
      assert line == {};
    }
  }

  /** No walk down from a root is longer than the trace. */
  lemma DepthBounded(spans: seq<Row>, i: nat, d: nat)
    requires DistinctIds(spans) && Depth(spans, i, d)
    ensures d < |spans|
  {
    var line := Ancestry(spans, i, d);
    AtMost(line, |spans|);
  }

  lemma ChildDeeper(spans: seq<Row>, i: nat, p: nat, d: nat)
    requires IsChild(spans, i, p) && Depth(spans, p, d)
    ensures Depth(spans, i, d + 1)
  {
  }

  // ---- The lists BuildTree fills, one span after another ----

  function Kids(spans: seq<Row>, p: nat, n: nat): seq<nat>
    requires n <= |spans|
  {
    if n == 0 then [] else Kids(spans, p, n - 1) + (if IsChild(spans, n - 1, p) then [n - 1] else [])
  }

  function Roots(spans: seq<Row>, n: nat): seq<nat>
    requires n <= |spans|
  {
    if n == 0 then [] else Roots(spans, n - 1) + (if IsRoot(spans, n - 1) then [n - 1] else [])
  }

  ghost function Orphans(spans: seq<Row>, n: nat): seq<nat>
    requires n <= |spans|
  {
    if n == 0 then [] else Orphans(spans, n - 1) + (if IsOrphan(spans, n - 1) then [n - 1] else [])
  }

  ghost predicate Increasing(q: seq<nat>) {
    forall i, j | 0 <= i < j < |q| :: q[i] < q[j]
  }

  lemma IncreasingWith(q: seq<nat>, x: nat)
    requires Increasing(q) && forall y | y in q :: y < x
    ensures Increasing(q + [x])
  {
    forall i, j | 0 <= i < j < |q + [x]| ensures (q + [x])[i] < (q + [x])[j] {
      if j == |q| {
        assert q[i] in q;
      }
    }
  }

  lemma {:induction false} KidsAre(spans: seq<Row>, p: nat, n: nat)
    requires n <= |spans|
    ensures Increasing(Kids(spans, p, n)) && forall i :: i in Kids(spans, p, n) <==> 0 <= i < n && IsChild(spans, i, p)
  {
    if n > 0 {
      KidsAre(spans, p, n - 1);
      IncreasingWith(Kids(spans, p, n - 1), n - 1);
    }
  }

  lemma {:induction false} RootsAre(spans: seq<Row>, n: nat)
    requires n <= |spans|
    ensures Increasing(Roots(spans, n)) && forall i :: i in Roots(spans, n) <==> 0 <= i < n && IsRoot(spans, i)
  {
    if n > 0 {
      RootsAre(spans, n - 1);
      IncreasingWith(Roots(spans, n - 1), n - 1);
    }
  }

  lemma {:induction false} OrphansAre(spans: seq<Row>, n: nat)
    requires n <= |spans|
    ensures Increasing(Orphans(spans, n)) && forall i :: i in Orphans(spans, n) <==> 0 <= i < n && IsOrphan(spans, i)
  {
    if n > 0 {
      OrphansAre(spans, n - 1);
      IncreasingWith(Orphans(spans, n - 1), n - 1);
    }
  }

  // ---- The same lists when ids repeat: a later span with an id takes the earlier one's place ----

  /** The last span with an id among the first n; n if there is none. */
  function LastWith(spans: seq<Row>, id: nat, n: nat): (i: nat)
    requires n <= |spans|
    ensures i <= |spans|
  {
    if n == 0 then |spans| else if spans[n - 1].id == id then n - 1 else LastWith(spans, id, n - 1)
  }

  /** The span whose node stands for span i. */
  function Stand(spans: seq<Row>, i: nat): nat
    requires i < |spans|
  {
    LastWith(spans, spans[i].id, |spans|)
  }

  /** Span i hangs below the node of span p. */
  ghost predicate Hangs(spans: seq<Row>, i: nat, p: nat) {
    IsChild(spans, i, p) && Stand(spans, p) == p
  }

  ghost function LinkedKids(spans: seq<Row>, p: nat, n: nat): seq<nat>
    requires n <= |spans|
  {
    if n == 0 then [] else LinkedKids(spans, p, n - 1) + (if Hangs(spans, n - 1, p) then [Stand(spans, n - 1)] else [])
  }

  /** The spans that hang below p. */
  ghost function LinkedRows(spans: seq<Row>, p: nat, n: nat): seq<nat>
    requires n <= |spans|
  {
    if n == 0 then [] else LinkedRows(spans, p, n - 1) + (if Hangs(spans, n - 1, p) then [n - 1] else [])
  }

  function LinkedRoots(spans: seq<Row>, n: nat): seq<nat>
    requires n <= |spans|
  {
    if n == 0 then [] else LinkedRoots(spans, n - 1) + (if IsRoot(spans, n - 1) then [Stand(spans, n - 1)] else [])
  }

  lemma {:induction false} LastIs(spans: seq<Row>, id: nat, n: nat)
    requires n <= |spans|
    ensures LastWith(spans, id, n) < |spans| <==> exists i :: 0 <= i < n && spans[i].id == id
    ensures LastWith(spans, id, n) < |spans| ==>
              LastWith(spans, id, n) < n && spans[LastWith(spans, id, n)].id == id
              && forall i | LastWith(spans, id, n) < i < n :: spans[i].id != id
  {
    if n > 0 {
      LastIs(spans, id, n - 1);
    }
  }

  /** A span's stand-in carries its id and stands for itself. */
  lemma StandIs(spans: seq<Row>, i: nat)
    requires i < |spans|
    ensures Stand(spans, i) < |spans| && spans[Stand(spans, i)].id == spans[i].id
    ensures Stand(spans, Stand(spans, i)) == Stand(spans, i)
    ensures forall j | 0 <= j < |spans| && spans[j].id == spans[i].id :: Stand(spans, j) == Stand(spans, i)
  {
    LastIs(spans, spans[i].id, |spans|);
  }

  lemma {:induction false} LinkedKidsAre(spans: seq<Row>, p: nat, n: nat)
    requires n <= |spans|
    ensures forall c :: c in LinkedKids(spans, p, n) <==> exists i :: 0 <= i < n && Hangs(spans, i, p) && Stand(spans, i) == c
  {
    hide Hangs, Stand;
    if n > 0 {
      LinkedKidsAre(spans, p, n - 1);
    }
  }

  /** The k-th child is the stand-in of the k-th span that hangs below p. */
  lemma {:induction false} RowsBehindKids(spans: seq<Row>, p: nat, n: nat)
    requires n <= |spans|
    ensures var rows := LinkedRows(spans, p, n);
            && Increasing(rows) && |rows| == |LinkedKids(spans, p, n)|
            && (forall i :: i in rows <==> 0 <= i < n && Hangs(spans, i, p))
            && forall k | 0 <= k < |rows| :: rows[k] < |spans| && LinkedKids(spans, p, n)[k] == Stand(spans, rows[k])
  {
    hide Hangs, Stand;
    if n > 0 {
      RowsBehindKids(spans, p, n - 1);
      IncreasingWith(LinkedRows(spans, p, n - 1), n - 1);
    }
  }

  /** The k-th root is the stand-in of the k-th root span. */
  lemma {:induction false} RowsBehindRoots(spans: seq<Row>, n: nat)
    requires n <= |spans|
    ensures var rows := Roots(spans, n);
            && |rows| == |LinkedRoots(spans, n)|
            && forall k | 0 <= k < |rows| :: rows[k] < |spans| && LinkedRoots(spans, n)[k] == Stand(spans, rows[k])
  {
    hide Stand, IsRoot;
    if n > 0 {
      RowsBehindRoots(spans, n - 1);
    }
  }

  lemma {:induction false} LinkedRootsAre(spans: seq<Row>, n: nat)
    requires n <= |spans|
    ensures forall r :: r in LinkedRoots(spans, n) <==> exists i :: 0 <= i < n && IsRoot(spans, i) && Stand(spans, i) == r
  {
    hide Stand;
    if n > 0 {
      LinkedRootsAre(spans, n - 1);
    }
  }

  /** With distinct ids every span stands for itself, so both forms of the lists agree. */
  lemma {:induction false} DistinctLinks(spans: seq<Row>, p: nat, n: nat)
    requires DistinctIds(spans) && n <= |spans|
    ensures LinkedRoots(spans, n) == Roots(spans, n)
    ensures p < |spans| ==> LinkedKids(spans, p, n) == Kids(spans, p, n)
  {
    if n > 0 {
      StandIs(spans, n - 1);
      DistinctLinks(spans, p, n - 1);
      if p < |spans| {
        StandIs(spans, p);
      }
    }
  }
}
