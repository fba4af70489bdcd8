/** The optimizer on whole queries: which sets of passes preserve what a query means. */
module Optimizer {
  import opened Expressions
  import opened Options
  import opened Plans
  import opened Passes
  import opened PassMeaning
  import ConstantFolding

  // ---- What the lexer and grammar guarantee about a query ----

  predicate IdentPart(c: char) {
    'a' <= c <= 'z' || 'A' <= c <= 'Z' || '0' <= c <= '9' || c == '_' || c == '.'
  }

  predicate Ident(name: string) {
    name != [] && forall c | c in name :: IdentPart(c)
  }

  ghost predicate WellFormedStage(s: Stage) {
    match s
    case NumericFilter(field, _, _, _) => Ident(field)
    case Aggregation(exprs, _) => forall e | e in exprs && e.func != Count :: Ident(e.field)
    case SortStage(_) => true
    case LimitStage(_) => true
  }

  /** Names are identifiers, and only a count may go without a field. */
  ghost predicate WellFormedQuery(q: SelectQuery) {
    && (forall m | m in q.selector :: Ident(m.name))
    && forall s | s in q.stages :: WellFormedStage(s)
  }

  /** A comparison of a resolved field, as Build makes them. */
  ghost predicate Plain(t: Expr) {
    && t.Binary?
    && (exists name :: Ident(name) && t.left == ResolveField(name))
    && t.right.Literal?
    && (t.right.value.Num? || t.right.value.Str?)
    && (t.op == "=~" || t.op == "!~" || ConstantFolding.Gathers(t.op))
    && (RangeOp(t.op) ==> t.right.value.Num?)
    && (t.op == "=~" || t.op == "!~" ==> t.right.value.Str?)
  }

  lemma {:induction false} TermsArePlain(ms: seq<Matcher>, stages: seq<Stage>)
    requires forall m | m in ms :: Ident(m.name)
    requires forall s | s in stages :: WellFormedStage(s)
    ensures forall t | t in PartsOf(ms, stages).terms :: Plain(t)
  {
    hide Ident, KnownColumn;
    if stages == [] {
      forall t | t in MatcherTerms(ms) ensures Plain(t) {
        var i :| 0 <= i < |ms| && MatcherTerms(ms)[i] == t;
        assert ms[i] in ms && t.left == ResolveField(ms[i].name);
      }
    } else {
      var n := |stages| - 1;
      TermsArePlain(ms, stages[..n]);
      var s := stages[n];
      assert s in stages;
      if s.NumericFilter? {
        var t := Binary(CmpOpText(s.op), ResolveField(s.field), Literal(Num(s.value * UnitNanos(s.unit))));
        assert Plain(t);
        assert forall x | x in PartsOf(ms, stages).terms :: x in PartsOf(ms, stages[..n]).terms || x == t;
      }
    }
  }

  lemma {:induction false} AggIsWellFormed(ms: seq<Matcher>, stages: seq<Stage>)
    requires forall s | s in stages :: WellFormedStage(s)
    ensures var p := PartsOf(ms, stages); p.agg.Some? ==> p.agg.value.Aggregation? && WellFormedStage(p.agg.value)
  {
    if stages != [] {
      AggIsWellFormed(ms, stages[..|stages| - 1]);
      assert stages[|stages| - 1] in stages;
    }
  }

  // ---- Printed forms tell verbatim terms apart ----

  ghost predicate NoSpace(s: string) {
    ' ' !in s
  }

  /** The text before the first space is determined. */
  lemma SplitAtSpace(a: string, x: string, b: string, y: string)
    requires NoSpace(a) && NoSpace(b) && a + (" " + x) == b + (" " + y)
    ensures a == b && x == y
  {
    var s, t := a + (" " + x), b + (" " + y);
    assert s[|a|] == ' ' && t[|b|] == ' ';
    assert forall i | 0 <= i < |a| :: s[i] in a;
    assert forall i | 0 <= i < |b| :: t[i] in b;
    assert |a| == |b|;
    assert a == s[..|a|] && b == t[..|b|];
    assert x == s[|a| + 1..] && y == t[|b| + 1..];
  }

  lemma KnownColumnPlain(name: string)
    ensures KnownColumn(name).Some? ==> ' ' !in KnownColumn(name).value && '(' !in KnownColumn(name).value
  {
  }

  lemma FieldShows(env: Env, name: string)
    requires Ident(name)
    ensures NoSpace(Show(env, ResolveField(name)))
    ensures ResolveField(name).AttrRef? <==> '(' in Show(env, ResolveField(name))
    ensures ResolveField(name).AttrRef? ==> Show(env, ResolveField(name)) == "attr(" + name + ")"
  {
    hide KnownColumn;
    KnownColumnPlain(name);
    assert IdentPart(' ') == false;
    assert ' ' !in name;
    if ResolveField(name).AttrRef? {
      assert ("attr(" + name + ")")[4] == '(';
      assert forall c | c in "attr(" + name + ")" :: c in "attr(" || c in name || c == ')';
    }
  }

  lemma FieldShowsApart(env: Env, a: string, b: string)
    requires Ident(a) && Ident(b) && Show(env, ResolveField(a)) == Show(env, ResolveField(b))
    ensures ResolveField(a) == ResolveField(b)
  {
    hide KnownColumn;
    FieldShows(env, a);
    FieldShows(env, b);
    var s := Show(env, ResolveField(a));
    if ResolveField(a).AttrRef? {
      assert a == s[5..|s| - 1];
      assert b == s[5..|s| - 1];
    }
  }

  lemma TermShows(env: Env, t: Expr)
    requires t.Binary?
    ensures Show(env, t) == "(" + (Show(env, t.left) + (" " + (t.op + (" " + (Show(env, t.right) + ")")))))
  {
  }

  /** Two verbatim terms that print alike are the same term. */
  lemma PlainShowsApart(env: Env, s: Expr, t: Expr)
    requires Plain(s) && Plain(t) && ConstantFolding.Passes(s) && ConstantFolding.Passes(t)
    requires Show(env, s) == Show(env, t)
    ensures s == t
  {
    var a :| Ident(a) && s.left == ResolveField(a);
    var b :| Ident(b) && t.left == ResolveField(b);
    FieldShows(env, a);
    FieldShows(env, b);
    TermShows(env, s);
    TermShows(env, t);
    var x := Show(env, s.left) + (" " + (s.op + (" " + (Show(env, s.right) + ")"))));
    var y := Show(env, t.left) + (" " + (t.op + (" " + (Show(env, t.right) + ")"))));
    assert x == Show(env, s)[1..] && y == Show(env, t)[1..];
    SplitAtSpace(Show(env, s.left), s.op + (" " + (Show(env, s.right) + ")")),
                 Show(env, t.left), t.op + (" " + (Show(env, t.right) + ")")));
    FieldShowsApart(env, a, b);
    SplitAtSpace(s.op, Show(env, s.right) + ")", t.op, Show(env, t.right) + ")");
    var u, v := Show(env, s.right), Show(env, t.right);
    assert u == (u + ")")[..|u + ")"| - 1] && v == (v + ")")[..|v + ")"| - 1];
  }

  lemma PlainIsFoldable(env: Env, terms: seq<Expr>)
    requires forall t | t in terms :: Plain(t)
    ensures ConstantFolding.Foldable(env, terms)
  {
    hide Plain, ConstantFolding.Passes, ConstantFolding.RangesNumeric, Show;
    forall t | t in terms ensures ConstantFolding.RangesNumeric(t) {
      PlainRanges(t);
    }
    forall a, b | a in terms && b in terms && ConstantFolding.Passes(a) && ConstantFolding.Passes(b)
                  && Show(env, a) == Show(env, b)
      ensures a == b
    {
      PlainShowsApart(env, a, b);
    }
  }

  lemma PlainRanges(t: Expr)
    requires Plain(t)
    ensures ConstantFolding.RangesNumeric(t) && !IsAnd(t)
  {
  }

  // ---- The pipeline on a query ----

  /** A pipeline is sound unless it pushes limits while leaving filters unpushed. */
  predicate SoundSkips(skip: set<string>) {
    "predicate_pushdown" in skip ==> "limit_pushdown" in skip
  }

  function QueryParts(q: SelectQuery): Parts {
    PartsOf(q.selector, q.stages)
  }

  function QueryBase(q: SelectQuery): Base {
    Base(q.range, None, [], 0, AndAll(Somes(QueryParts(q).terms)), [])
  }

  lemma BuildShape(q: SelectQuery)
    ensures PartsTyped(QueryParts(q)) && Build(q) == Stack(Bottom(QueryBase(q)), QueryParts(q))
  {
    PartsAreTyped(q.selector, q.stages);
  }

  /** What each pass, or its absence, makes of the bottom of the plan. */
  function Optimized(env: Env, b0: Base, parts: Parts, skip: set<string>): Base
    requires PartsTyped(parts)
  {
    var b1 := if "constant_fold" in skip then b0 else Folded(env, b0);
    var b2 := if "predicate_pushdown" in skip then b1 else Pushed(b1);
    var b3 := if "partition_pruning" in skip then b2 else Pruned(env, b2);
    var b4 := if "limit_pushdown" in skip then b3 else Limited(b3, parts);
    if "projection_pushdown" in skip then b4 else Projected(b4, parts)
  }

  lemma OptimizedShape(env: Env, b0: Base, parts: Parts, skip: set<string>)
    requires PartsTyped(parts)
    ensures OptimizeExcept(env, Stack(Bottom(b0), parts), skip) == Stack(Bottom(Optimized(env, b0, parts, skip)), parts)
  {
    hide Bottom, ConstantFold, PredicatePushdown, PartitionPruning, LimitPushdown, ProjectionPushdown,
         Folded, Pushed, Pruned, Limited, Projected, Stack;
    var b1 := if "constant_fold" in skip then b0 else Folded(env, b0);
    var b2 := if "predicate_pushdown" in skip then b1 else Pushed(b1);
    var b3 := if "partition_pruning" in skip then b2 else Pruned(env, b2);
    var b4 := if "limit_pushdown" in skip then b3 else Limited(b3, parts);
    ConstantFoldShape(env, b0, parts);
    PredicatePushdownShape(b1, parts);
    PartitionPruningShape(env, b2, parts);
    LimitPushdownShape(b3, parts);
    ProjectionPushdownShape(b4, parts);
  }

  /** Folding touches only the filter; pruning touches only the scan's predicate. */
  lemma FoldedRest(env: Env, b: Base)
    ensures Folded(env, b) == b.(filterPred := Folded(env, b).filterPred)
  {
  }

  lemma QueryFoldable(env: Env, q: SelectQuery)
    requires WellFormedQuery(q)
    ensures var pred := QueryBase(q).filterPred;
            pred.Some? ==> ConstantFolding.Foldable(env, FlattenAnd(pred.value))
    ensures PartsTyped(QueryParts(q)) && AggNamesFields(QueryParts(q))
  {
    hide Plain, ConstantFolding.Foldable, Ident;
    TermsArePlain(q.selector, q.stages);
    AggIsWellFormed(q.selector, q.stages);
    AggFieldsNamed(q);
    var terms := QueryParts(q).terms;
    forall t | t in terms ensures !IsAnd(t) {
      PlainRanges(t);
    }
    FlattenAndAll(terms);
    PlainIsFoldable(env, terms);
  }

  lemma AggFieldsNamed(q: SelectQuery)
    requires WellFormedQuery(q)
    ensures PartsTyped(QueryParts(q)) && AggNamesFields(QueryParts(q))
  {
    PartsAreTyped(q.selector, q.stages);
    AggIsWellFormed(q.selector, q.stages);
  }

  lemma OptimizedMeaning(env: Env, b0: Base, parts: Parts, skip: set<string>, table: seq<Row>)
    requires PartsTyped(parts) && AggNamesFields(parts) && SoundSkips(skip)
    requires b0.scanPred.None? && b0.columns == [] && b0.limit == 0 && b0.projected == []
    requires b0.filterPred.Some? ==> ConstantFolding.Foldable(env, FlattenAnd(b0.filterPred.value))
    ensures Upper(env, parts, BaseRows(env, Optimized(env, b0, parts, skip), table)) ==
            Upper(env, parts, BaseRows(env, b0, table))
  {
    hide BaseRows, Upper, Folded, Pruned, Projected, ConstantFolding.Foldable, AggNamesFields;
    var b1 := if "constant_fold" in skip then b0 else Folded(env, b0);
    var b2 := if "predicate_pushdown" in skip then b1 else Pushed(b1);
    var b3 := if "partition_pruning" in skip then b2 else Pruned(env, b2);
    var b4 := if "limit_pushdown" in skip then b3 else Limited(b3, parts);
    FoldedRest(env, b0);
    FoldedMeaning(env, b0, table);
    PushedMeaning(env, b1, table);
    PrunedRest(env, b2);
    PrunedMeaning(env, b2, table);
    if "limit_pushdown" !in skip {
      LimitedMeaning(env, b3, parts, table);
    }
    ProjectedMeaning(env, b4, parts, table);
  }

  /** A sound pipeline leaves the meaning of every query alone, on every table. */
  lemma OptimizePreservesMeaning(env: Env, q: SelectQuery, skip: set<string>, table: seq<Row>)
    requires WellFormedQuery(q) && SoundSkips(skip)
    ensures Meaning(env, OptimizeExcept(env, Build(q), skip), table) == Meaning(env, Build(q), table)
  {
    hide Meaning, Stack, Bottom, BaseRows, Upper, OptimizeExcept, Optimized, WellFormedQuery, ConstantFolding.Foldable,
         AggNamesFields, PartsOf, Build;
    var b0, parts := QueryBase(q), QueryParts(q);
    BuildShape(q);
    QueryFoldable(env, q);
    OptimizedShape(env, b0, parts, skip);
    StackMeaning(env, b0, parts, table);
    StackMeaning(env, Optimized(env, b0, parts, skip), parts, table);
    BottomMeaning(env, b0, table);
    BottomMeaning(env, Optimized(env, b0, parts, skip), table);
    OptimizedMeaning(env, b0, parts, skip, table);
  }

  // ---- Why the condition is exact ----

  /** {service="a"} | limit 1 */
  const FIRST_OF_A := SelectQuery([Matcher("service", OpEq, "a")], TimeRange(0, 10), [LimitStage(1)])

  const TERM_A := Binary("=", ColumnRef("service_name"), Literal(Str("a")))

  function SpanAt(service: string): Row {
    map["timestamp" := Scalar(Cell("1", Some(1.0))), "service_name" := Scalar(Cell(service, None))]
  }

  /** A span of b before a span of a. */
  const B_THEN_A: seq<Row> := [SpanAt("b"), SpanAt("a")]

  lemma FirstOfAParts()
    ensures QueryParts(FIRST_OF_A) == Parts([TERM_A], None, None, Some(LimitStage(1)))
    ensures QueryBase(FIRST_OF_A) == Base(TimeRange(0, 10), None, [], 0, Some(TERM_A), [])
    ensures WellFormedQuery(FIRST_OF_A)
  {
    var q := FIRST_OF_A;
    assert q.stages[..0] == [];
    assert MatcherTerms(q.selector) == [TERM_A];
    assert PartsOf(q.selector, []) == Parts([TERM_A], None, None, None);
    assert PartsOf(q.selector, q.stages) == AddStage(PartsOf(q.selector, q.stages[..0]), q.stages[0]);
    assert Somes([TERM_A]) == [Some(TERM_A)];
    assert AndAll([Some(TERM_A)][..0]) == None;
    assert AndAll([Some(TERM_A)]) == Some(TERM_A);
    assert Ident("service");
  }

  lemma RowsOfA(env: Env)
    ensures InRange(TimeRange(0, 10), SpanAt("a")) && InRange(TimeRange(0, 10), SpanAt("b"))
    ensures Keeps(env, SpanAt("a"), Some(TERM_A)) && !Keeps(env, SpanAt("b"), Some(TERM_A))
  {
  }

  lemma WhereTwoRows(f: Row -> bool)
    ensures Where(B_THEN_A, f) ==
            (if f(SpanAt("b")) then [SpanAt("b")] else []) + (if f(SpanAt("a")) then [SpanAt("a")] else [])
  {
    assert B_THEN_A[..1] == [SpanAt("b")];
    assert [SpanAt("b")][..0] == [];
    assert Where([SpanAt("b")], f) == if f(SpanAt("b")) then [SpanAt("b")] else [];
  }

  lemma WhereOneRow(f: Row -> bool)
    ensures Where([SpanAt("b")], f) == if f(SpanAt("b")) then [SpanAt("b")] else []
  {
    assert [SpanAt("b")][..0] == [];
  }

  lemma UnoptimizedFindsA(env: Env)
    ensures BaseRows(env, QueryBase(FIRST_OF_A), B_THEN_A) == [SpanAt("a")]
  {
    FirstOfAParts();
    RowsOfA(env);
    var b := QueryBase(FIRST_OF_A);
    var f := (r: Row) => InRange(b.range, r) && Keeps(env, r, b.scanPred);
    var g := (r: Row) => Keeps(env, r, b.filterPred);
    WhereTwoRows(f);
    assert Where(B_THEN_A, f) == B_THEN_A;
    RestrictNone(B_THEN_A);
    WhereTwoRows(g);
    RestrictNone([SpanAt("a")]);
  }

  lemma LimitedBeforeFilterFindsNothing(env: Env, b: Base)
    requires b.range == TimeRange(0, 10) && b.columns == [] && b.limit == 1 && b.projected == []
    requires InRange(b.range, SpanAt("a")) && Keeps(env, SpanAt("a"), b.scanPred)
    requires InRange(b.range, SpanAt("b")) && Keeps(env, SpanAt("b"), b.scanPred)
    requires !Keeps(env, SpanAt("b"), b.filterPred)
    ensures BaseRows(env, b, B_THEN_A) == []
  {
    hide InRange, Keeps, Restrict;
    var f := (r: Row) => InRange(b.range, r) && Keeps(env, r, b.scanPred);
    var g := (r: Row) => Keeps(env, r, b.filterPred);
    WhereTwoRows(f);
    assert Where(B_THEN_A, f) == B_THEN_A;
    assert Take(B_THEN_A, 1) == [SpanAt("b")];
    RestrictNone([SpanAt("b")]);
    WhereOneRow(g);
    assert Where([SpanAt("b")], g) == [];
  }

  lemma FoldedKeepsSame(env: Env, row: Row)
    ensures var b := QueryBase(FIRST_OF_A);
            Keeps(env, row, Folded(env, b).filterPred) == Keeps(env, row, b.filterPred)
  {
    hide ConstantFolding.Foldable, ConstantFolding.SimplifyAnd;
    FirstOfAParts();
    QueryFoldable(env, FIRST_OF_A);
    ConstantFolding.SimplifyAndKeeps(env, row, FlattenAnd(TERM_A));
    AndOfKeeps(env, row, ConstantFolding.SimplifyAnd(env, FlattenAnd(TERM_A)));
    FlattenKeeps(env, row, TERM_A);
  }

  lemma UnsoundSkipsLoseRows(env: Env, skip: set<string>)
    requires !SoundSkips(skip)
    ensures Meaning(env, OptimizeExcept(env, Build(FIRST_OF_A), skip), B_THEN_A) !=
            Meaning(env, Build(FIRST_OF_A), B_THEN_A)
  {
    hide BaseRows, Folded, Pruned, QueryBase, QueryParts, Meaning, Build, OptimizeExcept, Stack, Bottom, Keeps, InRange;
    var q := FIRST_OF_A;
    FirstOfAParts();
    RowsOfA(env);
    var b0, parts := QueryBase(q), QueryParts(q);
    var b1 := if "constant_fold" in skip then b0 else Folded(env, b0);
    var b3 := if "partition_pruning" in skip then b1 else Pruned(env, b1);
    var b4 := Optimized(env, b0, parts, skip);
    FoldedRest(env, b0);
    FoldedKeepsSame(env, SpanAt("b"));
    PrunedRest(env, b1);
    NilKeeps(env, SpanAt("a"));
    NilKeeps(env, SpanAt("b"));
    PrunedKeeps(env, b1, SpanAt("a"));
    PrunedKeeps(env, b1, SpanAt("b"));
    assert b4 == b3.(limit := 1);
    LimitedBeforeFilterFindsNothing(env, b4);
    UnoptimizedFindsA(env);
    BuildShape(q);
    OptimizedShape(env, b0, parts, skip);
    StackMeaning(env, b0, parts, B_THEN_A);
    StackMeaning(env, b4, parts, B_THEN_A);
    BottomMeaning(env, b0, B_THEN_A);
    BottomMeaning(env, b4, B_THEN_A);
  }

  lemma NilKeeps(env: Env, row: Row)
    ensures Keeps(env, row, None)
  {
  }

  ghost predicate PreservesEveryQuery(env: Env, skip: set<string>) {
    forall q, table | WellFormedQuery(q) ::
      Meaning(env, OptimizeExcept(env, Build(q), skip), table) == Meaning(env, Build(q), table)
  }

  /** Skipping a set of passes is harmless for every query exactly when limits are not pushed past unpushed filters. */
  lemma SoundSkipsExact(env: Env, skip: set<string>)
    ensures PreservesEveryQuery(env, skip) <==> SoundSkips(skip)
  {
    hide WellFormedQuery, Meaning, OptimizeExcept, Build;
    if SoundSkips(skip) {
      forall q, table | WellFormedQuery(q)
        ensures Meaning(env, OptimizeExcept(env, Build(q), skip), table) == Meaning(env, Build(q), table)
      {
        OptimizePreservesMeaning(env, q, skip, table);
      }
    } else {
      FirstOfAParts();
      UnsoundSkipsLoseRows(env, skip);
    }
  }
}
