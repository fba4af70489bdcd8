/** That the optimizer's passes do their work: what a fully optimized query scans, keeps, stops at and reads. */
module PassEffects {
  import opened Expressions
  import opened Options
  import opened Plans
  import opened Passes
  import opened PassMeaning
  import opened Optimizer
  import opened QueryMeaning
  import ConstantFolding
  import Q = QueryCompiler
  import Sorting

  // ---- Exactly the columns a plan refers to ----

  ghost predicate FieldRefers(name: string, c: string) {
    if name in COLUMN_OF then c == COLUMN_OF[name] else c == "span_attributes" || c == "resource_attributes"
  }

  ghost predicate ExprRefers(e: Expr, c: string) {
    match e
    case ColumnRef(name) => c == name
    case AttrRef(_) => c == "span_attributes" || c == "resource_attributes"
    case Binary(_, l, r) => ExprRefers(l, c) || ExprRefers(r, c)
    case Literal(_) => false
  }

  ghost predicate NodeRefers(p: Plan, c: string) {
    match p
    case Scan(_, _, pred, _, _) => pred.Some? && ExprRefers(pred.value, c)
    case Filter(_, pred) => pred.Some? && ExprRefers(pred.value, c)
    case Aggregate(_, exprs, groupBy) =>
      (exists f :: f in groupBy && FieldRefers(f, c)) || exists e :: e in exprs && e.field != "" && FieldRefers(e.field, c)
    case Sort(_, fields) => exists f :: f in fields && FieldRefers(f.field, c)
    case _ => false
  }

  ghost predicate PlanRefers(p: Plan, c: string) {
    NodeRefers(p, c) || (!p.Scan? && PlanRefers(p.input, c))
  }

  lemma FieldColumnsAre(name: string, c: string)
    ensures c in FieldColumns(name) <==> FieldRefers(name, c)
  {
  }

  lemma {:induction false} ExprColumnsAre(e: Expr, c: string)
    ensures c in ExprColumns(e) <==> ExprRefers(e, c)
  {
    if e.Binary? {
      ExprColumnsAre(e.left, c);
      ExprColumnsAre(e.right, c);
    }
  }

  lemma {:induction false} FieldsColumnsAre(names: seq<string>, c: string)
    ensures c in FieldsColumns(names) <==> exists f :: f in names && FieldRefers(f, c)
  {
    hide FieldColumns, FieldRefers;
    if names != [] {
      var n := |names| - 1;
      FieldsColumnsAre(names[..n], c);
      FieldColumnsAre(names[n], c);
      assert names == names[..n] + [names[n]];
    }
  }

  lemma {:induction false} AggFieldsAre(exprs: seq<AggExpr>, f: string)
    ensures f in AggFields(exprs) <==> exists e :: e in exprs && e.field != "" && e.field == f
  {
    if exprs != [] {
      var n := |exprs| - 1;
      AggFieldsAre(exprs[..n], f);
      assert exprs == exprs[..n] + [exprs[n]];
    }
  }

  lemma NodeColumnsAre(p: Plan, c: string)
    ensures c in NodeColumns(p) <==> NodeRefers(p, c)
  {
    hide FieldsColumns, FieldRefers, ExprColumns, ExprRefers, AggFields;
    match p {
      case Scan(_, _, pred, _, _) =>
        if pred.Some? {
          ExprColumnsAre(pred.value, c);
        }
      case Filter(_, pred) =>
        if pred.Some? {
          ExprColumnsAre(pred.value, c);
        }
      case Aggregate(_, exprs, groupBy) =>
        FieldsColumnsAre(groupBy, c);
        FieldsColumnsAre(AggFields(exprs), c);
        forall f ensures f in AggFields(exprs) <==> exists e :: e in exprs && e.field != "" && e.field == f {
          AggFieldsAre(exprs, f);
        }
      case Sort(_, fields) =>
        FieldsColumnsAre(SortNames(fields), c);
        forall f ensures f in SortNames(fields) <==> exists s :: s in fields && s.field == f {
          SortNamesAre(fields, f);
        }
      case _ =>
    }
  }

  lemma SortNamesAre(fields: seq<SortField>, f: string)
    ensures f in SortNames(fields) <==> exists s :: s in fields && s.field == f
  {
    if f in SortNames(fields) {
      var i :| 0 <= i < |fields| && SortNames(fields)[i] == f;
      assert fields[i] in fields;
    }
    if s :| s in fields && s.field == f {
      var i :| 0 <= i < |fields| && fields[i] == s;
      assert SortNames(fields)[i] == f;
    }
  }

  lemma {:induction false} ReferencedAre(p: Plan, c: string)
    ensures c in ReferencedColumns(p) <==> c == "timestamp" || c == "sampling_weight" || PlanRefers(p, c)
  {
    hide NodeColumns, NodeRefers;
    NodeColumnsAre(p, c);
    if !p.Scan? {
      ReferencedAre(p.input, c);
    }
  }

  lemma {:induction false} DedupDistinct(q: seq<string>)
    ensures forall i, j | 0 <= i < j < |Dedup(q)| :: Dedup(q)[i] != Dedup(q)[j]
  {
    if q != [] {
      DedupDistinct(q[..|q| - 1]);
      var before := Dedup(q[..|q| - 1]);
      assert forall i | 0 <= i < |before| :: before[i] in before;
    }
  }

  /** The columns scanned are those the plan refers to, with time and weight, each once and in order. */
  lemma NeededExactly(p: Plan, c: string)
    ensures c in NeededColumns(p) <==> c == "timestamp" || c == "sampling_weight" || PlanRefers(p, c)
    ensures Sorting.Ascending(NeededColumns(p))
  {
    hide ReferencedColumns, PlanRefers, Sorting.SortStrings, Sorting.AtMost, Dedup;
    ReferencedAre(p, c);
    DedupSame(ReferencedColumns(p), c);
    DedupDistinct(ReferencedColumns(p));
    Sorting.SortedStringsSame(Dedup(ReferencedColumns(p)));
    Sorting.SortedAscending(Dedup(ReferencedColumns(p)));
  }

  // ---- The bottom of a fully optimized query ----

  /** What the query's own terms are after folding. */
  ghost function FoldedTerms(env: Env, q: SelectQuery): seq<Expr> {
    if QueryParts(q).terms == [] then [] else ConstantFolding.SimplifyAnd(env, QueryParts(q).terms)
  }

  lemma FoldedBase(env: Env, q: SelectQuery)
    requires WellFormedQuery(q)
    ensures Folded(env, QueryBase(q)) == QueryBase(q).(filterPred := AndAll(Somes(FoldedTerms(env, q))))
  {
    hide Plain, Ident, ConstantFolding.SimplifyAnd;
    var terms := QueryParts(q).terms;
    TermsArePlain(q.selector, q.stages);
    forall t | t in terms ensures !IsAnd(t) {
      PlainRanges(t);
    }
    FlattenAndAll(terms);
  }

  lemma FoldedTame(env: Env, q: SelectQuery)
    requires WellFormedQuery(q)
    ensures forall t | t in FoldedTerms(env, q) :: Q.Tame(t)
  {
    hide Plain, Ident, ConstantFolding.SimplifyAnd;
    TermsArePlain(q.selector, q.stages);
    Q.SimplifyTame(env, QueryParts(q).terms);
  }

  lemma PushedAlone(b: Base)
    requires b.scanPred.None?
    ensures Pushed(b) == b.(scanPred := b.filterPred, filterPred := None)
  {
    if b.filterPred.Some? {
      assert [b.scanPred, b.filterPred][..1] == [None];
      assert AndAll([None]) == AndTwo(AndAll([None][..0]), None) == None;
    }
  }

  // With every pass on: nothing is left to filter above the scan; the scan keeps the folded terms and then both ends of the time
  // range; it stops at the query's limit exactly if nothing groups or sorts; and an aggregation reads exactly what is referred to.
  lemma FullyOptimized(env: Env, q: SelectQuery)
    requires WellFormedQuery(q)
    ensures PartsTyped(QueryParts(q))
    ensures var parts := QueryParts(q);
            var b := Optimized(env, QueryBase(q), parts, {});
            && b.filterPred == None && b.range == q.range
            && b.scanPred == AndAll(Somes(FoldedTerms(env, q) + ([LowerTerm(q.range)] + [UpperTerm(q.range)])))
            && b.limit == (if parts.agg.None? && parts.sort.None? && parts.limit.Some? then parts.limit.value.n else 0)
            && (parts.agg.None? ==> b.columns == [])
            && (parts.agg.Some? ==> b.columns == NeededColumns(Stack(Bottom(b.(columns := [], projected := [])), parts)))
  {
    hide Q.Tame, NeededColumns, Stack, Bottom, ConstantFolding.SimplifyAnd, Pruned, FoldedTerms;
    var terms := FoldedTerms(env, q);
    BuildShape(q);
    FoldedBase(env, q);
    FoldedTame(env, q);
    Q.TameList(terms);
    var b2 := Pushed(Folded(env, QueryBase(q)));
    PushedAlone(Folded(env, QueryBase(q)));
    Q.PrunedHasBounds(env, b2);
    forall t | t in terms ensures !IsAnd(t) {
      Q.TameNotAnd(t);
    }
    FlattenAndAll(terms);
    PrunedRest(env, b2);
  }
}
