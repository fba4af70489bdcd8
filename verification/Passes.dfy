/** The optimizer's five passes and the ablation pipeline that skips some of them. */
module Passes {
  import opened Expressions
  import opened Options
  import opened Plans
  import ConstantFolding
  import Sorting

  // ---- Generic rewriting ----

  function WithInput(p: Plan, input: Plan): Plan {
    match p
    case Scan(_, _, _, _, _) => p
    case Filter(_, pred) => Filter(input, pred)
    case Project(_, columns) => Project(input, columns)
    case Aggregate(_, exprs, groupBy) => Aggregate(input, exprs, groupBy)
    case Sort(_, fields) => Sort(input, fields)
    case Limit(_, n) => Limit(input, n)
  }

  /** Children before parents. */
  function MapPost(p: Plan, fn: Plan -> Plan): Plan {
    fn(if p.Scan? then p else WithInput(p, MapPost(p.input, fn)))
  }

  // ---- Pass 1 ----

  function FoldNode(env: Env, p: Plan): Plan {
    if p.Filter? && p.pred.Some? then
      Filter(p.input, AndAll(Somes(ConstantFolding.SimplifyAnd(env, FlattenAnd(p.pred.value)))))
    else p
  }

  function ConstantFold(env: Env, p: Plan): Plan {
    MapPost(p, (n: Plan) => FoldNode(env, n))
  }

  // ---- Pass 2 ----

  function WithPred(scan: Plan, pred: Option<Expr>): Plan
    requires scan.Scan?
  {
    Scan(scan.table, scan.range, pred, scan.columns, scan.limit)
  }

  function PredicatePushdown(p: Plan): Plan {
    if p.Scan? then p
    else if !p.Filter? then WithInput(p, PredicatePushdown(p.input))
    else
      var input := PredicatePushdown(p.input);
      if p.pred.None? then Filter(input, None)
      else if input.Scan? then Filter(WithPred(input, AndAll([input.pred, p.pred])), None)
      else Filter(input, p.pred)
  }

  // ---- Pass 3 ----

  function LowerTerm(range: TimeRange): Expr {
    Binary(">=", ColumnRef("timestamp"), Literal(Time(range.start)))
  }

  function UpperTerm(range: TimeRange): Expr {
    Binary("<", ColumnRef("timestamp"), Literal(Time(range.end)))
  }

  /** A term counts as present when some existing term prints the same. */
  predicate HasTerm(env: Env, existing: seq<Expr>, t: Expr) {
    exists e :: e in existing && Show(env, e) == Show(env, t)
  }

  function Missing(env: Env, existing: seq<Expr>, t: Expr): seq<Expr> {
    if HasTerm(env, existing, t) then [] else [t]
  }

  function PruneNode(env: Env, p: Plan): Plan {
    if !p.Scan? then p
    else
      var existing := Flatten(p.pred);
      var add := Missing(env, existing, LowerTerm(p.range)) + Missing(env, existing, UpperTerm(p.range));
      if add == [] then p else WithPred(p, AndAll(Somes(existing + add)))
  }

  function PartitionPruning(env: Env, p: Plan): Plan {
    MapPost(p, (n: Plan) => PruneNode(env, n))
  }

  // ---- Pass 4 ----

  function TryPushLimit(p: Plan, n: nat): Option<Plan> {
    match p
    case Scan(table, range, pred, columns, _) => Some(Scan(table, range, pred, columns, n))
    case Filter(input, pred) =>
      var pushed := TryPushLimit(input, n);
      if pushed.Some? then Some(Filter(pushed.value, pred)) else None
    case Project(input, columns) =>
      var pushed := TryPushLimit(input, n);
      if pushed.Some? then Some(Project(pushed.value, columns)) else None
    case _ => None
  }

  function LimitPushdown(p: Plan): Plan {
    if p.Scan? then p
    else if !p.Limit? then WithInput(p, LimitPushdown(p.input))
    else
      var pushed := TryPushLimit(p.input, p.n);
      if pushed.Some? then Limit(pushed.value, p.n) else p
  }

  // ---- Pass 5 ----

  function FieldColumns(name: string): seq<string> {
    match KnownColumn(name)
    case Some(col) => [col]
    case None => ["span_attributes", "resource_attributes"]
  }

  function ExprColumns(e: Expr): seq<string> {
    match e
    case ColumnRef(name) => [name]
    case AttrRef(_) => ["span_attributes", "resource_attributes"]
    case Binary(_, l, r) => ExprColumns(l) + ExprColumns(r)
    case Literal(_) => []
  }

  function PredColumns(e: Option<Expr>): seq<string> {
    if e.Some? then ExprColumns(e.value) else []
  }

  function FieldsColumns(names: seq<string>): seq<string> {
    if names == [] then [] else FieldsColumns(names[..|names| - 1]) + FieldColumns(names[|names| - 1])
  }

  function AggFields(exprs: seq<AggExpr>): seq<string> {
    if exprs == [] then []
    else
      var last := exprs[|exprs| - 1];
      AggFields(exprs[..|exprs| - 1]) + (if last.field == "" then [] else [last.field])
  }

  function SortNames(fields: seq<SortField>): seq<string> {
    seq(|fields|, i requires 0 <= i < |fields| => fields[i].field)
  }

  function NodeColumns(p: Plan): seq<string> {
    match p
    case Scan(_, _, pred, _, _) => PredColumns(pred)
    case Filter(_, pred) => PredColumns(pred)
    case Project(_, _) => []
    case Aggregate(_, exprs, groupBy) => FieldsColumns(groupBy) + FieldsColumns(AggFields(exprs))
    case Sort(_, fields) => FieldsColumns(SortNames(fields))
    case Limit(_, _) => []
  }

  /** Every physical column the plan refers to, plus the two it always needs; repeats included. */
  function ReferencedColumns(p: Plan): seq<string> {
    NodeColumns(p) + if p.Scan? then ["timestamp", "sampling_weight"] else ReferencedColumns(p.input)
  }

  function Dedup(q: seq<string>): seq<string> {
    if q == [] then []
    else
      var before := Dedup(q[..|q| - 1]);
      if q[|q| - 1] in before then before else before + [q[|q| - 1]]
  }

  function NeededColumns(p: Plan): seq<string> {
    Sorting.SortStrings(Dedup(ReferencedColumns(p)))
  }

  function SetColumns(p: Plan, columns: seq<string>): Plan {
    match p
    case Scan(table, range, pred, _, limit) => Scan(table, range, pred, columns, limit)
    case Project(input, _) => Project(input, columns)
    case _ => p
  }

  function ProjectionPushdown(p: Plan): Plan {
    if !HasAggregate(p) then p
    else
      var columns := NeededColumns(p);
      MapPost(p, (n: Plan) => SetColumns(n, columns))
  }

  // ---- The pipeline ----

  /** Every pass whose name is not skipped, in the fixed order. */
  function OptimizeExcept(env: Env, p0: Plan, skip: set<string>): Plan {
    var p1 := if "constant_fold" in skip then p0 else ConstantFold(env, p0);
    var p2 := if "predicate_pushdown" in skip then p1 else PredicatePushdown(p1);
    var p3 := if "partition_pruning" in skip then p2 else PartitionPruning(env, p2);
    var p4 := if "limit_pushdown" in skip then p3 else LimitPushdown(p3);
    if "projection_pushdown" in skip then p4 else ProjectionPushdown(p4)
  }

  function Optimize(env: Env, p: Plan): Plan {
    OptimizeExcept(env, p, {})
  }

  // ---- Each pass on a plan of Build's shape ----

  /** The scan, filter and project at the bottom of a plan. */
  datatype Base = Base(
    range: TimeRange,
    scanPred: Option<Expr>,
    columns: seq<string>,
    limit: nat,
    filterPred: Option<Expr>,
    projected: seq<string>)

  function Bottom(b: Base): Plan {
    Project(Filter(Scan("spans", b.range, b.scanPred, b.columns, b.limit), b.filterPred), b.projected)
  }

  /** Rewrites that leave Aggregate, Sort and Limit alone act on the bottom only. */
  lemma MapPostStack(p: Plan, parts: Parts, fn: Plan -> Plan)
    requires PartsTyped(parts)
    requires forall n: Plan | n.Aggregate? || n.Sort? || n.Limit? :: fn(n) == n
    ensures MapPost(Stack(p, parts), fn) == Stack(MapPost(p, fn), parts)
  {
    assert MapPost(Grouped(p, parts), fn) == Grouped(MapPost(p, fn), parts);
    assert MapPost(Sorted(p, parts), fn) == Sorted(MapPost(p, fn), parts);
  }

  lemma MapPostBottom(b: Base, fn: Plan -> Plan)
    ensures var scan := Scan("spans", b.range, b.scanPred, b.columns, b.limit);
            MapPost(Bottom(b), fn) == fn(Project(fn(Filter(fn(scan), b.filterPred)), b.projected))
  {
    var scan := Scan("spans", b.range, b.scanPred, b.columns, b.limit);
    assert MapPost(scan, fn) == fn(scan);
    assert MapPost(Filter(scan, b.filterPred), fn) == fn(Filter(fn(scan), b.filterPred));
  }

  function Folded(env: Env, b: Base): Base {
    if b.filterPred.None? then b
    else b.(filterPred := AndAll(Somes(ConstantFolding.SimplifyAnd(env, FlattenAnd(b.filterPred.value)))))
  }

  lemma ConstantFoldShape(env: Env, b: Base, parts: Parts)
    requires PartsTyped(parts)
    ensures ConstantFold(env, Stack(Bottom(b), parts)) == Stack(Bottom(Folded(env, b)), parts)
  {
    MapPostStack(Bottom(b), parts, (n: Plan) => FoldNode(env, n));
    MapPostBottom(b, (n: Plan) => FoldNode(env, n));
  }

  function Pushed(b: Base): Base {
    if b.filterPred.None? then b else b.(scanPred := AndAll([b.scanPred, b.filterPred]), filterPred := None)
  }

  lemma PredicatePushdownStack(p: Plan, parts: Parts)
    requires PartsTyped(parts)
    ensures PredicatePushdown(Stack(p, parts)) == Stack(PredicatePushdown(p), parts)
  {
    assert PredicatePushdown(Grouped(p, parts)) == Grouped(PredicatePushdown(p), parts);
    assert PredicatePushdown(Sorted(p, parts)) == Sorted(PredicatePushdown(p), parts);
  }

  lemma PredicatePushdownShape(b: Base, parts: Parts)
    requires PartsTyped(parts)
    ensures PredicatePushdown(Stack(Bottom(b), parts)) == Stack(Bottom(Pushed(b)), parts)
  {
    PredicatePushdownStack(Bottom(b), parts);
    var scan := Scan("spans", b.range, b.scanPred, b.columns, b.limit);
    assert PredicatePushdown(scan) == scan;
    assert PredicatePushdown(Bottom(b)) == Project(PredicatePushdown(Filter(scan, b.filterPred)), b.projected);
  }

  function Pruned(env: Env, b: Base): Base {
    var existing := Flatten(b.scanPred);
    var add := Missing(env, existing, LowerTerm(b.range)) + Missing(env, existing, UpperTerm(b.range));
    if add == [] then b else b.(scanPred := AndAll(Somes(existing + add)))
  }

  lemma {:induction false} FlattenNoAnd(e: Expr)
    ensures forall t | t in FlattenAnd(e) :: !IsAnd(t)
  {
    if IsAnd(e) {
      FlattenNoAnd(e.left);
      FlattenNoAnd(e.right);
    }
  }

  /** A pruned scan has both bounds, so pruning it again adds nothing. */
  lemma PruneNodeTwice(env: Env, p: Plan)
    ensures PruneNode(env, PruneNode(env, p)) == PruneNode(env, p)
  {
    hide Show;
    if p.Scan? {
      var lower, upper := LowerTerm(p.range), UpperTerm(p.range);
      var existing := Flatten(p.pred);
      var add := Missing(env, existing, lower) + Missing(env, existing, upper);
      if add != [] {
        if p.pred.Some? {
          FlattenNoAnd(p.pred.value);
        }
        assert forall t | t in existing + add :: !IsAnd(t);
        FlattenAndAll(existing + add);
        var more := Flatten(PruneNode(env, p).pred);
        assert more == existing + add;
        assert HasTerm(env, more, lower) by {
          HasAfter(env, existing, add, lower);
        }
        assert HasTerm(env, more, upper) by {
          HasAfter(env, existing, add, upper);
        }
      }
    }
  }

  lemma HasAfter(env: Env, existing: seq<Expr>, add: seq<Expr>, t: Expr)
    requires HasTerm(env, existing, t) || t in add
    ensures HasTerm(env, existing + add, t)
  {
    if HasTerm(env, existing, t) {
      var e :| e in existing && Show(env, e) == Show(env, t);
      assert e in existing + add;
    } else {
      assert t in existing + add;
    }
  }

  /** Pruning any plan twice is pruning it once. */
  lemma {:induction false} PruningIsIdempotent(env: Env, p: Plan)
    ensures PartitionPruning(env, PartitionPruning(env, p)) == PartitionPruning(env, p)
  {
    var prune := (n: Plan) => PruneNode(env, n);
    if p.Scan? {
      PruneNodeTwice(env, p);
    } else {
      PruningIsIdempotent(env, p.input);
      assert MapPost(p, prune) == WithInput(p, MapPost(p.input, prune));
    }
  }

  lemma PartitionPruningShape(env: Env, b: Base, parts: Parts)
    requires PartsTyped(parts)
    ensures PartitionPruning(env, Stack(Bottom(b), parts)) == Stack(Bottom(Pruned(env, b)), parts)
  {
    MapPostStack(Bottom(b), parts, (n: Plan) => PruneNode(env, n));
    MapPostBottom(b, (n: Plan) => PruneNode(env, n));
  }

  predicate LimitReachesScan(parts: Parts) {
    parts.limit.Some? && parts.agg.None? && parts.sort.None?
  }

  function Limited(b: Base, parts: Parts): Base
    requires PartsTyped(parts)
  {
    if LimitReachesScan(parts) then b.(limit := parts.limit.value.n) else b
  }

  lemma LimitPushdownShape(b: Base, parts: Parts)
    requires PartsTyped(parts)
    ensures LimitPushdown(Stack(Bottom(b), parts)) == Stack(Bottom(Limited(b, parts)), parts)
  {
    var scan := Scan("spans", b.range, b.scanPred, b.columns, b.limit);
    assert LimitPushdown(scan) == scan;
    assert LimitPushdown(Filter(scan, b.filterPred)) == Filter(scan, b.filterPred);
    assert LimitPushdown(Bottom(b)) == Bottom(b);
    if parts.limit.Some? {
      var n := parts.limit.value.n;
      assert TryPushLimit(scan, n) == Some(Scan("spans", b.range, b.scanPred, b.columns, n));
      assert TryPushLimit(Filter(scan, b.filterPred), n).Some?;
    }
  }

  function Projected(b: Base, parts: Parts): Base
    requires PartsTyped(parts)
  {
    if parts.agg.None? then b
    else
      var columns := NeededColumns(Stack(Bottom(b), parts));
      b.(columns := columns, projected := columns)
  }

  lemma ProjectionPushdownShape(b: Base, parts: Parts)
    requires PartsTyped(parts)
    ensures ProjectionPushdown(Stack(Bottom(b), parts)) == Stack(Bottom(Projected(b, parts)), parts)
  {
    var p := Stack(Bottom(b), parts);
    StackHasAggregate(b, parts);
    var columns := NeededColumns(p);
    MapPostStack(Bottom(b), parts, (n: Plan) => SetColumns(n, columns));
    MapPostBottom(b, (n: Plan) => SetColumns(n, columns));
  }

  lemma StackHasAggregate(b: Base, parts: Parts)
    requires PartsTyped(parts)
    ensures HasAggregate(Stack(Bottom(b), parts)) == parts.agg.Some?
    ensures !HasAggregate(Bottom(b))
  {
    assert !HasAggregate(Filter(Scan("spans", b.range, b.scanPred, b.columns, b.limit), b.filterPred));
    assert !HasAggregate(Bottom(b));
    assert HasAggregate(Grouped(Bottom(b), parts)) == parts.agg.Some?;
    assert HasAggregate(Sorted(Bottom(b), parts)) == parts.agg.Some?;
  }
}
