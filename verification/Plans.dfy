/** The query AST, the logical plan it is lowered to, and what a plan means on a table of spans. */
module Plans {
  import opened Expressions
  import opened Options

  // ---- AST ----

  datatype TimeRange = TimeRange(start: int, end: int)

  datatype LabelOp = OpEq | OpNeq | OpRegexMatch | OpRegexNotMatch

  datatype Matcher = Matcher(name: string, op: LabelOp, value: string)

  datatype CmpOp = CmpGT | CmpGTE | CmpLT | CmpLTE | CmpEQ | CmpNEQ

  datatype AggFunc = Count | Sum | Avg | Min | Max | P50 | P95 | P99 | Unsupported(name: string)

  datatype AggExpr = AggExpr(func: AggFunc, field: string)

  datatype SortField = SortField(field: string, desc: bool)

  datatype Stage =
    | NumericFilter(field: string, op: CmpOp, value: real, unit: string)
    | Aggregation(exprs: seq<AggExpr>, groupBy: seq<string>)
    | SortStage(fields: seq<SortField>)
    | LimitStage(n: nat)

  datatype SelectQuery = SelectQuery(selector: seq<Matcher>, range: TimeRange, stages: seq<Stage>)

  function LabelOpText(op: LabelOp): string {
    match op
    case OpEq => "="
    case OpNeq => "!="
    case OpRegexMatch => "=~"
    case OpRegexNotMatch => "!~"
  }

  function CmpOpText(op: CmpOp): string {
    match op
    case CmpGT => ">"
    case CmpGTE => ">="
    case CmpLT => "<"
    case CmpLTE => "<="
    case CmpEQ => "=="
    case CmpNEQ => "!="
  }

  function FuncText(f: AggFunc): string {
    match f
    case Count => "count"
    case Sum => "sum"
    case Avg => "avg"
    case Min => "min"
    case Max => "max"
    case P50 => "p50"
    case P95 => "p95"
    case P99 => "p99"
    case Unsupported(name) => name
  }

  function Alias(e: AggExpr): string {
    if e.field == "" then FuncText(e.func) else FuncText(e.func) + "_" + e.field
  }

  // ---- Fields ----

  /** DSL field name to physical column; anything else is an attribute. */
  function KnownColumn(name: string): Option<string> {
    if name == "service" then Some("service_name")
    else if name == "operation" then Some("span_name")
    else if name == "status" then Some("status_code")
    else if name == "kind" then Some("span_kind")
    else if name == "trace_id" then Some("trace_id")
    else if name == "span_id" then Some("span_id")
    else if name == "parent_span_id" then Some("parent_span_id")
    else if name == "duration" then Some("duration_ns")
    else if name == "sampling_weight" then Some("sampling_weight")
    else None
  }

  const KNOWN_COLUMNS: set<string> := {
    "service_name", "span_name", "status_code", "span_kind", "trace_id", "span_id", "parent_span_id",
    "duration_ns", "sampling_weight"}

  function ResolveField(name: string): Expr {
    match KnownColumn(name)
    case Some(col) => ColumnRef(col)
    case None => AttrRef(name)
  }

  /** Nanoseconds per unit; an unknown unit leaves the number as it is. */
  function UnitNanos(unit: string): real {
    if unit == "us" then 1000.0
    else if unit == "ms" then 1000000.0
    else if unit == "s" then 1000000000.0
    else if unit == "m" then 60000000000.0
    else if unit == "h" then 3600000000000.0
    else 1.0
  }

  // ---- Plans ----

  datatype Plan =
    | Scan(table: string, range: TimeRange, pred: Option<Expr>, columns: seq<string>, limit: nat)
    | Filter(input: Plan, pred: Option<Expr>)
    | Project(input: Plan, columns: seq<string>)
    | Aggregate(input: Plan, exprs: seq<AggExpr>, groupBy: seq<string>)
    | Sort(input: Plan, fields: seq<SortField>)
    | Limit(input: Plan, n: nat)

  /** The stages that survive: every filter, and the last aggregation, sort and limit. */
  datatype Parts = Parts(
    terms: seq<Expr>,
    agg: Option<Stage>,
    sort: Option<Stage>,
    limit: Option<Stage>)

  function MatcherTerm(m: Matcher): Expr {
    Binary(LabelOpText(m.op), ResolveField(m.name), Literal(Str(m.value)))
  }

  function MatcherTerms(ms: seq<Matcher>): seq<Expr> {
    seq(|ms|, i requires 0 <= i < |ms| => MatcherTerm(ms[i]))
  }

  function FilterTerm(field: string, op: CmpOp, value: real, unit: string): Expr {
    Binary(CmpOpText(op), ResolveField(field), Literal(Num(value * UnitNanos(unit))))
  }

  function AddStage(p: Parts, s: Stage): Parts {
    match s
    case NumericFilter(field, op, value, unit) =>
      p.(terms := p.terms + [FilterTerm(field, op, value, unit)])
    case Aggregation(_, _) => p.(agg := Some(s))
    case SortStage(_) => p.(sort := Some(s))
    case LimitStage(_) => p.(limit := Some(s))
  }

  function PartsOf(ms: seq<Matcher>, stages: seq<Stage>): Parts {
    if stages == [] then Parts(MatcherTerms(ms), None, None, None)
    else AddStage(PartsOf(ms, stages[..|stages| - 1]), stages[|stages| - 1])
  }

  ghost predicate PartsTyped(p: Parts) {
    && (p.agg.Some? ==> p.agg.value.Aggregation?)
    && (p.sort.Some? ==> p.sort.value.SortStage?)
    && (p.limit.Some? ==> p.limit.value.LimitStage?)
  }

  lemma {:induction false} PartsAreTyped(ms: seq<Matcher>, stages: seq<Stage>)
    ensures PartsTyped(PartsOf(ms, stages))
  {
    if stages != [] {
      PartsAreTyped(ms, stages[..|stages| - 1]);
    }
  }

  function Grouped(core: Plan, parts: Parts): Plan
    requires PartsTyped(parts)
  {
    if parts.agg.Some? then Aggregate(core, parts.agg.value.exprs, parts.agg.value.groupBy) else core
  }

  function Sorted(core: Plan, parts: Parts): Plan
    requires PartsTyped(parts)
  {
    if parts.sort.Some? then Sort(Grouped(core, parts), parts.sort.value.fields) else Grouped(core, parts)
  }

  /** Scan -> Filter -> Project -> [Aggregate] -> [Sort] -> [Limit]. */
  function Stack(core: Plan, parts: Parts): Plan
    requires PartsTyped(parts)
  {
    if parts.limit.Some? then Limit(Sorted(core, parts), parts.limit.value.n) else Sorted(core, parts)
  }

  function Core(range: TimeRange, pred: Option<Expr>): Plan {
    Project(Filter(Scan("spans", range, None, [], 0), pred), [])
  }

  function Build(q: SelectQuery): Plan {
    PartsAreTyped(q.selector, q.stages);
    var parts := PartsOf(q.selector, q.stages);
    Stack(Core(q.range, AndAll(Somes(parts.terms))), parts)
  }

  /** Build's loops over selector and stages. */
  method BuildLoop(q: SelectQuery) returns (node: Plan)
    ensures node == Build(q)
  {
    hide FilterTerm, MatcherTerm, AndAll;
    var terms: seq<Expr> := [];
    for i := 0 to |q.selector|
      invariant terms == MatcherTerms(q.selector[..i])
    {
      terms := terms + [MatcherTerm(q.selector[i])];
    }
    assert q.selector[..|q.selector|] == q.selector;
    var agg, sort, limit := None, None, None;
    for i := 0 to |q.stages|
      invariant Parts(terms, agg, sort, limit) == PartsOf(q.selector, q.stages[..i])
    {
      assert q.stages[..i + 1][..i] == q.stages[..i];
      match q.stages[i] {
        case NumericFilter(field, op, value, unit) =>
          terms := terms + [FilterTerm(field, op, value, unit)];
        case Aggregation(_, _) => agg := Some(q.stages[i]);
        case SortStage(_) => sort := Some(q.stages[i]);
        case LimitStage(_) => limit := Some(q.stages[i]);
      }
    }
    assert q.stages[..|q.stages|] == q.stages;
    PartsAreTyped(q.selector, q.stages);
    var pred := AndAllLoop(Somes(terms));
    node := Project(Filter(Scan("spans", q.range, None, [], 0), pred), []);
    if agg.Some? {
      node := Aggregate(node, agg.value.exprs, agg.value.groupBy);
    }
    if sort.Some? {
      node := Sort(node, sort.value.fields);
    }
    if limit.Some? {
      node := Limit(node, limit.value.n);
    }
  }

  // ---- Tables ----

  function Where(rows: seq<Row>, keep: Row -> bool): seq<Row> {
    if rows == [] then []
    else Where(rows[..|rows| - 1], keep) + (if keep(rows[|rows| - 1]) then [rows[|rows| - 1]] else [])
  }

  function Take(rows: seq<Row>, n: nat): seq<Row> {
    if |rows| <= n then rows else rows[..n]
  }

  /** An empty column list means every column. */
  function Restrict(row: Row, columns: seq<string>): Row {
    if columns == [] then row else map c | c in row && c in columns :: row[c]
  }

  function RestrictAll(rows: seq<Row>, columns: seq<string>): seq<Row> {
    seq(|rows|, i requires 0 <= i < |rows| => Restrict(rows[i], columns))
  }

  type Key = seq<Option<Cell>>

  /** The rows with key k join the first group with that key, or open one. */
  function JoinGroup(groups: seq<(Key, seq<Row>)>, k: Key, row: Row): seq<(Key, seq<Row>)> {
    if groups == [] then [(k, [row])]
    else if groups[0].0 == k then [(k, groups[0].1 + [row])] + groups[1..]
    else [groups[0]] + JoinGroup(groups[1..], k, row)
  }

  function GroupOn(keys: seq<Key>, rows: seq<Row>): seq<(Key, seq<Row>)>
    requires |keys| == |rows|
  {
    if rows == [] then []
    else JoinGroup(GroupOn(keys[..|rows| - 1], rows[..|rows| - 1]), keys[|rows| - 1], rows[|rows| - 1])
  }

  type OrderKey = seq<(Option<Cell>, bool)>

  function InsertRow(env: Env, k: OrderKey, row: Row, done: seq<(OrderKey, Row)>): seq<(OrderKey, Row)> {
    if done == [] then [(k, row)]
    else if env.before(k, done[0].0) then [(k, row)] + done
    else [done[0]] + InsertRow(env, k, row, done[1..])
  }

  function OrderOn(env: Env, keys: seq<OrderKey>, rows: seq<Row>): seq<(OrderKey, Row)>
    requires |keys| == |rows|
  {
    if rows == [] then []
    else InsertRow(env, keys[|rows| - 1], rows[|rows| - 1], OrderOn(env, keys[..|rows| - 1], rows[..|rows| - 1]))
  }

  function RowsOf(pairs: seq<(OrderKey, Row)>): seq<Row> {
    seq(|pairs|, i requires 0 <= i < |pairs| => pairs[i].1)
  }

  /** An output row from its named cells; a missing cell leaves the name out, a repeated name keeps the last. */
  function RowFrom(items: seq<(string, Option<Cell>)>): Row {
    if items == [] then map[]
    else
      var before := RowFrom(items[..|items| - 1]);
      var last := items[|items| - 1];
      if last.1.Some? then before[last.0 := Scalar(last.1.value)] else before - {last.0}
  }

  // ---- Weighted aggregates ----

  function FieldCell(env: Env, row: Row, name: string): Option<Cell> {
    Operand(env, row, ResolveField(name))
  }

  function CellNumber(c: Option<Cell>): Option<real> {
    if c.Some? then c.value.num else None
  }

  function Weight(row: Row): Option<real> {
    CellNumber(ColumnCell(row, "sampling_weight"))
  }

  function OrZero(x: Option<real>): real {
    if x.Some? then x.value else 0.0
  }

  /** One row's contribution to an aggregate: the field's number, if any, and the row's sampling weight. */
  type Sample = (Option<real>, Option<real>)

  function Samples(env: Env, rows: seq<Row>, field: string): seq<Sample> {
    seq(|rows|, i requires 0 <= i < |rows| => (CellNumber(FieldCell(env, rows[i], field)), Weight(rows[i])))
  }

  /** The sum of the sampling weights: the estimated number of spans. */
  function TotalWeight(q: seq<Sample>): real {
    if q == [] then 0.0 else TotalWeight(q[..|q| - 1]) + OrZero(q[|q| - 1].1)
  }

  function Product(s: Sample): Option<real> {
    if s.0.Some? && s.1.Some? then Some(s.0.value * s.1.value) else None
  }

  /** The sum of field * weight over rows that have both. */
  function WeightedSum(q: seq<Sample>): real {
    if q == [] then 0.0 else WeightedSum(q[..|q| - 1]) + OrZero(Product(q[|q| - 1]))
  }

  /** The numbers a field takes, with the weights of their rows rounded to whole numbers. */
  function WeightedValues(env: Env, q: seq<Sample>): seq<(real, nat)> {
    if q == [] then []
    else
      var (x, w) := q[|q| - 1];
      WeightedValues(env, q[..|q| - 1]) + (if x.Some? && w.Some? then [(x.value, env.unsigned(w.value))] else [])
  }

  function Smallest(q: seq<Sample>): Option<real> {
    if q == [] then None
    else
      var best, x := Smallest(q[..|q| - 1]), q[|q| - 1].0;
      if x.None? then best else if best.None? || x.value < best.value then x else best
  }

  function Largest(q: seq<Sample>): Option<real> {
    if q == [] then None
    else
      var best, x := Largest(q[..|q| - 1]), q[|q| - 1].0;
      if x.None? then best else if best.None? || x.value > best.value then x else best
  }

  function NumberCell(env: Env, x: Option<real>): Option<Cell> {
    if x.Some? then Some(Cell(env.floatG(x.value), x)) else None
  }

  function Ratio(a: real, b: real): Option<real> {
    if b == 0.0 then None else Some(a / b)
  }

  function QuantileOf(env: Env, level: real, values: seq<(real, nat)>): Option<real> {
    if values == [] then None else Some(env.quantile(level, values))
  }

  function AggregateNumber(env: Env, f: AggFunc, q: seq<Sample>): Option<real> {
    match f
    case Count => Some(TotalWeight(q))
    case Sum => Some(WeightedSum(q))
    case Avg => Ratio(WeightedSum(q), TotalWeight(q))
    case Min => Smallest(q)
    case Max => Largest(q)
    case P50 => QuantileOf(env, 0.5, WeightedValues(env, q))
    case P95 => QuantileOf(env, 0.95, WeightedValues(env, q))
    case P99 => QuantileOf(env, 0.99, WeightedValues(env, q))
    case Unsupported(_) => None
  }

  // ---- What a plan means ----

  predicate InRange(range: TimeRange, row: Row) {
    var t := CellNumber(ColumnCell(row, "timestamp"));
    t.Some? && range.start as real <= t.value < range.end as real
  }

  function GroupKey(env: Env, row: Row, fields: seq<string>): Key {
    seq(|fields|, i requires 0 <= i < |fields| => FieldCell(env, row, fields[i]))
  }

  function GroupKeys(env: Env, rows: seq<Row>, fields: seq<string>): seq<Key> {
    seq(|rows|, i requires 0 <= i < |rows| => GroupKey(env, rows[i], fields))
  }

  /** The group-by values are those of any row of the group; a global aggregate has one group, even of no rows. */
  function GroupRow(env: Env, exprs: seq<AggExpr>, groupBy: seq<string>, rows: seq<Row>): Row {
    RowFrom(
      seq(|groupBy|, i requires 0 <= i < |groupBy| =>
        (groupBy[i], if rows == [] then None else FieldCell(env, rows[0], groupBy[i])))
      + seq(|exprs|, i requires 0 <= i < |exprs| =>
        (Alias(exprs[i]), NumberCell(env, AggregateNumber(env, exprs[i].func, Samples(env, rows, exprs[i].field))))))
  }

  function Groups(env: Env, rows: seq<Row>, groupBy: seq<string>): seq<(Key, seq<Row>)> {
    if groupBy == [] then [([], rows)] else GroupOn(GroupKeys(env, rows, groupBy), rows)
  }

  function AggregateRows(env: Env, exprs: seq<AggExpr>, groupBy: seq<string>, rows: seq<Row>): seq<Row> {
    var groups := Groups(env, rows, groupBy);
    seq(|groups|, i requires 0 <= i < |groups| => GroupRow(env, exprs, groupBy, groups[i].1))
  }

  /** Above an aggregate a sort field names an output column; otherwise it names a span field. */
  function SortCell(env: Env, overAggregate: bool, row: Row, field: string): Option<Cell> {
    if overAggregate then ColumnCell(row, field) else FieldCell(env, row, field)
  }

  function SortKey(env: Env, overAggregate: bool, row: Row, fields: seq<SortField>): OrderKey {
    seq(|fields|, i requires 0 <= i < |fields| => (SortCell(env, overAggregate, row, fields[i].field), fields[i].desc))
  }

  function SortRows(env: Env, overAggregate: bool, fields: seq<SortField>, rows: seq<Row>): seq<Row> {
    RowsOf(OrderOn(env, seq(|rows|, i requires 0 <= i < |rows| => SortKey(env, overAggregate, rows[i], fields)), rows))
  }

  predicate HasAggregate(p: Plan) {
    match p
    case Scan(_, _, _, _, _) => false
    case Filter(input, _) => HasAggregate(input)
    case Project(input, _) => HasAggregate(input)
    case Aggregate(_, _, _) => true
    case Sort(input, _) => HasAggregate(input)
    case Limit(input, _) => HasAggregate(input)
  }

  function Meaning(env: Env, p: Plan, table: seq<Row>): seq<Row> {
    match p
    case Scan(_, range, pred, columns, limit) =>
      var kept := Where(table, (r: Row) => InRange(range, r) && Keeps(env, r, pred));
      RestrictAll(if limit > 0 then Take(kept, limit) else kept, columns)
    case Filter(input, pred) => Where(Meaning(env, input, table), (r: Row) => Keeps(env, r, pred))
    case Project(input, columns) => RestrictAll(Meaning(env, input, table), columns)
    case Aggregate(input, exprs, groupBy) => AggregateRows(env, exprs, groupBy, Meaning(env, input, table))
    case Sort(input, fields) => SortRows(env, HasAggregate(input), fields, Meaning(env, input, table))
    case Limit(input, n) => Take(Meaning(env, input, table), n)
  }
}
