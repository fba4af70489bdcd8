/** What a query asks of a table, read off its AST alone, and that the plan made of it means just that. */
module QueryMeaning {
  import opened Expressions
  import opened Options
  import opened Plans
  import opened Passes
  import opened PassMeaning
  import opened Optimizer

  // ---- Fields and units ----

  const COLUMN_OF: map<string, string> := map[
    "service" := "service_name", "operation" := "span_name", "status" := "status_code", "kind" := "span_kind",
    "trace_id" := "trace_id", "span_id" := "span_id", "parent_span_id" := "parent_span_id",
    "duration" := "duration_ns", "sampling_weight" := "sampling_weight"]

  const NANOS_IN: map<string, real> := map[
    "ns" := 1.0, "us" := 1000.0, "ms" := 1000000.0, "s" := 1000000000.0, "m" := 60000000000.0, "h" := 3600000000000.0]

  function Plainly(row: Row, column: string): Option<Cell> {
    if column in row && row[column].Scalar? then Some(row[column].cell) else None
  }

  function InMap(env: Env, row: Row, column: string, key: string): Option<Cell> {
    if column in row && row[column].Attrs? && key in row[column].m then
      Some(Cell(row[column].m[key], env.parse(row[column].m[key])))
    else None
  }

  /** A named column of the span, or an attribute: the span's own, else its resource's. */
  function FieldOf(env: Env, row: Row, name: string): Option<Cell> {
    if name in COLUMN_OF then Plainly(row, COLUMN_OF[name])
    else if InMap(env, row, "span_attributes", name).Some? then InMap(env, row, "span_attributes", name)
    else InMap(env, row, "resource_attributes", name)
  }

  /** A filter's number in the column's own unit. */
  function Scaled(value: real, unit: string): real {
    if unit in NANOS_IN then value * NANOS_IN[unit] else value
  }

  // ---- The spans a query keeps ----

  predicate MatcherKeeps(env: Env, row: Row, m: Matcher) {
    var c := FieldOf(env, row, m.name);
    && c.Some?
    && match m.op
       case OpEq => c.value.text == m.value
       case OpNeq => c.value.text != m.value
       case OpRegexMatch => env.matches(c.value.text, m.value)
       case OpRegexNotMatch => !env.matches(c.value.text, m.value)
  }

  predicate NumberKeeps(env: Env, c: Cell, op: CmpOp, bound: real) {
    match op
    case CmpGT => c.num.Some? && c.num.value > bound
    case CmpGTE => c.num.Some? && c.num.value >= bound
    case CmpLT => c.num.Some? && c.num.value < bound
    case CmpLTE => c.num.Some? && c.num.value <= bound
    case CmpEQ => c.text == env.floatG(bound)
    case CmpNEQ => c.text != env.floatG(bound)
  }

  /** Only numeric filters keep spans out. */
  predicate StageKeeps(env: Env, row: Row, s: Stage) {
    s.NumericFilter? ==>
      var c := FieldOf(env, row, s.field);
      c.Some? && NumberKeeps(env, c.value, s.op, Scaled(s.value, s.unit))
  }

  predicate OnTime(range: TimeRange, row: Row) {
    var c := Plainly(row, "timestamp");
    c.Some? && c.value.num.Some? && range.start as real <= c.value.num.value && c.value.num.value < range.end as real
  }

  ghost predicate Wanted(env: Env, q: SelectQuery, row: Row) {
    && OnTime(q.range, row)
    && (forall m | m in q.selector :: MatcherKeeps(env, row, m))
    && forall s | s in q.stages :: StageKeeps(env, row, s)
  }

  ghost function Spans(env: Env, q: SelectQuery, table: seq<Row>): seq<Row> {
    if table == [] then []
    else Spans(env, q, table[..|table| - 1]) + (if Wanted(env, q, table[|table| - 1]) then [table[|table| - 1]] else [])
  }

  // ---- Aggregation, order and limit: the last of each ----

  function LastAggregation(stages: seq<Stage>): (s: Option<Stage>)
    ensures s.Some? ==> s.value.Aggregation?
  {
    if stages == [] then None
    else if stages[|stages| - 1].Aggregation? then Some(stages[|stages| - 1])
    else LastAggregation(stages[..|stages| - 1])
  }

  function LastSort(stages: seq<Stage>): (s: Option<Stage>)
    ensures s.Some? ==> s.value.SortStage?
  {
    if stages == [] then None
    else if stages[|stages| - 1].SortStage? then Some(stages[|stages| - 1])
    else LastSort(stages[..|stages| - 1])
  }

  function LastLimit(stages: seq<Stage>): (s: Option<Stage>)
    ensures s.Some? ==> s.value.LimitStage?
  {
    if stages == [] then None
    else if stages[|stages| - 1].LimitStage? then Some(stages[|stages| - 1])
    else LastLimit(stages[..|stages| - 1])
  }

  function KeyOf(env: Env, row: Row, fields: seq<string>): Key {
    seq(|fields|, i requires 0 <= i < |fields| => FieldOf(env, row, fields[i]))
  }

  /** The different keys of the rows, in order of first appearance. */
  function KeysIn(env: Env, rows: seq<Row>, fields: seq<string>): seq<Key> {
    if rows == [] then []
    else
      var before, k := KeysIn(env, rows[..|rows| - 1], fields), KeyOf(env, rows[|rows| - 1], fields);
      if k in before then before else before + [k]
  }

  function RowsWith(env: Env, rows: seq<Row>, fields: seq<string>, k: Key): seq<Row> {
    if rows == [] then []
    else
      var last := rows[|rows| - 1];
      RowsWith(env, rows[..|rows| - 1], fields, k) + (if KeyOf(env, last, fields) == k then [last] else [])
  }

  /** The output column of an aggregate: count, p99_duration. */
  function ColumnFor(e: AggExpr): string {
    var f := match e.func
             case Count => "count"
             case Sum => "sum"
             case Avg => "avg"
             case Min => "min"
             case Max => "max"
             case P50 => "p50"
             case P95 => "p95"
             case P99 => "p99"
             case Unsupported(name) => name;
    if e.field == "" then f else f + "_" + e.field
  }

  function NumberIn(c: Option<Cell>): Option<real> {
    if c.Some? then c.value.num else None
  }

  /** The field's number in each row, with the row's sampling weight. */
  function Measured(env: Env, rows: seq<Row>, field: string): seq<Sample> {
    seq(|rows|, i requires 0 <= i < |rows| => (NumberIn(FieldOf(env, rows[i], field)), NumberIn(Plainly(rows[i], "sampling_weight"))))
  }

  /** One output row: the group's key by name and each aggregate under its column. */
  function Items(env: Env, exprs: seq<AggExpr>, groupBy: seq<string>, rows: seq<Row>): seq<(string, Option<Cell>)> {
    seq(|groupBy|, i requires 0 <= i < |groupBy| =>
      (groupBy[i], if rows == [] then None else FieldOf(env, rows[0], groupBy[i])))
    + seq(|exprs|, i requires 0 <= i < |exprs| =>
      (ColumnFor(exprs[i]),
       match AggregateNumber(env, exprs[i].func, Measured(env, rows, exprs[i].field))
       case None => None
       case Some(x) => Some(Cell(env.floatG(x), Some(x)))))
  }

  /** The last item of that name. */
  function LastNamed(items: seq<(string, Option<Cell>)>, name: string): Option<Cell> {
    if items == [] then None
    else if items[|items| - 1].0 == name then items[|items| - 1].1
    else LastNamed(items[..|items| - 1], name)
  }

  function Names(items: seq<(string, Option<Cell>)>): set<string> {
    set item | item in items :: item.0
  }

  function Summary(env: Env, exprs: seq<AggExpr>, groupBy: seq<string>, rows: seq<Row>): Row {
    var items := Items(env, exprs, groupBy, rows);
    map n | n in Names(items) && LastNamed(items, n).Some? :: Scalar(LastNamed(items, n).value)
  }

  /** One row per group, in order of first appearance; without group-by one row in all, even of no spans. */
  function Summaries(env: Env, exprs: seq<AggExpr>, groupBy: seq<string>, rows: seq<Row>): seq<Row> {
    if groupBy == [] then [Summary(env, exprs, groupBy, rows)]
    else
      var ks := KeysIn(env, rows, groupBy);
      seq(|ks|, i requires 0 <= i < |ks| => Summary(env, exprs, groupBy, RowsWith(env, rows, groupBy, ks[i])))
  }

  /** What a row is sorted by: output columns after an aggregation, fields of the span without one. */
  function SortedBy(env: Env, aggregated: bool, fields: seq<SortField>, row: Row): OrderKey {
    seq(|fields|, i requires 0 <= i < |fields| =>
      (if aggregated then Plainly(row, fields[i].field) else FieldOf(env, row, fields[i].field), fields[i].desc))
  }

  function InOrder(env: Env, aggregated: bool, fields: seq<SortField>, rows: seq<Row>): seq<Row> {
    RowsOf(OrderOn(env, seq(|rows|, i requires 0 <= i < |rows| => SortedBy(env, aggregated, fields, rows[i])), rows))
  }

  /** The rows a query asks for. */
  ghost function Answer(env: Env, q: SelectQuery, table: seq<Row>): seq<Row> {
    var agg, sort, limit := LastAggregation(q.stages), LastSort(q.stages), LastLimit(q.stages);
    var spans := Spans(env, q, table);
    var grouped := if agg.Some? then Summaries(env, agg.value.exprs, agg.value.groupBy, spans) else spans;
    var sorted := if sort.Some? then InOrder(env, agg.Some?, sort.value.fields, grouped) else grouped;
    if limit.Some? && limit.value.n < |sorted| then sorted[..limit.value.n] else sorted
  }

  // ---- The plan keeps those spans ----

  lemma FieldAgrees(env: Env, row: Row, name: string)
    ensures FieldCell(env, row, name) == FieldOf(env, row, name)
  {
  }

  lemma MatcherAgrees(env: Env, row: Row, m: Matcher)
    ensures Holds(env, row, MatcherTerm(m)) <==> MatcherKeeps(env, row, m)
  {
    hide FieldOf, KnownColumn;
    FieldAgrees(env, row, m.name);
  }

  lemma FilterIs(field: string, op: CmpOp, value: real, unit: string)
    ensures FilterTerm(field, op, value, unit) == Binary(CmpOpText(op), ResolveField(field), Literal(Num(Scaled(value, unit))))
  {
  }

  lemma NumberAgrees(env: Env, c: Cell, op: CmpOp, bound: real)
    ensures CellHolds(env, CmpOpText(op), c, Num(bound)) <==> NumberKeeps(env, c, op, bound)
  {
  }

  lemma FilterAgrees(env: Env, row: Row, s: Stage)
    requires s.NumericFilter?
    ensures Holds(env, row, FilterTerm(s.field, s.op, s.value, s.unit)) <==> StageKeeps(env, row, s)
  {
    hide FieldOf, KnownColumn, UnitNanos, Scaled, FilterTerm, CellHolds, NumberKeeps;
    FieldAgrees(env, row, s.field);
    FilterIs(s.field, s.op, s.value, s.unit);
    var c := FieldOf(env, row, s.field);
    if c.Some? {
      NumberAgrees(env, c.value, s.op, Scaled(s.value, s.unit));
    }
    CmpIsNotAnd(s.op);
  }

  lemma CmpIsNotAnd(op: CmpOp)
    ensures CmpOpText(op) != "AND"
  {
  }

  lemma {:induction false} TermsAgree(env: Env, row: Row, ms: seq<Matcher>, stages: seq<Stage>)
    ensures AllHold(env, row, PartsOf(ms, stages).terms) <==>
            (forall m | m in ms :: MatcherKeeps(env, row, m)) && forall s | s in stages :: StageKeeps(env, row, s)
  {
    hide Holds, MatcherTerm, FilterTerm, MatcherKeeps, StageKeeps;
    if stages == [] {
      forall m ensures m in ms ==> (Holds(env, row, MatcherTerm(m)) <==> MatcherKeeps(env, row, m)) && MatcherTerm(m) in MatcherTerms(ms) {
        MatcherAgrees(env, row, m);
        if m in ms {
          var i :| 0 <= i < |ms| && ms[i] == m;
          assert MatcherTerms(ms)[i] == MatcherTerm(m);
        }
      }
    } else {
      var n := |stages| - 1;
      var s := stages[n];
      TermsAgree(env, row, ms, stages[..n]);
      assert forall t :: t in stages <==> t in stages[..n] || t == s;
      if s.NumericFilter? {
        FilterAgrees(env, row, s);
        AllHoldPlus(env, row, PartsOf(ms, stages[..n]).terms, FilterTerm(s.field, s.op, s.value, s.unit));
      } else {
        OtherStage(env, row, s);
      }
    }
  }

  lemma OtherStage(env: Env, row: Row, s: Stage)
    requires !s.NumericFilter?
    ensures StageKeeps(env, row, s)
  {
  }

  lemma WantedIsKept(env: Env, q: SelectQuery, row: Row)
    ensures Wanted(env, q, row) <==> InRange(q.range, row) && Keeps(env, row, QueryBase(q).filterPred)
  {
    hide Holds, AndAll, MatcherKeeps, StageKeeps;
    TermsAgree(env, row, q.selector, q.stages);
    AndOfKeeps(env, row, QueryParts(q).terms);
  }

  lemma {:induction false} SpansAreWhere(env: Env, q: SelectQuery, table: seq<Row>, keep: Row -> bool)
    requires forall r :: keep(r) <==> Wanted(env, q, r)
    ensures Spans(env, q, table) == Where(table, keep)
  {
    hide Wanted;
    if table != [] {
      SpansAreWhere(env, q, table[..|table| - 1], keep);
    }
  }

  lemma SpansAreBase(env: Env, q: SelectQuery, table: seq<Row>)
    ensures BaseRows(env, QueryBase(q), table) == Spans(env, q, table)
  {
    hide Wanted, Where, QueryParts, Keeps, InRange;
    var b := QueryBase(q);
    var f := (r: Row) => InRange(b.range, r) && Keeps(env, r, b.scanPred);
    var g := (r: Row) => Keeps(env, r, b.filterPred);
    var kept := Where(table, f);
    RestrictNone(kept);
    RestrictNone(Where(kept, g));
    WhereTwice(table, f, g);
    var both := (r: Row) => f(r) && g(r);
    forall r ensures both(r) <==> Wanted(env, q, r) {
      WantedIsKept(env, q, r);
      NothingScanned(env, r);
    }
    SpansAreWhere(env, q, table, both);
  }

  lemma NothingScanned(env: Env, row: Row)
    ensures Keeps(env, row, None)
  {
  }

  lemma {:induction false} LastsArePartsOf(ms: seq<Matcher>, stages: seq<Stage>)
    ensures var p := PartsOf(ms, stages);
            p.agg == LastAggregation(stages) && p.sort == LastSort(stages) && p.limit == LastLimit(stages)
  {
    if stages != [] {
      LastsArePartsOf(ms, stages[..|stages| - 1]);
    }
  }

  // ---- The plan groups, sorts and cuts them as asked ----

  lemma KeyAgrees(env: Env, row: Row, fields: seq<string>)
    ensures GroupKey(env, row, fields) == KeyOf(env, row, fields)
  {
    hide FieldCell, FieldOf;
    forall i | 0 <= i < |fields| ensures FieldCell(env, row, fields[i]) == FieldOf(env, row, fields[i]) {
      FieldAgrees(env, row, fields[i]);
    }
  }

  /** The groups, each with its rows. */
  function Grouping(env: Env, rows: seq<Row>, fields: seq<string>): seq<(Key, seq<Row>)> {
    var ks := KeysIn(env, rows, fields);
    seq(|ks|, i requires 0 <= i < |ks| => (ks[i], RowsWith(env, rows, fields, ks[i])))
  }

  lemma {:induction false} JoinsKnown(groups: seq<(Key, seq<Row>)>, k: Key, row: Row, i: nat)
    requires i < |groups| && groups[i].0 == k && forall j | 0 <= j < i :: groups[j].0 != k
    ensures JoinGroup(groups, k, row) == groups[i := (k, groups[i].1 + [row])]
  {
    if i > 0 {
      JoinsKnown(groups[1..], k, row, i - 1);
      assert groups == [groups[0]] + groups[1..];
    }
  }

  lemma {:induction false} JoinsNew(groups: seq<(Key, seq<Row>)>, k: Key, row: Row)
    requires forall j | 0 <= j < |groups| :: groups[j].0 != k
    ensures JoinGroup(groups, k, row) == groups + [(k, [row])]
  {
    if groups != [] {
      JoinsNew(groups[1..], k, row);
      assert groups == [groups[0]] + groups[1..];
    }
  }

  ghost predicate AllDiffer(ks: seq<Key>) {
    forall i, j | 0 <= i < j < |ks| :: ks[i] != ks[j]
  }

  lemma OneMoreDiffers(ks: seq<Key>, k: Key)
    requires AllDiffer(ks) && k !in ks
    ensures AllDiffer(ks + [k])
  {
    forall i, j | 0 <= i < j < |ks + [k]| ensures (ks + [k])[i] != (ks + [k])[j] {
      assert ks[i] in ks;
    }
  }

  lemma OnlyAt(ks: seq<Key>, i: nat, j: nat)
    requires AllDiffer(ks) && i < |ks| && j < |ks|
    ensures ks[i] == ks[j] <==> i == j
  {
  }

  lemma {:induction false} KeysDiffer(env: Env, rows: seq<Row>, fields: seq<string>)
    ensures AllDiffer(KeysIn(env, rows, fields))
    ensures forall k :: k in KeysIn(env, rows, fields) <==> RowsWith(env, rows, fields, k) != []
  {
    hide KeyOf, AllDiffer;
    if rows == [] {
      NoneDiffer();
    } else {
      var before, k := KeysIn(env, rows[..|rows| - 1], fields), KeyOf(env, rows[|rows| - 1], fields);
      KeysDiffer(env, rows[..|rows| - 1], fields);
      if k !in before {
        OneMoreDiffers(before, k);
      }
    }
  }

  lemma NoneDiffer()
    ensures AllDiffer([])
  {
  }

  lemma {:induction false} GroupsAgree(env: Env, rows: seq<Row>, fields: seq<string>)
    ensures GroupOn(GroupKeys(env, rows, fields), rows) == Grouping(env, rows, fields)
  {
    hide KeyOf, GroupKey, JoinGroup, RowsWith, KeysIn;
    if rows == [] {
      NoKeys(env, fields);
    } else {
      var n := |rows| - 1;
      var front, row := rows[..n], rows[n];
      GroupsAgree(env, front, fields);
      KeyAgrees(env, row, fields);
      assert GroupKeys(env, rows, fields)[..n] == GroupKeys(env, front, fields);
      GroupingNext(env, rows, fields);
    }
  }

  lemma NoKeys(env: Env, fields: seq<string>)
    ensures Grouping(env, [], fields) == []
  {
  }

  lemma GroupingKnown(env: Env, rows: seq<Row>, fields: seq<string>, i: nat)
    requires rows != [] && i < |KeysIn(env, rows[..|rows| - 1], fields)|
    requires KeysIn(env, rows[..|rows| - 1], fields)[i] == KeyOf(env, rows[|rows| - 1], fields)
    ensures var n := |rows| - 1;
            Grouping(env, rows, fields) == JoinGroup(Grouping(env, rows[..n], fields), KeyOf(env, rows[n], fields), rows[n])
  {
    hide KeyOf, JoinGroup, AllDiffer;
    var n := |rows| - 1;
    var front, row, k := rows[..n], rows[n], KeyOf(env, rows[n], fields);
    var ks := KeysIn(env, front, fields);
    KeysDiffer(env, front, fields);
    assert k in ks && KeysIn(env, rows, fields) == ks;
    forall j | 0 <= j < |ks| ensures ks[j] == k <==> j == i {
      OnlyAt(ks, i, j);
    }
    JoinsKnown(Grouping(env, front, fields), k, row, i);
    forall j | 0 <= j < |ks|
      ensures RowsWith(env, rows, fields, ks[j]) == if j == i then RowsWith(env, front, fields, k) + [row] else RowsWith(env, front, fields, ks[j])
    {
      RowsWithNext(env, rows, fields, ks[j]);
    }
  }

  lemma RowsWithNext(env: Env, rows: seq<Row>, fields: seq<string>, k: Key)
    requires rows != []
    ensures var n := |rows| - 1;
            RowsWith(env, rows, fields, k) ==
            if KeyOf(env, rows[n], fields) == k then RowsWith(env, rows[..n], fields, k) + [rows[n]]
            else RowsWith(env, rows[..n], fields, k)
  {
    hide KeyOf;
  }

  lemma GroupingNew(env: Env, rows: seq<Row>, fields: seq<string>)
    requires rows != [] && KeyOf(env, rows[|rows| - 1], fields) !in KeysIn(env, rows[..|rows| - 1], fields)
    ensures var n := |rows| - 1;
            Grouping(env, rows, fields) == JoinGroup(Grouping(env, rows[..n], fields), KeyOf(env, rows[n], fields), rows[n])
  {
    hide KeyOf, JoinGroup, AllDiffer;
    var n := |rows| - 1;
    var front, row, k := rows[..n], rows[n], KeyOf(env, rows[n], fields);
    var ks := KeysIn(env, front, fields);
    KeysDiffer(env, front, fields);
    assert KeysIn(env, rows, fields) == ks + [k];
    forall j | 0 <= j < |ks| ensures ks[j] != k && RowsWith(env, rows, fields, ks[j]) == RowsWith(env, front, fields, ks[j]) {
      assert ks[j] in ks;
      RowsWithNext(env, rows, fields, ks[j]);
    }
    JoinsNew(Grouping(env, front, fields), k, row);
    RowsWithNext(env, rows, fields, k);
    assert RowsWith(env, front, fields, k) == [];
    assert RowsWith(env, rows, fields, k) == [row];
  }

  lemma GroupingNext(env: Env, rows: seq<Row>, fields: seq<string>)
    requires rows != []
    ensures var n := |rows| - 1;
            Grouping(env, rows, fields) == JoinGroup(Grouping(env, rows[..n], fields), KeyOf(env, rows[n], fields), rows[n])
  {
    hide KeyOf, JoinGroup, Grouping, KeysIn;
    var ks, k := KeysIn(env, rows[..|rows| - 1], fields), KeyOf(env, rows[|rows| - 1], fields);
    if k in ks {
      var i :| 0 <= i < |ks| && ks[i] == k;
      GroupingKnown(env, rows, fields, i);
    } else {
      GroupingNew(env, rows, fields);
    }
  }

  lemma {:induction false} RowFromLast(items: seq<(string, Option<Cell>)>)
    ensures forall n :: n in RowFrom(items) <==> LastNamed(items, n).Some?
    ensures forall n | n in RowFrom(items) :: RowFrom(items)[n] == Scalar(LastNamed(items, n).value)
    ensures forall n | LastNamed(items, n).Some? :: n in Names(items)
  {
    if items != [] {
      var m := |items| - 1;
      RowFromLast(items[..m]);
      forall n | LastNamed(items, n).Some? ensures n in Names(items) {
        if items[m].0 == n {
          assert items[m] in items;
        } else {
          assert LastNamed(items[..m], n).Some?;
          var item :| item in items[..m] && item.0 == n;
          assert item in items;
        }
      }
    }
  }

  lemma SamplesAgree(env: Env, rows: seq<Row>, field: string)
    ensures Samples(env, rows, field) == Measured(env, rows, field)
  {
    hide FieldOf, FieldCell;
    forall i | 0 <= i < |rows| ensures FieldCell(env, rows[i], field) == FieldOf(env, rows[i], field) {
      FieldAgrees(env, rows[i], field);
    }
  }

  lemma AliasAgrees(e: AggExpr)
    ensures Alias(e) == ColumnFor(e)
  {
  }

  lemma SummaryAgrees(env: Env, exprs: seq<AggExpr>, groupBy: seq<string>, rows: seq<Row>)
    ensures GroupRow(env, exprs, groupBy, rows) == Summary(env, exprs, groupBy, rows)
  {
    hide FieldOf, FieldCell, Alias, ColumnFor, AggregateNumber, Samples, Measured, RowFrom, LastNamed;
    forall i | 0 <= i < |groupBy| && rows != [] ensures FieldCell(env, rows[0], groupBy[i]) == FieldOf(env, rows[0], groupBy[i]) {
      FieldAgrees(env, rows[0], groupBy[i]);
    }
    forall i | 0 <= i < |exprs|
      ensures Alias(exprs[i]) == ColumnFor(exprs[i])
      ensures Samples(env, rows, exprs[i].field) == Measured(env, rows, exprs[i].field)
    {
      AliasAgrees(exprs[i]);
      SamplesAgree(env, rows, exprs[i].field);
    }
    var items := Items(env, exprs, groupBy, rows);
    assert GroupRow(env, exprs, groupBy, rows) == RowFrom(items) by {
      assert items == seq(|groupBy|, i requires 0 <= i < |groupBy| =>
                       (groupBy[i], if rows == [] then None else FieldCell(env, rows[0], groupBy[i])))
                     + seq(|exprs|, i requires 0 <= i < |exprs| =>
                       (Alias(exprs[i]), NumberCell(env, AggregateNumber(env, exprs[i].func, Samples(env, rows, exprs[i].field)))));
    }
    RowFromLast(items);
  }

  lemma SummariesAgree(env: Env, exprs: seq<AggExpr>, groupBy: seq<string>, rows: seq<Row>)
    ensures AggregateRows(env, exprs, groupBy, rows) == Summaries(env, exprs, groupBy, rows)
  {
    hide GroupRow, Summary, KeysIn, RowsWith, GroupOn;
    if groupBy == [] {
      SummaryAgrees(env, exprs, groupBy, rows);
    } else {
      GroupsAgree(env, rows, groupBy);
      var ks := KeysIn(env, rows, groupBy);
      forall i | 0 <= i < |ks|
        ensures GroupRow(env, exprs, groupBy, RowsWith(env, rows, groupBy, ks[i])) ==
                Summary(env, exprs, groupBy, RowsWith(env, rows, groupBy, ks[i]))
      {
        SummaryAgrees(env, exprs, groupBy, RowsWith(env, rows, groupBy, ks[i]));
      }
    }
  }

  lemma OrderAgrees(env: Env, aggregated: bool, fields: seq<SortField>, rows: seq<Row>)
    ensures SortRows(env, aggregated, fields, rows) == InOrder(env, aggregated, fields, rows)
  {
    hide FieldOf, FieldCell, OrderOn, RowsOf;
    forall i | 0 <= i < |rows| ensures SortKey(env, aggregated, rows[i], fields) == SortedBy(env, aggregated, fields, rows[i]) {
      forall j | 0 <= j < |fields| ensures FieldCell(env, rows[i], fields[j].field) == FieldOf(env, rows[i], fields[j].field) {
        FieldAgrees(env, rows[i], fields[j].field);
      }
    }
    assert seq(|rows|, i requires 0 <= i < |rows| => SortKey(env, aggregated, rows[i], fields)) ==
           seq(|rows|, i requires 0 <= i < |rows| => SortedBy(env, aggregated, fields, rows[i]));
  }

  /** The plan Build makes means what the query asks for, on every table. */
  lemma PlanMeansQuery(env: Env, q: SelectQuery, table: seq<Row>)
    ensures Meaning(env, Build(q), table) == Answer(env, q, table)
  {
    hide Meaning, Build, BaseRows, Spans, Stack, Bottom, PartsOf, AggregateRows, Summaries, SortRows, InOrder, LastAggregation,
         LastSort, LastLimit;
    var parts := QueryParts(q);
    BuildShape(q);
    StackMeaning(env, QueryBase(q), parts, table);
    BottomMeaning(env, QueryBase(q), table);
    SpansAreBase(env, q, table);
    LastsArePartsOf(q.selector, q.stages);
    var spans := Spans(env, q, table);
    if parts.agg.Some? {
      SummariesAgree(env, parts.agg.value.exprs, parts.agg.value.groupBy, spans);
    }
    if parts.sort.Some? {
      OrderAgrees(env, parts.agg.Some?, parts.sort.value.fields,
                  if parts.agg.Some? then Summaries(env, parts.agg.value.exprs, parts.agg.value.groupBy, spans) else spans);
    }
  }

  // ---- What the aggregates and the order are ----

  /** The numbers that are there. */
  function Numbers(xs: seq<Option<real>>): seq<real> {
    if xs == [] then []
    else Numbers(xs[..|xs| - 1]) + (if xs[|xs| - 1].Some? then [xs[|xs| - 1].value] else [])
  }

  function Total(xs: seq<real>): real {
    if xs == [] then 0.0 else Total(xs[..|xs| - 1]) + xs[|xs| - 1]
  }

  function Weights(q: seq<Sample>): seq<Option<real>> {
    seq(|q|, i requires 0 <= i < |q| => q[i].1)
  }

  function Values(q: seq<Sample>): seq<Option<real>> {
    seq(|q|, i requires 0 <= i < |q| => q[i].0)
  }

  /** value * weight, where both are there. */
  function Times(s: Sample): Option<real> {
    if s.0.Some? && s.1.Some? then Some(s.0.value * s.1.value) else None
  }

  function Weighted(q: seq<Sample>): seq<Option<real>> {
    seq(|q|, i requires 0 <= i < |q| => Times(q[i]))
  }

  lemma TimesAgrees(s: Sample)
    ensures Product(s) == Times(s)
  {
  }

  lemma {:induction false} TotalsAgree(q: seq<Sample>)
    ensures TotalWeight(q) == Total(Numbers(Weights(q)))
    ensures WeightedSum(q) == Total(Numbers(Weighted(q)))
  {
    hide Product, Times, Total, Numbers;
    if q == [] {
      NoTotal();
    } else {
      var n := |q| - 1;
      TotalsAgree(q[..n]);
      TimesAgrees(q[n]);
      assert Weights(q)[..n] == Weights(q[..n]) && Weighted(q)[..n] == Weighted(q[..n]);
      LastNumber(Weights(q));
      LastNumber(Weighted(q));
    }
  }

  lemma NoTotal()
    ensures Total(Numbers([])) == 0.0 && Weights([]) == [] && Weighted([]) == []
  {
  }

  lemma LastNumber(xs: seq<Option<real>>)
    requires xs != []
    ensures var x := xs[|xs| - 1];
            Total(Numbers(xs)) == Total(Numbers(xs[..|xs| - 1])) + if x.Some? then x.value else 0.0
  {
    var front := Numbers(xs[..|xs| - 1]);
    if xs[|xs| - 1].Some? {
      assert (front + [xs[|xs| - 1].value])[..|front|] == front;
    } else {
      assert front + [] == front;
    }
  }

  lemma {:induction false} ExtremesAgree(q: seq<Sample>)
    ensures Smallest(q).None? <==> Numbers(Values(q)) == []
    ensures Smallest(q).Some? ==>
              Smallest(q).value in Numbers(Values(q)) && forall x | x in Numbers(Values(q)) :: Smallest(q).value <= x
    ensures Largest(q).None? <==> Numbers(Values(q)) == []
    ensures Largest(q).Some? ==>
              Largest(q).value in Numbers(Values(q)) && forall x | x in Numbers(Values(q)) :: x <= Largest(q).value
  {
    if q != [] {
      var n := |q| - 1;
      ExtremesAgree(q[..n]);
      assert Values(q)[..n] == Values(q[..n]);
    }
  }

  /** Value and rounded weight, where both are there. */
  function Paired(env: Env, q: seq<Sample>): seq<(real, nat)> {
    if q == [] then []
    else
      var s := q[|q| - 1];
      Paired(env, q[..|q| - 1]) + (if s.0.Some? && s.1.Some? then [(s.0.value, env.unsigned(s.1.value))] else [])
  }

  lemma {:induction false} PairsAgree(env: Env, q: seq<Sample>)
    ensures WeightedValues(env, q) == Paired(env, q)
  {
    if q != [] {
      PairsAgree(env, q[..|q| - 1]);
    }
  }

  // Each aggregate by what it is: the total weight, the weighted total, their quotient, the least and the greatest value; and a
  // quantile at its own level.
  lemma AggregatesMean(env: Env, q: seq<Sample>)
    ensures AggregateNumber(env, Count, q) == Some(Total(Numbers(Weights(q))))
    ensures AggregateNumber(env, Sum, q) == Some(Total(Numbers(Weighted(q))))
    ensures var weight, avg := Total(Numbers(Weights(q))), AggregateNumber(env, Avg, q);
            (avg.None? <==> weight == 0.0) && (avg.Some? ==> avg.value * weight == Total(Numbers(Weighted(q))))
    ensures var least := AggregateNumber(env, Min, q);
            && (least.None? <==> Numbers(Values(q)) == [])
            && (least.Some? ==> least.value in Numbers(Values(q)) && forall x | x in Numbers(Values(q)) :: least.value <= x)
    ensures var most := AggregateNumber(env, Max, q);
            && (most.None? <==> Numbers(Values(q)) == [])
            && (most.Some? ==> most.value in Numbers(Values(q)) && forall x | x in Numbers(Values(q)) :: x <= most.value)
    ensures Paired(env, q) == [] ==>
              AggregateNumber(env, P50, q) == AggregateNumber(env, P95, q) == AggregateNumber(env, P99, q) == None
    ensures Paired(env, q) != [] ==>
              && AggregateNumber(env, P50, q) == Some(env.quantile(0.5, Paired(env, q)))
              && AggregateNumber(env, P95, q) == Some(env.quantile(0.95, Paired(env, q)))
              && AggregateNumber(env, P99, q) == Some(env.quantile(0.99, Paired(env, q)))
  {
    hide TotalWeight, WeightedSum, Smallest, Largest, Numbers, Total, WeightedValues, Paired;
    PairsAgree(env, q);
    TotalsAgree(q);
    ExtremesAgree(q);
    QuotientTimes(WeightedSum(q), TotalWeight(q));
  }

  lemma QuotientTimes(a: real, b: real)
    ensures b != 0.0 ==> (a / b) * b == a
  {
  }

  /** No two keys come before each other, and any third comes after the first of two or before the second. */
  ghost predicate StrictWeak(env: Env) {
    && (forall j, k | env.before(j, k) :: !env.before(k, j))
    && forall j, k, l | env.before(j, k) :: env.before(j, l) || env.before(l, k)
  }

  ghost predicate Ascending(env: Env, done: seq<(OrderKey, Row)>) {
    forall i, j | 0 <= i < j < |done| :: !env.before(done[j].0, done[i].0)
  }

  lemma {:induction false} InsertKeepsAll(env: Env, k: OrderKey, row: Row, done: seq<(OrderKey, Row)>)
    ensures multiset(InsertRow(env, k, row, done)) == multiset(done) + multiset{(k, row)}
  {
    if done != [] {
      assert done == [done[0]] + done[1..];
      if !env.before(k, done[0].0) {
        InsertKeepsAll(env, k, row, done[1..]);
      }
    }
  }

  /** What is not before the first that k precedes is not before k. */
  lemma NotBefore(env: Env, k: OrderKey, d: OrderKey, e: OrderKey)
    requires StrictWeak(env) && env.before(k, d) && (e == d || !env.before(e, d))
    ensures !env.before(e, k)
  {
  }

  lemma {:induction false} InsertKeepsOrder(env: Env, k: OrderKey, row: Row, done: seq<(OrderKey, Row)>)
    requires StrictWeak(env) && Ascending(env, done)
    ensures Ascending(env, InsertRow(env, k, row, done))
  {
    hide StrictWeak;
    if done != [] {
      if env.before(k, done[0].0) {
        forall j | 0 <= j < |done| ensures !env.before(done[j].0, k) {
          NotBefore(env, k, done[0].0, done[j].0);
        }
      } else {
        InsertKeepsOrder(env, k, row, done[1..]);
        var rest := InsertRow(env, k, row, done[1..]);
        InsertKeepsAll(env, k, row, done[1..]);
        forall j | 0 <= j < |rest| ensures !env.before(rest[j].0, done[0].0) {
          assert rest[j] in multiset(rest);
          assert rest[j] == (k, row) || rest[j] in done[1..];
        }
      }
    }
  }

  function Keyed(keys: seq<OrderKey>, rows: seq<Row>): seq<(OrderKey, Row)>
    requires |keys| == |rows|
  {
    seq(|rows|, i requires 0 <= i < |rows| => (keys[i], rows[i]))
  }

  /** Under any strict weak order of keys, the rows come out in order, none lost and none doubled. */
  lemma {:induction false} OrderSorts(env: Env, keys: seq<OrderKey>, rows: seq<Row>)
    requires |keys| == |rows| && StrictWeak(env)
    ensures Ascending(env, OrderOn(env, keys, rows))
    ensures multiset(OrderOn(env, keys, rows)) == multiset(Keyed(keys, rows))
  {
    hide InsertRow, StrictWeak, Ascending;
    if rows == [] {
      NothingAscends(env);
    } else {
      var n := |rows| - 1;
      OrderSorts(env, keys[..n], rows[..n]);
      InsertKeepsOrder(env, keys[n], rows[n], OrderOn(env, keys[..n], rows[..n]));
      InsertKeepsAll(env, keys[n], rows[n], OrderOn(env, keys[..n], rows[..n]));
      assert Keyed(keys, rows) == Keyed(keys[..n], rows[..n]) + [(keys[n], rows[n])];
    }
  }

  lemma NothingAscends(env: Env)
    ensures Ascending(env, [])
  {
  }
}
