/** What each pass does to the rows a plan yields. */
module PassMeaning {
  import opened Expressions
  import opened Options
  import opened Plans
  import opened Passes
  import ConstantFolding
  import Sorting

  // ---- Tables ----

  lemma {:induction false} WhereSame(rows: seq<Row>, f: Row -> bool, g: Row -> bool)
    requires forall r | r in rows :: f(r) == g(r)
    ensures Where(rows, f) == Where(rows, g)
  {
    if rows != [] {
      WhereSame(rows[..|rows| - 1], f, g);
    }
  }

  lemma {:induction false} WhereAll(rows: seq<Row>, f: Row -> bool)
    requires forall r | r in rows :: f(r)
    ensures Where(rows, f) == rows
  {
    if rows != [] {
      WhereAll(rows[..|rows| - 1], f);
    }
  }

  lemma {:induction false} WhereTwice(rows: seq<Row>, f: Row -> bool, g: Row -> bool)
    ensures Where(Where(rows, f), g) == Where(rows, (r: Row) => f(r) && g(r))
  {
    if rows != [] {
      var n := |rows| - 1;
      WhereTwice(rows[..n], f, g);
      WhereConcat(Where(rows[..n], f), if f(rows[n]) then [rows[n]] else [], g);
    }
  }

  lemma {:induction false} WhereConcat(a: seq<Row>, b: seq<Row>, f: Row -> bool)
    ensures Where(a + b, f) == Where(a, f) + Where(b, f)
  {
    if b == [] {
      assert a + b == a;
    } else {
      WhereConcat(a, b[..|b| - 1], f);
      assert (a + b)[..|a + b| - 1] == a + b[..|b| - 1];
    }
  }

  /** Filtering restricted rows by a test that only reads kept columns is restricting filtered rows. */
  lemma {:induction false} WhereRestrict(rows: seq<Row>, columns: seq<string>, f: Row -> bool)
    requires forall r :: f(Restrict(r, columns)) == f(r)
    ensures Where(RestrictAll(rows, columns), f) == RestrictAll(Where(rows, f), columns)
  {
    if rows != [] {
      var n := |rows| - 1;
      WhereRestrict(rows[..n], columns, f);
      assert RestrictAll(rows, columns)[..n] == RestrictAll(rows[..n], columns);
    }
  }

  lemma RestrictNone(rows: seq<Row>)
    ensures RestrictAll(rows, []) == rows
  {
  }

  lemma RestrictTwice(rows: seq<Row>, columns: seq<string>)
    ensures RestrictAll(RestrictAll(rows, columns), columns) == RestrictAll(rows, columns)
  {
    forall r: Row ensures Restrict(Restrict(r, columns), columns) == Restrict(r, columns) {}
  }

  // ---- Meaning of a stacked plan ----

  /** What the optional upper stages make of the rows below them. */
  function Upper(env: Env, parts: Parts, rows: seq<Row>): seq<Row>
    requires PartsTyped(parts)
  {
    var grouped := if parts.agg.Some? then AggregateRows(env, parts.agg.value.exprs, parts.agg.value.groupBy, rows) else rows;
    var sorted := if parts.sort.Some? then SortRows(env, parts.agg.Some?, parts.sort.value.fields, grouped) else grouped;
    if parts.limit.Some? then Take(sorted, parts.limit.value.n) else sorted
  }

  lemma StackMeaning(env: Env, b: Base, parts: Parts, table: seq<Row>)
    requires PartsTyped(parts)
    ensures Meaning(env, Stack(Bottom(b), parts), table) == Upper(env, parts, Meaning(env, Bottom(b), table))
  {
    hide AggregateRows, SortRows;
    StackHasAggregate(b, parts);
    var core := Bottom(b);
    var rows := Meaning(env, core, table);
    var grouped := if parts.agg.Some? then AggregateRows(env, parts.agg.value.exprs, parts.agg.value.groupBy, rows) else rows;
    assert Meaning(env, Grouped(core, parts), table) == grouped;
    assert HasAggregate(Grouped(core, parts)) == parts.agg.Some?;
    assert Meaning(env, Sorted(core, parts), table) ==
           if parts.sort.Some? then SortRows(env, parts.agg.Some?, parts.sort.value.fields, grouped) else grouped;
  }

  /** The rows the bottom of a plan yields. */
  function BaseRows(env: Env, b: Base, table: seq<Row>): seq<Row> {
    var kept := Where(table, (r: Row) => InRange(b.range, r) && Keeps(env, r, b.scanPred));
    var scanned := RestrictAll(if b.limit > 0 then Take(kept, b.limit) else kept, b.columns);
    RestrictAll(Where(scanned, (r: Row) => Keeps(env, r, b.filterPred)), b.projected)
  }

  lemma ScanMeaning(env: Env, b: Base, table: seq<Row>)
    ensures var kept := Where(table, (r: Row) => InRange(b.range, r) && Keeps(env, r, b.scanPred));
            Meaning(env, Scan("spans", b.range, b.scanPred, b.columns, b.limit), table) ==
            RestrictAll(if b.limit > 0 then Take(kept, b.limit) else kept, b.columns)
  {
    var range, pred := b.range, b.scanPred;
    WhereSame(table, (r: Row) => InRange(range, r) && Keeps(env, r, pred),
              (r: Row) => InRange(b.range, r) && Keeps(env, r, b.scanPred));
  }

  lemma FilterMeaning(env: Env, p: Plan, pred: Option<Expr>, table: seq<Row>)
    ensures Meaning(env, Filter(p, pred), table) == Where(Meaning(env, p, table), (r: Row) => Keeps(env, r, pred))
  {
    WhereSame(Meaning(env, p, table), (r: Row) => Keeps(env, r, pred), (r: Row) => Keeps(env, r, pred));
  }

  lemma BottomMeaning(env: Env, b: Base, table: seq<Row>)
    ensures Meaning(env, Bottom(b), table) == BaseRows(env, b, table)
  {
    var scan := Scan("spans", b.range, b.scanPred, b.columns, b.limit);
    var pred := b.scanPred;
    var f := (r: Row) => InRange(b.range, r) && Keeps(env, r, b.scanPred);
    var kept := Where(table, f);
    var scanned := RestrictAll(if b.limit > 0 then Take(kept, b.limit) else kept, b.columns);
    ScanMeaning(env, b, table);
    assert Meaning(env, scan, table) == scanned;
    FilterMeaning(env, scan, b.filterPred, table);
    assert Meaning(env, Bottom(b), table) == RestrictAll(Meaning(env, Filter(scan, b.filterPred), table), b.projected);
  }

  // ---- The passes ----

  lemma FoldedMeaning(env: Env, b: Base, table: seq<Row>)
    requires b.filterPred.Some? ==> ConstantFolding.Foldable(env, FlattenAnd(b.filterPred.value))
    ensures BaseRows(env, Folded(env, b), table) == BaseRows(env, b, table)
  {
    hide ConstantFolding.Foldable, ConstantFolding.SimplifyAnd;
    if b.filterPred.Some? {
      var pred := b.filterPred.value;
      var kept := Where(table, (r: Row) => InRange(b.range, r) && Keeps(env, r, b.scanPred));
      var scanned := RestrictAll(if b.limit > 0 then Take(kept, b.limit) else kept, b.columns);
      forall r ensures Keeps(env, r, Folded(env, b).filterPred) == Keeps(env, r, b.filterPred) {
        ConstantFolding.SimplifyAndKeeps(env, r, FlattenAnd(pred));
        AndOfKeeps(env, r, ConstantFolding.SimplifyAnd(env, FlattenAnd(pred)));
        FlattenKeeps(env, r, pred);
      }
      WhereSame(scanned, (r: Row) => Keeps(env, r, Folded(env, b).filterPred), (r: Row) => Keeps(env, r, b.filterPred));
    }
  }

  lemma PushedMeaning(env: Env, b: Base, table: seq<Row>)
    requires b.limit == 0 && b.columns == []
    ensures BaseRows(env, Pushed(b), table) == BaseRows(env, b, table)
  {
    if b.filterPred.Some? {
      var f := (r: Row) => InRange(b.range, r) && Keeps(env, r, b.scanPred);
      var g := (r: Row) => Keeps(env, r, b.filterPred);
      var h := (r: Row) => InRange(b.range, r) && Keeps(env, r, Pushed(b).scanPred);
      WhereTwice(table, f, g);
      forall r ensures h(r) == (f(r) && g(r)) {
        AndPairKeeps(env, r, b.scanPred, b.filterPred);
      }
      WhereSame(table, h, (r: Row) => f(r) && g(r));
      WhereAll(Where(table, h), (r: Row) => Keeps(env, r, None));
      RestrictNone(Where(table, h));
      RestrictNone(Where(table, f));
    }
  }

  lemma AndPairKeeps(env: Env, row: Row, a: Option<Expr>, b: Option<Expr>)
    ensures Keeps(env, row, AndAll([a, b])) <==> Keeps(env, row, a) && Keeps(env, row, b)
  {
    AndAllKeeps(env, row, [a, b]);
    assert a in [a, b] && b in [a, b];
  }

  /** The two bounds hold exactly of the rows in range. */
  lemma BoundsAreRange(env: Env, row: Row, range: TimeRange)
    ensures InRange(range, row) <==> Holds(env, row, LowerTerm(range)) && Holds(env, row, UpperTerm(range))
  {
  }

  lemma PrunedKeeps(env: Env, b: Base, row: Row)
    ensures (InRange(b.range, row) && Keeps(env, row, Pruned(env, b).scanPred)) ==
            (InRange(b.range, row) && Keeps(env, row, b.scanPred))
  {
    var existing := Flatten(b.scanPred);
    var lo, up := Missing(env, existing, LowerTerm(b.range)), Missing(env, existing, UpperTerm(b.range));
    if lo + up != [] {
      BoundsAreRange(env, row, b.range);
      AndOfKeeps(env, row, existing + (lo + up));
      AllHoldConcat(env, row, existing, lo + up);
      assert forall t | t in lo + up :: t == LowerTerm(b.range) || t == UpperTerm(b.range);
      if b.scanPred.Some? {
        FlattenKeeps(env, row, b.scanPred.value);
      }
    }
  }

  lemma PrunedMeaning(env: Env, b: Base, table: seq<Row>)
    ensures BaseRows(env, Pruned(env, b), table) == BaseRows(env, b, table)
  {
    hide Pruned, InRange;
    PrunedRest(env, b);
    forall r ensures (InRange(b.range, r) && Keeps(env, r, Pruned(env, b).scanPred)) ==
                     (InRange(b.range, r) && Keeps(env, r, b.scanPred)) {
      PrunedKeeps(env, b, r);
    }
    WhereSame(table, (r: Row) => InRange(b.range, r) && Keeps(env, r, Pruned(env, b).scanPred),
              (r: Row) => InRange(b.range, r) && Keeps(env, r, b.scanPred));
  }

  lemma PrunedRest(env: Env, b: Base)
    ensures Pruned(env, b) == b.(scanPred := Pruned(env, b).scanPred)
  {
  }

  /** Stopping the scan early cannot change the first n rows when no filter runs above it. */
  lemma LimitedMeaning(env: Env, b: Base, parts: Parts, table: seq<Row>)
    requires PartsTyped(parts) && b.limit == 0 && b.filterPred.None?
    ensures Upper(env, parts, BaseRows(env, Limited(b, parts), table)) == Upper(env, parts, BaseRows(env, b, table))
  {
    if LimitReachesScan(parts) {
      var n := parts.limit.value.n;
      var all := (r: Row) => Keeps(env, r, None);
      var kept := Where(table, (r: Row) => InRange(b.range, r) && Keeps(env, r, b.scanPred));
      WhereAll(RestrictAll(kept, b.columns), all);
      WhereAll(RestrictAll(Take(kept, n), b.columns), all);
    }
  }

  // ---- Projection ----

  /** Every column an expression or a field reads is among `columns`. */
  ghost predicate Reads(columns: seq<string>, wanted: seq<string>) {
    columns != [] ==> forall c | c in wanted :: c in columns
  }

  lemma OperandRestrict(env: Env, row: Row, columns: seq<string>, e: Expr)
    requires Reads(columns, ExprColumns(e))
    ensures Operand(env, Restrict(row, columns), e) == Operand(env, row, e)
  {
    if e.AttrRef? {
      assert "span_attributes" in ExprColumns(e) && "resource_attributes" in ExprColumns(e);
    } else if e.ColumnRef? {
      assert e.name in ExprColumns(e);
    }
  }

  lemma {:induction false} HoldsRestrict(env: Env, row: Row, columns: seq<string>, e: Expr)
    requires Reads(columns, ExprColumns(e))
    ensures Holds(env, Restrict(row, columns), e) == Holds(env, row, e)
  {
    if e.Binary? {
      assert forall c | c in ExprColumns(e.left) :: c in ExprColumns(e);
      assert forall c | c in ExprColumns(e.right) :: c in ExprColumns(e);
      if e.op == "AND" {
        HoldsRestrict(env, row, columns, e.left);
        HoldsRestrict(env, row, columns, e.right);
      } else {
        OperandRestrict(env, row, columns, e.left);
      }
    }
  }

  lemma FieldRestrict(env: Env, row: Row, columns: seq<string>, name: string)
    requires Reads(columns, FieldColumns(name))
    ensures FieldCell(env, Restrict(row, columns), name) == FieldCell(env, row, name)
  {
    OperandRestrict(env, row, columns, ResolveField(name));
  }

  lemma SamplesRestrict(env: Env, rows: seq<Row>, columns: seq<string>, field: string)
    requires Reads(columns, FieldColumns(field)) && Reads(columns, ["sampling_weight"])
    ensures Samples(env, RestrictAll(rows, columns), field) == Samples(env, rows, field)
  {
    assert "sampling_weight" in ["sampling_weight"];
    forall i | 0 <= i < |rows|
      ensures FieldCell(env, RestrictAll(rows, columns)[i], field) == FieldCell(env, rows[i], field)
    {
      FieldRestrict(env, rows[i], columns, field);
    }
  }

  /** Only the weights count for a count. */
  lemma {:induction false} TotalWeightOnly(a: seq<Sample>, b: seq<Sample>)
    requires |a| == |b| && forall i | 0 <= i < |a| :: a[i].1 == b[i].1
    ensures TotalWeight(a) == TotalWeight(b)
  {
    if a != [] {
      TotalWeightOnly(a[..|a| - 1], b[..|b| - 1]);
    }
  }

  lemma AggregateNumberRestrict(env: Env, rows: seq<Row>, columns: seq<string>, e: AggExpr)
    requires e.func != Count ==> Reads(columns, FieldColumns(e.field))
    requires Reads(columns, ["sampling_weight"])
    ensures AggregateNumber(env, e.func, Samples(env, RestrictAll(rows, columns), e.field)) ==
            AggregateNumber(env, e.func, Samples(env, rows, e.field))
  {
    if e.func == Count {
      assert "sampling_weight" in ["sampling_weight"];
      TotalWeightOnly(Samples(env, RestrictAll(rows, columns), e.field), Samples(env, rows, e.field));
    } else {
      SamplesRestrict(env, rows, columns, e.field);
    }
  }

  function RestrictGroups(groups: seq<(Key, seq<Row>)>, columns: seq<string>): seq<(Key, seq<Row>)> {
    seq(|groups|, i requires 0 <= i < |groups| => (groups[i].0, RestrictAll(groups[i].1, columns)))
  }

  lemma {:induction false} JoinRestrict(groups: seq<(Key, seq<Row>)>, k: Key, row: Row, columns: seq<string>)
    ensures JoinGroup(RestrictGroups(groups, columns), k, Restrict(row, columns)) ==
            RestrictGroups(JoinGroup(groups, k, row), columns)
  {
    if groups == [] {
      assert RestrictAll([row], columns) == [Restrict(row, columns)];
    } else {
      JoinRestrict(groups[1..], k, row, columns);
      assert RestrictGroups(groups, columns)[1..] == RestrictGroups(groups[1..], columns);
      assert RestrictAll(groups[0].1 + [row], columns) == RestrictAll(groups[0].1, columns) + [Restrict(row, columns)];
    }
  }

  lemma {:induction false} GroupOnRestrict(keys: seq<Key>, rows: seq<Row>, columns: seq<string>)
    requires |keys| == |rows|
    ensures GroupOn(keys, RestrictAll(rows, columns)) == RestrictGroups(GroupOn(keys, rows), columns)
  {
    if rows != [] {
      var n := |rows| - 1;
      GroupOnRestrict(keys[..n], rows[..n], columns);
      assert RestrictAll(rows, columns)[..n] == RestrictAll(rows[..n], columns);
      JoinRestrict(GroupOn(keys[..n], rows[..n]), keys[n], rows[n], columns);
    }
  }

  lemma GroupKeysRestrict(env: Env, rows: seq<Row>, columns: seq<string>, groupBy: seq<string>)
    requires forall f | f in groupBy :: Reads(columns, FieldColumns(f))
    ensures GroupKeys(env, RestrictAll(rows, columns), groupBy) == GroupKeys(env, rows, groupBy)
  {
    forall i | 0 <= i < |rows|
      ensures GroupKey(env, RestrictAll(rows, columns)[i], groupBy) == GroupKey(env, rows[i], groupBy)
    {
      forall j | 0 <= j < |groupBy|
        ensures FieldCell(env, Restrict(rows[i], columns), groupBy[j]) == FieldCell(env, rows[i], groupBy[j])
      {
        FieldRestrict(env, rows[i], columns, groupBy[j]);
      }
    }
  }

  /** The columns an aggregate needs are all kept. */
  ghost predicate ServesAggregate(columns: seq<string>, exprs: seq<AggExpr>, groupBy: seq<string>) {
    && Reads(columns, ["sampling_weight"])
    && (forall f | f in groupBy :: Reads(columns, FieldColumns(f)))
    && forall e | e in exprs && e.func != Count :: Reads(columns, FieldColumns(e.field))
  }

  lemma GroupRowRestrict(env: Env, exprs: seq<AggExpr>, groupBy: seq<string>, rows: seq<Row>, columns: seq<string>)
    requires ServesAggregate(columns, exprs, groupBy)
    ensures GroupRow(env, exprs, groupBy, RestrictAll(rows, columns)) == GroupRow(env, exprs, groupBy, rows)
  {
    hide AggregateNumber, FieldCell, Reads, RowFrom;
    var thin := RestrictAll(rows, columns);
    forall i | 0 <= i < |groupBy| && rows != []
      ensures FieldCell(env, thin[0], groupBy[i]) == FieldCell(env, rows[0], groupBy[i])
    {
      FieldRestrict(env, rows[0], columns, groupBy[i]);
    }
    forall i | 0 <= i < |exprs|
      ensures AggregateNumber(env, exprs[i].func, Samples(env, thin, exprs[i].field)) ==
              AggregateNumber(env, exprs[i].func, Samples(env, rows, exprs[i].field))
    {
      AggregateNumberRestrict(env, rows, columns, exprs[i]);
    }
    assert seq(|groupBy|, i requires 0 <= i < |groupBy| =>
             (groupBy[i], if thin == [] then None else FieldCell(env, thin[0], groupBy[i]))) ==
           seq(|groupBy|, i requires 0 <= i < |groupBy| =>
             (groupBy[i], if rows == [] then None else FieldCell(env, rows[0], groupBy[i])));
    assert seq(|exprs|, i requires 0 <= i < |exprs| =>
             (Alias(exprs[i]), NumberCell(env, AggregateNumber(env, exprs[i].func, Samples(env, thin, exprs[i].field))))) ==
           seq(|exprs|, i requires 0 <= i < |exprs| =>
             (Alias(exprs[i]), NumberCell(env, AggregateNumber(env, exprs[i].func, Samples(env, rows, exprs[i].field)))));
  }

  /** An aggregate over thinned rows is the aggregate over the rows. */
  lemma AggregateRestrict(env: Env, exprs: seq<AggExpr>, groupBy: seq<string>, rows: seq<Row>, columns: seq<string>)
    requires ServesAggregate(columns, exprs, groupBy)
    ensures AggregateRows(env, exprs, groupBy, RestrictAll(rows, columns)) == AggregateRows(env, exprs, groupBy, rows)
  {
    hide GroupRow, Reads, GroupOn;
    var thin := RestrictAll(rows, columns);
    GroupKeysRestrict(env, rows, columns, groupBy);
    GroupOnRestrict(GroupKeys(env, rows, groupBy), rows, columns);
    var groups := Groups(env, rows, groupBy);
    assert Groups(env, thin, groupBy) == RestrictGroups(groups, columns);
    forall i | 0 <= i < |groups|
      ensures GroupRow(env, exprs, groupBy, RestrictAll(groups[i].1, columns)) == GroupRow(env, exprs, groupBy, groups[i].1)
    {
      GroupRowRestrict(env, exprs, groupBy, groups[i].1, columns);
    }
  }

  lemma {:induction false} DedupSame(q: seq<string>, c: string)
    ensures c in Dedup(q) <==> c in q
  {
    if q != [] {
      DedupSame(q[..|q| - 1], c);
      assert q == q[..|q| - 1] + [q[|q| - 1]];
    }
  }

  lemma NeededSame(p: Plan, c: string)
    ensures c in NeededColumns(p) <==> c in ReferencedColumns(p)
  {
    Sorting.SortedStringsSame(Dedup(ReferencedColumns(p)));
    DedupSame(ReferencedColumns(p), c);
  }

  lemma {:induction false} FieldsColumnsHas(names: seq<string>, f: string, c: string)
    requires f in names && c in FieldColumns(f)
    ensures c in FieldsColumns(names)
  {
    var n := |names| - 1;
    assert names == names[..n] + [names[n]];
    if f != names[n] {
      FieldsColumnsHas(names[..n], f, c);
    }
  }

  lemma {:induction false} AggFieldsHas(exprs: seq<AggExpr>, e: AggExpr)
    requires e in exprs && e.field != ""
    ensures e.field in AggFields(exprs)
  {
    var n := |exprs| - 1;
    assert exprs == exprs[..n] + [exprs[n]];
    if e != exprs[n] {
      AggFieldsHas(exprs[..n], e);
    }
  }

  /** A stack over an aggregate refers to what the aggregate, the filter and the scan refer to. */
  lemma StackRefers(b: Base, parts: Parts, c: string)
    requires PartsTyped(parts) && parts.agg.Some?
    requires c in FieldsColumns(parts.agg.value.groupBy) || c in FieldsColumns(AggFields(parts.agg.value.exprs))
             || c in PredColumns(b.filterPred) || c == "timestamp" || c == "sampling_weight"
    ensures c in ReferencedColumns(Stack(Bottom(b), parts))
  {
    hide FieldsColumns, AggFields, PredColumns;
    var scan := Scan("spans", b.range, b.scanPred, b.columns, b.limit);
    assert "timestamp" in ["timestamp", "sampling_weight"] && "sampling_weight" in ["timestamp", "sampling_weight"];
    assert ReferencedColumns(scan) == NodeColumns(scan) + ["timestamp", "sampling_weight"];
    assert ReferencedColumns(Filter(scan, b.filterPred)) == PredColumns(b.filterPred) + ReferencedColumns(scan);
    assert ReferencedColumns(Bottom(b)) == [] + ReferencedColumns(Filter(scan, b.filterPred));
    var g := Grouped(Bottom(b), parts);
    assert ReferencedColumns(g) == NodeColumns(g) + ReferencedColumns(Bottom(b));
    assert c in ReferencedColumns(g);
    assert c in ReferencedColumns(Sorted(Bottom(b), parts));
  }

  /** Every aggregate but a count names a field, as the grammar demands. */
  ghost predicate AggNamesFields(parts: Parts)
    requires PartsTyped(parts)
  {
    parts.agg.Some? ==> forall e | e in parts.agg.value.exprs && e.func != Count :: e.field != ""
  }

  lemma NeededServes(b: Base, parts: Parts)
    requires PartsTyped(parts) && parts.agg.Some? && AggNamesFields(parts)
    ensures var columns := NeededColumns(Stack(Bottom(b), parts));
            ServesAggregate(columns, parts.agg.value.exprs, parts.agg.value.groupBy)
            && Reads(columns, PredColumns(b.filterPred))
  {
    hide NeededColumns, ReferencedColumns, Stack, PredColumns, FieldsColumns, AggFields;
    var p := Stack(Bottom(b), parts);
    var columns := NeededColumns(p);
    var exprs, groupBy := parts.agg.value.exprs, parts.agg.value.groupBy;
    forall c | c in ["sampling_weight"] || c in PredColumns(b.filterPred) ensures c in columns {
      StackRefers(b, parts, c);
      NeededSame(p, c);
    }
    forall f, c | f in groupBy && c in FieldColumns(f) ensures c in columns {
      FieldsColumnsHas(groupBy, f, c);
      StackRefers(b, parts, c);
      NeededSame(p, c);
    }
    forall e, c | e in exprs && e.func != Count && c in FieldColumns(e.field) ensures c in columns {
      AggFieldsHas(exprs, e);
      FieldsColumnsHas(AggFields(exprs), e.field, c);
      StackRefers(b, parts, c);
      NeededSame(p, c);
    }
  }

  lemma KeepsRestrict(env: Env, columns: seq<string>, pred: Option<Expr>)
    requires Reads(columns, PredColumns(pred))
    ensures forall r :: Keeps(env, Restrict(r, columns), pred) == Keeps(env, r, pred)
  {
    if pred.Some? {
      forall r ensures Keeps(env, Restrict(r, columns), pred) == Keeps(env, r, pred) {
        HoldsRestrict(env, r, columns, pred.value);
      }
    }
  }

  /** Scanning only the referenced columns changes nothing an aggregate query shows. */
  lemma ProjectedMeaning(env: Env, b: Base, parts: Parts, table: seq<Row>)
    requires PartsTyped(parts) && AggNamesFields(parts) && b.columns == [] && b.projected == []
    ensures Upper(env, parts, BaseRows(env, Projected(b, parts), table)) == Upper(env, parts, BaseRows(env, b, table))
  {
    hide ServesAggregate, Reads, NeededColumns, AggregateRows, SortRows, InRange;
    if parts.agg.Some? {
      var columns := NeededColumns(Stack(Bottom(b), parts));
      NeededServes(b, parts);
      var kept := Where(table, (r: Row) => InRange(b.range, r) && Keeps(env, r, b.scanPred));
      var scanned := if b.limit > 0 then Take(kept, b.limit) else kept;
      var f := (r: Row) => Keeps(env, r, b.filterPred);
      KeepsRestrict(env, columns, b.filterPred);
      WhereRestrict(scanned, columns, f);
      RestrictTwice(Where(scanned, f), columns);
      RestrictNone(scanned);
      RestrictNone(Where(scanned, f));
      ProjectedRows(env, b, parts, table);
      AggregateRestrict(env, parts.agg.value.exprs, parts.agg.value.groupBy, Where(scanned, f), columns);
    }
  }

  lemma ProjectedRows(env: Env, b: Base, parts: Parts, table: seq<Row>)
    requires PartsTyped(parts) && parts.agg.Some?
    ensures var columns := NeededColumns(Stack(Bottom(b), parts));
            var kept := Where(table, (r: Row) => InRange(b.range, r) && Keeps(env, r, b.scanPred));
            BaseRows(env, Projected(b, parts), table) ==
            RestrictAll(Where(RestrictAll(if b.limit > 0 then Take(kept, b.limit) else kept, columns),
                              (r: Row) => Keeps(env, r, b.filterPred)), columns)
  {
    hide NeededColumns, InRange;
    var c := Projected(b, parts);
    WhereSame(table, (r: Row) => InRange(b.range, r) && Keeps(env, r, b.scanPred),
              (r: Row) => InRange(c.range, r) && Keeps(env, r, c.scanPred));
    var kept := Where(table, (r: Row) => InRange(b.range, r) && Keeps(env, r, b.scanPred));
    var scanned := RestrictAll(if b.limit > 0 then Take(kept, b.limit) else kept, c.columns);
    WhereSame(scanned, (r: Row) => Keeps(env, r, b.filterPred), (r: Row) => Keeps(env, r, c.filterPred));
  }
}
