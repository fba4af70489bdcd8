/** The statement a plan stands for computes what the plan means. */
module SqlMeaning {
  import opened Expressions
  import opened Options
  import opened Plans
  import opened Passes
  import opened PassMeaning
  import opened Sql
  import opened PhysicalPlanner

  // ---- No placeholder is left in the full statement ----

  lemma AttrHasNoHole(key: string)
    ensures HolesE(FullAttr(key)) == 0
  {
    var k := Const(Str(key));
    assert HolesE(k) == 0;
    var own, shared := MapGet("span_attributes", k), MapGet("resource_attributes", k);
    assert HolesE(own) == HolesE(k);
    assert HolesE(shared) == HolesE(k);
    assert HolesE(Coalesce(own, shared)) == HolesE(own) + HolesE(shared);
  }

  lemma {:induction false} PredHasNoHole(e: Expr)
    ensures HolesE(FullPred(e)) == 0
  {
    if e.Binary? {
      if e.op == "AND" {
        PredHasNoHole(e.left);
        PredHasNoHole(e.right);
      } else if e.right.Literal? {
        if e.left.AttrRef? {
          AttrHasNoHole(e.left.key);
        }
        ApplyErases(e.op, FullOperand(e.op, e.left), e.right.value);
      }
    }
  }

  lemma {:induction false} HolesLZero(q: seq<SqlExpr>)
    requires forall e | e in q :: HolesE(e) == 0
    ensures HolesL(q) == 0
  {
    if q != [] {
      assert forall e | e in q[..|q| - 1] :: e in q;
      HolesLZero(q[..|q| - 1]);
    }
  }

  lemma {:induction false} HolesIZero(q: seq<Item>)
    requires forall i | i in q :: HolesL(ItemParts(i)) == 0
    ensures HolesI(q) == 0
  {
    if q != [] {
      assert forall e | e in q[..|q| - 1] :: e in q;
      HolesIZero(q[..|q| - 1]);
    }
  }

  lemma FieldHasNoHole(name: string)
    ensures HolesE(FullField(name)) == 0 && HolesE(FullNumeric(name)) == 0
  {
    hide KnownColumn;
    AttrHasNoHole(name);
  }

  lemma ItemsHaveNoHole(exprs: seq<AggExpr>, groupBy: seq<string>)
    ensures HolesI(FullFieldItems(groupBy) + FullAggItems(exprs)) == 0
    ensures HolesL(FullFields(groupBy)) == 0
  {
    hide KnownColumn, FullField, FullNumeric, HolesL;
    var a, b := FullFieldItems(groupBy), FullAggItems(exprs);
    forall i | i in a ensures HolesL(ItemParts(i)) == 0 {
      var k :| 0 <= k < |a| && a[k] == i;
      FieldHasNoHole(groupBy[k]);
      ParamsOfOne(FullField(groupBy[k]));
    }
    forall i | i in b ensures HolesL(ItemParts(i)) == 0 {
      var k :| 0 <= k < |b| && b[k] == i;
      AggHasNoHole(exprs[k]);
    }
    HolesIZero(a + b);
    forall e | e in FullFields(groupBy) ensures HolesE(e) == 0 {
      var k :| 0 <= k < |groupBy| && FullFields(groupBy)[k] == e;
      FieldHasNoHole(groupBy[k]);
    }
    HolesLZero(FullFields(groupBy));
  }

  lemma AggHasNoHole(e: AggExpr)
    ensures HolesL(AggParts(FullAgg(e))) == 0
  {
    hide KnownColumn, FullNumeric;
    FieldHasNoHole(e.field);
    var x := FullNumeric(e.field);
    assert HolesE(WEIGHT) == 0;
    forall p | p in AggParts(FullAgg(e)) ensures HolesE(p) == 0 {}
    HolesLZero(AggParts(FullAgg(e)));
  }

  lemma OrderHasNoHole(fields: seq<SortField>, over: bool)
    ensures HolesL(OrderExprs(FullOrder(fields, over))) == 0
  {
    hide KnownColumn, FullField;
    var es := OrderExprs(FullOrder(fields, over));
    forall e | e in es ensures HolesE(e) == 0 {
      var k :| 0 <= k < |es| && es[k] == e;
      FieldHasNoHole(fields[k].field);
    }
    HolesLZero(es);
  }

  lemma {:induction false} FullHasNoHole(p: Plan)
    ensures Holes(Full(p)) == 0
  {
    hide FullPred, FullFieldItems, FullAggItems, FullFields, FullOrder, HolesI;
    match p {
      case Scan(_, _, pred, _, limit) =>
        if pred.Some? {
          PredHasNoHole(pred.value);
          ParamsOfOne(FullPred(pred.value));
        }
        ParamsOfOne(Const(Int(limit)));
        assert HolesL([]) == 0;
      case Project(input, _) => FullHasNoHole(input);
      case Filter(input, pred) =>
        FullHasNoHole(input);
        if pred.Some? {
          PredHasNoHole(pred.value);
        }
      case Aggregate(input, exprs, groupBy) =>
        FullHasNoHole(input);
        ItemsHaveNoHole(exprs, groupBy);
      case Sort(input, fields) =>
        FullHasNoHole(input);
        OrderHasNoHole(fields, HasAggregate(input));
      case Limit(input, _) => FullHasNoHole(input);
    }
  }

  // ---- Predicates ----

  lemma AttrEval(env: Env, row: Row, key: string)
    ensures Eval(env, row, FullAttr(key)) ==
            var t := AttrText(row, key); if t.Some? then Some(Cell(t.value, None)) else None
  {
    var k := Const(Str(key));
    assert Eval(env, row, k) == Some(Cell(key, None));
  }

  lemma ComparisonTests(env: Env, row: Row, op: string, left: Expr, v: Value)
    requires ComparisonSql(op, left, Literal(v), []).Ok? && op != "AND"
    ensures Test(env, row, Apply(op, FullOperand(op, left), Const(v))) <==> Holds(env, row, Binary(op, left, Literal(v)))
  {
    if left.AttrRef? {
      AttrEval(env, row, left.key);
    }
    ConstEval(env, row, op, left, v);
  }

  lemma ConstEval(env: Env, row: Row, op: string, left: Expr, v: Value)
    ensures Eval(env, row, Const(v)) == Some(Cell(ValueString(env, v), NumberOf(v)))
  {
  }

  lemma {:induction false} PredTests(env: Env, row: Row, e: Expr, args: seq<Value>)
    requires ExprToSql(e, args).Ok?
    ensures Test(env, row, FullPred(e)) <==> Holds(env, row, e)
  {
    hide Apply, FullOperand, OperandSql, CellHolds, Operand;
    if e.Binary? {
      if e.op == "AND" {
        PredTests(env, row, e.left, args);
        PredTests(env, row, e.right, ExprToSql(e.left, args).value.1);
      } else {
        OperandOkAny(e.op, e.left, args);
        ComparisonTests(env, row, e.op, e.left, e.right.value);
      }
    }
  }

  lemma OperandOkAny(op: string, left: Expr, args: seq<Value>)
    requires OperandSql(op, left, args).Ok?
    ensures OperandSql(op, left, []).Ok?
  {
  }

  // ---- Aggregates over known columns ----

  predicate Known(name: string) {
    KnownColumn(name).Some?
  }

  lemma KnownField(env: Env, row: Row, name: string)
    requires Known(name)
    ensures Eval(env, row, FullField(name)) == FieldCell(env, row, name)
    ensures Eval(env, row, FullNumeric(name)) == FieldCell(env, row, name)
  {
    hide KnownColumn;
  }

  function Firsts(q: seq<Sample>): seq<Option<real>> {
    seq(|q|, i requires 0 <= i < |q| => q[i].0)
  }

  function Seconds(q: seq<Sample>): seq<Option<real>> {
    seq(|q|, i requires 0 <= i < |q| => q[i].1)
  }

  function Products(q: seq<Sample>): seq<Option<real>> {
    seq(|q|, i requires 0 <= i < |q| => Product(q[i]))
  }

  lemma {:induction false} FoldsAgree(env: Env, q: seq<Sample>)
    ensures SumUp(Seconds(q)) == TotalWeight(q)
    ensures SumUp(Products(q)) == WeightedSum(q)
    ensures MinUp(Firsts(q)) == Smallest(q)
    ensures MaxUp(Firsts(q)) == Largest(q)
    ensures Pairs(env, Firsts(q), Seconds(q)) == WeightedValues(env, q)
  {
    hide Product;
    if q != [] {
      var n := |q| - 1;
      FoldsAgree(env, q[..n]);
      assert Firsts(q)[..n] == Firsts(q[..n]);
      assert Seconds(q)[..n] == Seconds(q[..n]);
      assert Products(q)[..n] == Products(q[..n]);
    }
  }

  lemma WeightNumbers(env: Env, rows: seq<Row>, field: string)
    ensures Numbers(env, rows, WEIGHT) == Seconds(Samples(env, rows, field))
  {
    forall i | 0 <= i < |rows| ensures Numbers(env, rows, WEIGHT)[i] == Seconds(Samples(env, rows, field))[i] {
      assert Eval(env, rows[i], WEIGHT) == ColumnCell(rows[i], "sampling_weight");
    }
  }

  lemma TimesNumber(env: Env, row: Row, x: SqlExpr)
    ensures CellNumber(Eval(env, row, Times(x, WEIGHT))) ==
            Product((CellNumber(Eval(env, row, x)), Weight(row)))
  {
    hide Product;
    assert Eval(env, row, WEIGHT) == ColumnCell(row, "sampling_weight");
  }

  lemma FieldNumbers(env: Env, rows: seq<Row>, field: string)
    requires Known(field)
    ensures Numbers(env, rows, FullNumeric(field)) == Firsts(Samples(env, rows, field))
    ensures Numbers(env, rows, Times(FullNumeric(field), WEIGHT)) == Products(Samples(env, rows, field))
  {
    hide FullNumeric, FieldCell, Known;
    var x := FullNumeric(field);
    forall i | 0 <= i < |rows|
      ensures Numbers(env, rows, x)[i] == Firsts(Samples(env, rows, field))[i]
      ensures Numbers(env, rows, Times(x, WEIGHT))[i] == Products(Samples(env, rows, field))[i]
    {
      KnownField(env, rows[i], field);
      TimesNumber(env, rows[i], x);
    }
  }

  lemma AggregateAgrees(env: Env, rows: seq<Row>, e: AggExpr)
    requires e.func == Count || (Known(e.field) && !e.func.Unsupported?)
    ensures AggResult(env, FullAgg(e), rows) == AggregateNumber(env, e.func, Samples(env, rows, e.field))
  {
    hide FullNumeric, Known, Numbers, Samples, SumUp, MinUp, MaxUp, Pairs, TotalWeight, WeightedSum, Smallest, Largest,
         WeightedValues, Firsts, Seconds, Products;
    WeightNumbers(env, rows, e.field);
    FoldsAgree(env, Samples(env, rows, e.field));
    if e.func != Count {
      FieldNumbers(env, rows, e.field);
    }
  }

  /** Every group-by field, and every field an aggregate but a count takes, is a column. */
  ghost predicate KnownAggregate(exprs: seq<AggExpr>, groupBy: seq<string>) {
    && (forall f | f in groupBy :: Known(f))
    && forall e | e in exprs && e.func != Count :: Known(e.field)
  }

  lemma GroupRowAgrees(env: Env, exprs: seq<AggExpr>, groupBy: seq<string>, rows: seq<Row>)
    requires KnownAggregate(exprs, groupBy) && forall e | e in exprs :: !e.func.Unsupported?
    ensures ItemRow(env, FullFieldItems(groupBy) + FullAggItems(exprs), rows) == GroupRow(env, exprs, groupBy, rows)
  {
    hide AggResult, AggregateNumber, FullAgg, FullField, FieldCell, Known, RowFrom, NumberCell;
    var items := FullFieldItems(groupBy) + FullAggItems(exprs);
    forall i | 0 <= i < |groupBy| && rows != []
      ensures Eval(env, rows[0], FullField(groupBy[i])) == FieldCell(env, rows[0], groupBy[i])
    {
      KnownField(env, rows[0], groupBy[i]);
    }
    forall i | 0 <= i < |exprs|
      ensures AggResult(env, FullAgg(exprs[i]), rows) ==
              AggregateNumber(env, exprs[i].func, Samples(env, rows, exprs[i].field))
    {
      AggregateAgrees(env, rows, exprs[i]);
    }
    var cells := seq(|items|, i requires 0 <= i < |items| => ItemCell(env, items[i], rows));
    var plain := seq(|groupBy|, i requires 0 <= i < |groupBy| =>
                   (groupBy[i], if rows == [] then None else FieldCell(env, rows[0], groupBy[i])));
    var aggs := seq(|exprs|, i requires 0 <= i < |exprs| =>
                  (Alias(exprs[i]), NumberCell(env, AggregateNumber(env, exprs[i].func, Samples(env, rows, exprs[i].field)))));
    forall i | 0 <= i < |items| ensures cells[i] == (plain + aggs)[i] {
      if i < |groupBy| {
        assert items[i] == ItemExpr(FullField(groupBy[i]), groupBy[i]);
      } else {
        assert items[i] == ItemAgg(FullAgg(exprs[i - |groupBy|]), Alias(exprs[i - |groupBy|]));
      }
    }
    assert cells == plain + aggs;
  }

  lemma GroupsAgree(env: Env, rows: seq<Row>, groupBy: seq<string>)
    requires forall f | f in groupBy :: Known(f)
    ensures SqlGroups(env, rows, FullFields(groupBy)) == Groups(env, rows, groupBy)
  {
    hide FullField, FieldCell, Known, GroupOn;
    forall i | 0 <= i < |rows| ensures ExprKey(env, rows[i], FullFields(groupBy)) == GroupKey(env, rows[i], groupBy) {
      forall j | 0 <= j < |groupBy|
        ensures Eval(env, rows[i], FullField(groupBy[j])) == FieldCell(env, rows[i], groupBy[j])
      {
        KnownField(env, rows[i], groupBy[j]);
      }
    }
    assert ExprKeys(env, rows, FullFields(groupBy)) == GroupKeys(env, rows, groupBy);
  }

  lemma OrderKeysAgree(env: Env, row: Row, fields: seq<SortField>, over: bool)
    requires over || forall f | f in fields :: Known(f.field)
    ensures OrderKeyOf(env, row, FullOrder(fields, over)) == SortKey(env, over, row, fields)
  {
    hide FullField, FieldCell, Known;
    forall j | 0 <= j < |fields|
      ensures Eval(env, row, FullOrder(fields, over)[j].0) == SortCell(env, over, row, fields[j].field)
    {
      if over {
        assert Eval(env, row, Col(fields[j].field)) == ColumnCell(row, fields[j].field);
      } else {
        assert fields[j] in fields;
        KnownField(env, row, fields[j].field);
      }
    }
  }

  // ---- Whole plans ----

  /** The scan's predicate already implies its time range. */
  ghost predicate ScanPruned(env: Env, b: Base) {
    forall row | Keeps(env, row, b.scanPred) :: InRange(b.range, row)
  }

  lemma {:induction false} WhereRestricted(rows: seq<Row>, columns: seq<string>, f: Row -> bool)
    ensures RestrictAll(Where(RestrictAll(rows, columns), f), columns) == Where(RestrictAll(rows, columns), f)
  {
    if rows != [] {
      var n := |rows| - 1;
      WhereRestricted(rows[..n], columns, f);
      assert RestrictAll(rows, columns)[..n] == RestrictAll(rows[..n], columns);
      assert Restrict(Restrict(rows[n], columns), columns) == Restrict(rows[n], columns);
    }
  }

  lemma CondTests(env: Env, pred: Option<Expr>, args: seq<Value>)
    requires pred.Some? ==> ExprToSql(pred.value, args).Ok?
    ensures forall row :: (pred.Some? ==> Test(env, row, FullPred(pred.value))) == Keeps(env, row, pred)
  {
    if pred.Some? {
      forall row ensures Test(env, row, FullPred(pred.value)) == Holds(env, row, pred.value) {
        PredTests(env, row, pred.value, args);
      }
    }
  }

  /** The rows of the bottom: the scan's SQL and, if the filter stayed, the subquery around it. */
  lemma BottomRuns(env: Env, b: Base, table: seq<Row>)
    requires Compile(Bottom(b)).Ok? && ScanPruned(env, b) && (b.projected == [] || b.projected == b.columns)
    ensures Run(env, Full(Bottom(b)), table) == BaseRows(env, b, table)
  {
    hide FullPred, ExprToSql, Test, Keeps, InRange;
    var scan := Scan("spans", b.range, b.scanPred, b.columns, b.limit);
    assert Full(Bottom(b)) == Full(Filter(scan, b.filterPred));
    BottomParts(b);
    ScanRuns(env, b, table);
    var kept := Where(table, (r: Row) => InRange(b.range, r) && Keeps(env, r, b.scanPred));
    var raw := if b.limit > 0 then Take(kept, b.limit) else kept;
    var scanned := RestrictAll(raw, b.columns);
    var f := (r: Row) => Keeps(env, r, b.filterPred);
    if b.filterPred.Some? {
      var w := FullPred(b.filterPred.value);
      CondTests(env, b.filterPred, FilterArgs(b));
      WhereSame(scanned, (r: Row) => Test(env, r, w), f);
      assert Full(Filter(scan, b.filterPred)) == SelectWhere(Full(scan), w);
      WhereRuns(env, Full(scan), w, table);
    } else {
      NilKeepsAll(env, scanned, b.filterPred);
    }
    RestrictNone(Where(scanned, f));
    WhereRestricted(raw, b.columns, f);
  }

  lemma NilKeepsAll(env: Env, rows: seq<Row>, pred: Option<Expr>)
    requires pred.None?
    ensures Where(rows, (r: Row) => Keeps(env, r, pred)) == rows
  {
    WhereAll(rows, (r: Row) => Keeps(env, r, pred));
  }

  lemma WhereRuns(env: Env, child: Statement, w: SqlExpr, table: seq<Row>)
    ensures Run(env, SelectWhere(child, w), table) == Where(Run(env, child, table), (r: Row) => Test(env, r, w))
  {
    WhereSame(Run(env, child, table), (r: Row) => Test(env, r, w), (r: Row) => Test(env, r, w));
  }

  function FilterArgs(b: Base): seq<Value> {
    Bound(Scan("spans", b.range, b.scanPred, b.columns, b.limit))
  }

  lemma BottomParts(b: Base)
    requires Compile(Bottom(b)).Ok?
    ensures var scan := Scan("spans", b.range, b.scanPred, b.columns, b.limit);
            CompileScan(scan).Ok? && (b.scanPred.Some? ==> ExprToSql(b.scanPred.value, []).Ok?)
    ensures b.filterPred.Some? ==> ExprToSql(b.filterPred.value, FilterArgs(b)).Ok?
  {
    hide ExprToSql;
    var scan := Scan("spans", b.range, b.scanPred, b.columns, b.limit);
    assert Compile(Bottom(b)) == Compile(Filter(scan, b.filterPred));
    assert Compile(scan) == CompileScan(scan);
    CompileIsFull(scan);
  }

  lemma ScanRuns(env: Env, b: Base, table: seq<Row>)
    requires b.scanPred.Some? ==> ExprToSql(b.scanPred.value, []).Ok?
    requires ScanPruned(env, b)
    ensures var kept := Where(table, (r: Row) => InRange(b.range, r) && Keeps(env, r, b.scanPred));
            Run(env, Full(Scan("spans", b.range, b.scanPred, b.columns, b.limit)), table) ==
            RestrictAll(if b.limit > 0 then Take(kept, b.limit) else kept, b.columns)
  {
    hide FullPred, ExprToSql, Test, Keeps, InRange;
    var cond := if b.scanPred.Some? then Some(FullPred(b.scanPred.value)) else None;
    CondTests(env, b.scanPred, []);
    WhereSame(table, (r: Row) => cond.Some? ==> Test(env, r, cond.value),
              (r: Row) => InRange(b.range, r) && Keeps(env, r, b.scanPred));
  }
}
