/** What the planner emits is text: reading it back gives the compiled statement, so the text runs as the query asks. */
module CompiledText {
  import opened Expressions
  import opened Options
  import opened Plans
  import opened Passes
  import opened Optimizer
  import opened Sql
  import opened PhysicalPlanner
  import opened QueryCompiler
  import opened QueryMeaning
  import opened ExplainText
  import opened SqlReader
  import opened SqlTextBack

  // ---- Compiled statements are of the reader's kind ----

  lemma AllowedIsColumn(c: string)
    requires AllowedColumn(c)
    ensures IsColumn(c)
  {
  }

  lemma KnownIsColumn(name: string)
    ensures KnownColumn(name).Some? ==> IsColumn(KnownColumn(name).value)
  {
    hide IsColumn;
    if KnownColumn(name).Some? {
      AllowedIsColumn(KnownColumn(name).value);
    }
  }

  lemma AttributeFine(key: string, args: seq<Value>)
    ensures OperandFine(AttrSql(key, args).0)
  {
    AllowedIsColumn("span_attributes");
    AllowedIsColumn("resource_attributes");
  }

  lemma FieldFine(name: string, args: seq<Value>)
    ensures OperandFine(FieldSql(name, args).0) && OperandFine(NumericFieldSql(name, args).0)
  {
    hide AttrSql, IsColumn;
    KnownIsColumn(name);
    AttributeFine(name, args);
  }

  lemma ComparisonFine(op: string, left: Expr, right: Expr, args: seq<Value>)
    requires ComparisonSql(op, left, right, args).Ok?
    ensures ConditionFine(ComparisonSql(op, left, right, args).value.0)
  {
    hide AttrSql, IsColumn, AllowedColumn;
    match left {
      case ColumnRef(name) => AllowedIsColumn(name);
      case AttrRef(key) => AttributeFine(key, args);
      case _ =>
    }
  }

  lemma {:induction false} PredicateFine(e: Expr, args: seq<Value>)
    requires ExprToSql(e, args).Ok?
    ensures ConditionFine(ExprToSql(e, args).value.0)
  {
    hide ComparisonSql, OperandFine;
    match e {
      case Literal(v) => HoleFine();
      case Binary(op, l, r) =>
        if op == "AND" {
          PredicateFine(l, args);
          PredicateFine(r, ExprToSql(l, args).value.1);
        } else {
          ComparisonFine(op, l, r, args);
        }
      case _ =>
    }
  }

  lemma HoleFine()
    ensures OperandFine(Hole)
  {
  }

  lemma AggregateIsFine(e: AggExpr, args: seq<Value>)
    requires AggSql(e, args).Ok?
    ensures AggregateFine(AggSql(e, args).value.0)
  {
    hide NumericFieldSql, IsColumn;
    FieldFine(e.field, args);
    AllowedIsColumn("sampling_weight");
  }

  lemma {:induction false} GroupItemsFine(fields: seq<string>, args: seq<Value>)
    requires forall f | f in fields :: Quotable(f)
    ensures var (items, keys, _) := GroupFields(fields, args);
            (forall i | i in items :: ItemFine(i)) && forall k | k in keys :: OperandFine(k)
  {
    hide FieldSql, OperandFine, Quotable;
    if fields != [] {
      var n := |fields| - 1;
      GroupItemsFine(fields[..n], args);
      FieldFine(fields[n], GroupFields(fields[..n], args).2);
    }
  }

  lemma {:induction false} AggItemsFine(exprs: seq<AggExpr>, args: seq<Value>)
    requires AggItems(exprs, args).Ok? && forall e | e in exprs :: Quotable(Alias(e))
    ensures forall i | i in AggItems(exprs, args).value.0 :: ItemFine(i)
  {
    hide AggSql, AggregateFine, Quotable, Alias;
    if exprs != [] {
      var n := |exprs| - 1;
      AggItemsFine(exprs[..n], args);
      AggregateIsFine(exprs[n], AggItems(exprs[..n], args).value.1);
    }
  }

  ghost predicate NamesQuotable(exprs: seq<AggExpr>, groupBy: seq<string>) {
    (forall f | f in groupBy :: Quotable(f)) && forall e | e in exprs :: Quotable(Alias(e))
  }

  /** No output name of an aggregation holds a backtick. */
  ghost predicate OutputsQuotable(p: Plan) {
    match p
    case Scan(_, _, _, _, _) => true
    case Aggregate(input, exprs, groupBy) => OutputsQuotable(input) && NamesQuotable(exprs, groupBy)
    case _ => OutputsQuotable(p.input)
  }

  lemma {:induction false} FoundQuotable(p: Plan)
    requires OutputsQuotable(p) && FindAggregate(p).Some?
    ensures FindAggregate(p).value.Aggregate? && NamesQuotable(FindAggregate(p).value.exprs, FindAggregate(p).value.groupBy)
  {
    hide NamesQuotable;
    if !p.Aggregate? {
      FoundQuotable(p.input);
    }
  }

  lemma {:induction false} OrderIsFine(fields: seq<SortField>, agg: Option<Plan>)
    requires agg.Some? ==> agg.value.Aggregate? && NamesQuotable(agg.value.exprs, agg.value.groupBy)
    requires OrderSql(fields, agg).Ok?
    ensures forall x | x in OrderSql(fields, agg).value :: OrderFine(agg.Some?, x)
  {
    hide FieldSql, OperandFine, Quotable, Alias;
    if fields != [] {
      var n := |fields| - 1;
      OrderIsFine(fields[..n], agg);
      FieldFine(fields[n].field, []);
    }
  }

  lemma ScanFine(p: Plan)
    requires p.Scan? && Compile(p).Ok?
    ensures StatementFine(Compile(p).value.sql)
  {
    hide IsColumn, AllowedColumn, ExprToSql, ConditionFine;
    if p.pred.Some? {
      PredicateFine(p.pred.value, []);
    }
    forall c | c in p.columns ensures IsColumn(c) {
      AllowedIsColumn(c);
    }
    SpansIsColumn();
  }

  lemma SpansIsColumn()
    ensures IsColumn("spans")
  {
  }

  lemma {:induction false} CompiledIsFine(p: Plan)
    requires Compile(p).Ok? && OutputsQuotable(p)
    ensures StatementFine(Compile(p).value.sql) && Aggregated(Compile(p).value.sql) == HasAggregate(p)
  {
    hide IsColumn, AllowedColumn, ExprToSql, ConditionFine, OperandFine, ItemFine, OrderFine, GroupFields, AggItems, OrderSql,
         NamesQuotable, FindAggregate;
    match p {
      case Scan(_, _, _, _, _) => ScanFine(p);
      case Project(input, _) => CompiledIsFine(input);
      case Filter(input, pred) =>
        CompiledIsFine(input);
        if pred.Some? {
          PredicateFine(pred.value, Compile(input).value.args);
        }
      case Aggregate(input, exprs, groupBy) =>
        CompiledIsFine(input);
        var args := Compile(input).value.args;
        BothQuotable(exprs, groupBy);
        GroupItemsFine(groupBy, args);
        AggItemsFine(exprs, GroupFields(groupBy, args).2);
      case Sort(input, fields) =>
        CompiledIsFine(input);
        FindAggregateIsOne(input);
        if FindAggregate(input).Some? {
          FoundQuotable(input);
        }
        OrderIsFine(fields, FindAggregate(input));
      case Limit(input, _) =>
        CompiledIsFine(input);
        HoleFine();
    }
  }

  lemma BothQuotable(exprs: seq<AggExpr>, groupBy: seq<string>)
    requires NamesQuotable(exprs, groupBy)
    ensures (forall f | f in groupBy :: Quotable(f)) && forall e | e in exprs :: Quotable(Alias(e))
  {
  }

  /** The text of any plan that compiles reads back as its statement: keywords, operators, functions, directions and all. */
  lemma TextReadsBack(pr: Printer, p: Plan)
    requires Compile(p).Ok? && OutputsQuotable(p)
    ensures StatementOf(SqlText(pr, Compile(p).value.sql)) == Some(Compile(p).value.sql)
  {
    hide Compile, OutputsQuotable, ReadStatement, SqlText, StatementFine;
    CompiledIsFine(p);
    var s := Compile(p).value.sql;
    StatementBack(pr, s, "");
    assert SqlText(pr, s) + "" == SqlText(pr, s);
  }

  // ---- Running the text ----

  /** What the driver does with a text and its arguments: read it, fill it, run it. */
  ghost function RunText(env: Env, text: string, args: seq<Value>, table: seq<Row>): Option<seq<Row>> {
    match StatementOf(text)
    case None => None
    case Some(s) => Execute(env, Physical(s, args), table)
  }

  ghost predicate QueryQuotable(q: SelectQuery)
    requires PartsTyped(QueryParts(q))
  {
    var agg := QueryParts(q).agg;
    agg.Some? ==> NamesQuotable(agg.value.exprs, agg.value.groupBy)
  }

  lemma StackQuotable(b: Base, parts: Parts)
    requires PartsTyped(parts) && (parts.agg.Some? ==> NamesQuotable(parts.agg.value.exprs, parts.agg.value.groupBy))
    ensures OutputsQuotable(Stack(Bottom(b), parts))
  {
    hide NamesQuotable;
    var scan := Scan("spans", b.range, b.scanPred, b.columns, b.limit);
    assert OutputsQuotable(Filter(scan, b.filterPred));
    assert OutputsQuotable(Bottom(b));
    assert OutputsQuotable(Grouped(Bottom(b), parts));
    assert OutputsQuotable(Sorted(Bottom(b), parts));
  }

  lemma QueryTextReadsBack(env: Env, pr: Printer, q: SelectQuery, skip: set<string>)
    requires PartsTyped(QueryParts(q)) && QueryQuotable(q) && Compile(OptimizeExcept(env, Build(q), skip)).Ok?
    ensures var sql := Compile(OptimizeExcept(env, Build(q), skip)).value.sql;
            StatementOf(SqlText(pr, sql)) == Some(sql)
  {
    hide Compile, Build, OptimizeExcept, Stack, Bottom, Optimized, QueryParts, QueryBase, OutputsQuotable, NamesQuotable,
         StatementOf, SqlText;
    BuildShape(q);
    OptimizedShape(env, QueryBase(q), QueryParts(q), skip);
    StackQuotable(Optimized(env, QueryBase(q), QueryParts(q), skip), QueryParts(q));
    TextReadsBack(pr, OptimizeExcept(env, Build(q), skip));
  }

  // Over known columns, with pruning on and limits kept behind filters, the emitted text with its arguments returns exactly what
  // the query asks for, on every table.
  lemma TextAnswers(env: Env, pr: Printer, q: SelectQuery, skip: set<string>, table: seq<Row>)
    requires WellFormedQuery(q) && KnownFields(q) && QueryQuotable(q) && SoundSkips(skip) && "partition_pruning" !in skip
    requires Compile(OptimizeExcept(env, Build(q), skip)).Ok?
    ensures var c := Compile(OptimizeExcept(env, Build(q), skip)).value;
            RunText(env, SqlText(pr, c.sql), c.args, table) == Some(Answer(env, q, table))
  {
    hide Compile, Build, OptimizeExcept, Execute, Meaning, Answer, WellFormedQuery, StatementOf, SqlText, QueryQuotable,
         QueryParts, KnownParts;
    QueryTextReadsBack(env, pr, q, skip);
    CompiledRuns(env, q, skip, table);
    OptimizePreservesMeaning(env, q, skip, table);
    PlanMeansQuery(env, q, table);
  }
}
