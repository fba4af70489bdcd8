/** The whole query path, AST to plan to SQL: what the emitted statement computes, and when its arguments line up. */
module QueryCompiler {
  import opened Expressions
  import opened Options
  import opened Plans
  import opened Passes
  import opened PassMeaning
  import opened Sql
  import opened PhysicalPlanner
  import opened SqlMeaning
  import opened Optimizer
  import ConstantFolding
  import Sorting

  /** Group-by, aggregate and (without an aggregate) sort fields are physical columns. */
  ghost predicate KnownParts(parts: Parts)
    requires PartsTyped(parts)
  {
    if parts.agg.Some? then KnownAggregate(parts.agg.value.exprs, parts.agg.value.groupBy)
    else parts.sort.Some? ==> forall f | f in parts.sort.value.fields :: Known(f.field)
  }

  // ---- The statement computes the plan's rows ----

  lemma SupportedItems(exprs: seq<AggExpr>, args: seq<Value>)
    requires AggItems(exprs, args).Ok?
    ensures forall e | e in exprs :: !e.func.Unsupported?
  {
    if exprs != [] {
      var n := |exprs| - 1;
      SupportedItems(exprs[..n], args);
      assert exprs == exprs[..n] + [exprs[n]];
    }
  }

  lemma GroupRuns(env: Env, child: Statement, exprs: seq<AggExpr>, groupBy: seq<string>, table: seq<Row>)
    requires KnownAggregate(exprs, groupBy) && forall e | e in exprs :: !e.func.Unsupported?
    ensures Run(env, SelectGroup(FullFieldItems(groupBy) + FullAggItems(exprs), child, FullFields(groupBy)), table) ==
            AggregateRows(env, exprs, groupBy, Run(env, child, table))
  {
    hide FullFieldItems, FullAggItems, FullFields, ItemRow, GroupRow, SqlGroups, Groups, KnownAggregate;
    var below := Run(env, child, table);
    KnownGroups(exprs, groupBy);
    GroupsAgree(env, below, groupBy);
    var groups := Groups(env, below, groupBy);
    forall i | 0 <= i < |groups|
      ensures ItemRow(env, FullFieldItems(groupBy) + FullAggItems(exprs), groups[i].1) ==
              GroupRow(env, exprs, groupBy, groups[i].1)
    {
      GroupRowAgrees(env, exprs, groupBy, groups[i].1);
    }
  }

  lemma KnownGroups(exprs: seq<AggExpr>, groupBy: seq<string>)
    requires KnownAggregate(exprs, groupBy)
    ensures forall f | f in groupBy :: Known(f)
  {
  }

  lemma OrderRuns(env: Env, child: Statement, fields: seq<SortField>, over: bool, table: seq<Row>)
    requires over || forall f | f in fields :: Known(f.field)
    ensures Run(env, SelectOrder(child, FullOrder(fields, over)), table) ==
            SortRows(env, over, fields, Run(env, child, table))
  {
    hide FullOrder, SortKey, OrderKeyOf, Known, OrderOn;
    var below := Run(env, child, table);
    forall i | 0 <= i < |below|
      ensures OrderKeyOf(env, below[i], FullOrder(fields, over)) == SortKey(env, over, below[i], fields)
    {
      OrderKeysAgree(env, below[i], fields, over);
    }
    assert seq(|below|, i requires 0 <= i < |below| => OrderKeyOf(env, below[i], FullOrder(fields, over))) ==
           seq(|below|, i requires 0 <= i < |below| => SortKey(env, over, below[i], fields));
  }

  /** Compilation of the whole compiles each part. */
  lemma StackParts(b: Base, parts: Parts)
    requires PartsTyped(parts) && Compile(Stack(Bottom(b), parts)).Ok?
    ensures Compile(Bottom(b)).Ok? && Compile(Grouped(Bottom(b), parts)).Ok? && Compile(Sorted(Bottom(b), parts)).Ok?
    ensures parts.agg.Some? ==> forall e | e in parts.agg.value.exprs :: !e.func.Unsupported?
  {
    hide Bottom, GroupFields, AggItems, OrderSql, FindAggregate;
    var core := Bottom(b);
    var sorted := Sorted(core, parts);
    assert Compile(sorted).Ok?;
    var grouped := Grouped(core, parts);
    assert Compile(grouped).Ok?;
    if parts.agg.Some? {
      assert Compile(core).Ok?;
      SupportedItems(parts.agg.value.exprs, GroupFields(parts.agg.value.groupBy, Compile(core).value.args).2);
    }
  }

  lemma StackRuns(env: Env, b: Base, parts: Parts, table: seq<Row>)
    requires PartsTyped(parts) && KnownParts(parts) && ScanPruned(env, b)
    requires b.projected == [] || b.projected == b.columns
    requires Compile(Stack(Bottom(b), parts)).Ok?
    ensures Run(env, Full(Stack(Bottom(b), parts)), table) == Upper(env, parts, BaseRows(env, b, table))
  {
    hide Bottom, Compile, ScanPruned, BaseRows, AggregateRows, SortRows, FullOrder, FullFieldItems, FullAggItems, FullFields,
         Known, KnownAggregate;
    StackParts(b, parts);
    StackHasAggregate(b, parts);
    BottomRuns(env, b, table);
    var core := Bottom(b);
    var rows := BaseRows(env, b, table);
    var grouped := Grouped(core, parts);
    if parts.agg.Some? {
      GroupRuns(env, Full(core), parts.agg.value.exprs, parts.agg.value.groupBy, table);
      assert Run(env, Full(grouped), table) ==
             AggregateRows(env, parts.agg.value.exprs, parts.agg.value.groupBy, rows);
    } else {
      assert Run(env, Full(grouped), table) == rows;
    }
    assert HasAggregate(grouped) == parts.agg.Some?;
    if parts.sort.Some? {
      OrderRuns(env, Full(grouped), parts.sort.value.fields, parts.agg.Some?, table);
      assert Full(Sorted(core, parts)) ==
             SelectOrder(Full(grouped), FullOrder(parts.sort.value.fields, parts.agg.Some?));
    }
    if parts.limit.Some? {
      var n := parts.limit.value.n;
      assert LimitOf(Const(Int(n))) == n;
      assert Full(Stack(core, parts)) == SelectLimit(Full(Sorted(core, parts)), Const(Int(n)));
    }
  }

  // ---- Arguments line up with placeholders exactly for known fields ----

  ghost predicate Aligned(p: Plan) {
    Bound(p) == Params(Full(p))
  }

  lemma {:induction false} FieldParams(fields: seq<string>)
    ensures ParamsL(FullFields(fields)) == ParamsI(FullFieldItems(fields))
    ensures (ParamsL(FullFields(fields)) == []) <==> forall f | f in fields :: Known(f)
  {
    hide FullField, Known, ParamsE, ItemParts;
    if fields != [] {
      var n := |fields| - 1;
      FieldParams(fields[..n]);
      assert FullFields(fields)[..n] == FullFields(fields[..n]);
      assert FullFieldItems(fields)[..n] == FullFieldItems(fields[..n]);
      assert fields == fields[..n] + [fields[n]];
      OneFieldParams(fields[n]);
      ItemExprErases(FullField(fields[n]), fields[n]);
    }
  }

  lemma OneFieldParams(name: string)
    ensures (ParamsE(FullField(name)) == []) <==> Known(name)
    ensures (ParamsE(FullNumeric(name)) == []) <==> Known(name)
    ensures forall v | v in ParamsE(FullNumeric(name)) :: v.Str?
  {
    hide KnownColumn, FullField, FullNumeric;
    FieldIsFull(name, []);
    NumericIsFull(name, []);
  }

  lemma AggParams(e: AggExpr)
    requires !e.func.Unsupported?
    ensures (ParamsL(AggParts(FullAgg(e))) == []) <==> e.func == Count || Known(e.field)
    ensures forall v | v in ParamsL(AggParts(FullAgg(e))) :: v.Str?
  {
    hide FullNumeric, Known, ParamsL;
    var x := FullNumeric(e.field);
    OneFieldParams(e.field);
    ParamsOfOne(x);
    ParamsOfTwo(x, WEIGHT);
    ParamsOfOne(Times(x, WEIGHT));
    ParamsOfTwo(Times(x, WEIGHT), WEIGHT);
    ParamsOfOne(WEIGHT);
  }

  lemma NoAggItems()
    ensures ParamsI(FullAggItems([])) == []
  {
  }

  lemma LastAggItem(exprs: seq<AggExpr>, e: AggExpr)
    ensures ParamsI(FullAggItems(exprs + [e])) == ParamsI(FullAggItems(exprs)) + ParamsL(AggParts(FullAgg(e)))
  {
    hide FullAgg, ParamsL, AggParts, Alias;
    assert (exprs + [e])[..|exprs|] == exprs;
    assert FullAggItems(exprs + [e])[..|exprs|] == FullAggItems(exprs);
  }

  lemma {:induction false} AggItemParams(exprs: seq<AggExpr>)
    requires forall e | e in exprs :: !e.func.Unsupported?
    ensures (ParamsI(FullAggItems(exprs)) == []) <==> forall e | e in exprs && e.func != Count :: Known(e.field)
    ensures forall v | v in ParamsI(FullAggItems(exprs)) :: v.Str?
  {
    hide FullAgg, Known, ParamsL, AggParts, ParamsI, FullAggItems, Alias;
    if exprs == [] {
      NoAggItems();
    } else {
      var front, e := exprs[..|exprs| - 1], exprs[|exprs| - 1];
      assert exprs == front + [e];
      AggItemParams(front);
      LastAggItem(front, e);
      AggParams(e);
    }
  }

  lemma {:induction false} OrderParams(fields: seq<SortField>, over: bool)
    ensures (ParamsL(OrderExprs(FullOrder(fields, over))) == []) <==> over || forall f | f in fields :: Known(f.field)
  {
    hide FullField, Known;
    if fields != [] {
      var n := |fields| - 1;
      OrderParams(fields[..n], over);
      assert OrderExprs(FullOrder(fields, over))[..n] == OrderExprs(FullOrder(fields[..n], over));
      assert fields == fields[..n] + [fields[n]];
      OneFieldParams(fields[n].field);
      assert ParamsE(Col(fields[n].field)) == [];
    }
  }

  /** A sequence with a time in it does not commute with a nonempty sequence of strings. */
  lemma TimesDoNotCommute(p: seq<Value>, i: seq<Value>, k: nat)
    requires k < |p| && p[k].Time? && (forall j | 0 <= j < k :: !p[j].Time?)
    requires i != [] && forall v | v in i :: v.Str?
    ensures p + i != i + p
  {
    assert (p + i)[k].Time?;
    if k < |i| {
      assert (i + p)[k] == i[k] && i[k] in i;
    } else {
      assert (i + p)[k] == p[k - |i|];
    }
  }

  lemma {:induction false} FirstTime(p: seq<Value>, m: nat) returns (k: nat)
    requires m < |p| && p[m].Time?
    ensures k < |p| && p[k].Time? && forall j | 0 <= j < k :: !p[j].Time?
    decreases m
  {
    k := m;
    if j :| 0 <= j < m && p[j].Time? {
      k := FirstTime(p, j);
    }
  }

  lemma BottomAligned(b: Base)
    ensures Bound(Bottom(b)) == Params(Full(Bottom(b)))
  {
    hide FullPred;
    var scan := Scan("spans", b.range, b.scanPred, b.columns, b.limit);
    assert Bound(Filter(scan, b.filterPred)) == Params(Full(Filter(scan, b.filterPred)));
  }

  /** Child arguments p, field arguments f, aggregate arguments a: bound as p f a, read as f a p f. */
  lemma ShuffledArguments(p: seq<Value>, f: seq<Value>, a: seq<Value>)
    ensures p + (f + a) == (f + a) + (p + f) <==> f == [] && p + a == a + p
  {
    if f != [] {
      assert |p + (f + a)| < |(f + a) + (p + f)|;
    } else {
      assert p + f == p && f + a == a;
    }
  }

  lemma CommutesWithTime(p: seq<Value>, a: seq<Value>)
    requires exists m :: 0 <= m < |p| && p[m].Time?
    requires forall v | v in a :: v.Str?
    ensures p + a == a + p <==> a == []
  {
    if a == [] {
      assert p + a == a + p;
    } else {
      var m :| 0 <= m < |p| && p[m].Time?;
      var k := FirstTime(p, m);
      TimesDoNotCommute(p, a, k);
    }
  }

  /** The attribute keys the aggregates bind. */
  function AggregateKeys(exprs: seq<AggExpr>): seq<Value> {
    ParamsI(FullAggItems(exprs))
  }

  lemma GroupedAligned(core: Plan, exprs: seq<AggExpr>, groupBy: seq<string>)
    requires Bound(core) == Params(Full(core))
    ensures Aligned(Aggregate(core, exprs, groupBy)) <==>
            && (forall f | f in groupBy :: Known(f))
            && Bound(core) + AggregateKeys(exprs) == AggregateKeys(exprs) + Bound(core)
  {
    hide FullFieldItems, FullAggItems, FullFields, Known, ParamsI, ParamsL;
    var p, f, a := Bound(core), ParamsI(FullFieldItems(groupBy)), AggregateKeys(exprs);
    ItemsConcat(FullFieldItems(groupBy), FullAggItems(exprs));
    FieldParams(groupBy);
    var q := Aggregate(core, exprs, groupBy);
    assert Bound(q) == p + (f + a);
    assert Params(Full(q)) == (f + a) + (p + f);
    ShuffledArguments(p, f, a);
  }

  // Grouping and unaggregated sort fields are columns, and what is bound below the aggregates reads the same before and
  // after the keys the aggregates bind.
  ghost predicate PartsAlign(b: Base, parts: Parts)
    requires PartsTyped(parts)
  {
    if parts.agg.Some? then
      var keys := AggregateKeys(parts.agg.value.exprs);
      && (forall f | f in parts.agg.value.groupBy :: Known(f))
      && Bound(Bottom(b)) + keys == keys + Bound(Bottom(b))
    else
      KnownParts(parts)
  }

  lemma SameTail(a: seq<Value>, b: seq<Value>, t: seq<Value>)
    ensures a + t == b + t <==> a == b
  {
    if a + t == b + t {
      assert |a| == |b|;
      assert a == (a + t)[..|a|] && b == (b + t)[..|b|];
    }
  }

  /** Exactly then every argument is bound to the placeholder it was meant for. */
  lemma StackAligned(b: Base, parts: Parts)
    requires PartsTyped(parts) && Compile(Stack(Bottom(b), parts)).Ok?
    ensures Aligned(Stack(Bottom(b), parts)) <==> PartsAlign(b, parts)
  {
    hide Bottom, Compile, FullOrder, FullFieldItems, FullAggItems, FullFields, Known, AggregateKeys, ParamsI, ParamsL;
    StackParts(b, parts);
    StackHasAggregate(b, parts);
    BottomAligned(b);
    var core := Bottom(b);
    var grouped, sorted := Grouped(core, parts), Sorted(core, parts);
    if parts.agg.Some? {
      GroupedAligned(core, parts.agg.value.exprs, parts.agg.value.groupBy);
    }
    assert HasAggregate(grouped) == parts.agg.Some?;
    if parts.sort.Some? {
      OrderParams(parts.sort.value.fields, parts.agg.Some?);
      var s := ParamsL(OrderExprs(FullOrder(parts.sort.value.fields, parts.agg.Some?)));
      assert Params(Full(sorted)) == Params(Full(grouped)) + s;
      assert Bound(sorted) == Bound(grouped);
      assert s == [] ==> Params(Full(grouped)) + s == Params(Full(grouped));
    }
    assert Aligned(sorted) <==> PartsAlign(b, parts);
    if parts.limit.Some? {
      var t := [Int(parts.limit.value.n)];
      assert ParamsE(Const(Int(parts.limit.value.n))) == t;
      SameTail(Bound(sorted), Params(Full(sorted)), t);
    }
  }

  lemma KnownPartsAlign(b: Base, parts: Parts)
    requires PartsTyped(parts) && (parts.agg.Some? ==> forall e | e in parts.agg.value.exprs :: !e.func.Unsupported?)
    ensures KnownParts(parts) ==> PartsAlign(b, parts)
    ensures (exists m :: 0 <= m < |Bound(Bottom(b))| && Bound(Bottom(b))[m].Time?) ==> (PartsAlign(b, parts) <==> KnownParts(parts))
  {
    hide Bottom, Bound, Known, ParamsI, FullAggItems;
    if parts.agg.Some? {
      var keys := AggregateKeys(parts.agg.value.exprs);
      AggItemParams(parts.agg.value.exprs);
      if keys == [] {
        assert Bound(Bottom(b)) + keys == keys + Bound(Bottom(b));
      }
      if exists m :: 0 <= m < |Bound(Bottom(b))| && Bound(Bottom(b))[m].Time? {
        CommutesWithTime(Bound(Bottom(b)), keys);
      }
    }
  }

  // ---- The range reaches the SQL ----

  /** What a folded predicate is made of. */
  ghost predicate Tame(t: Expr) {
    Plain(t) || t == Literal(Bool(false))
  }

  ghost predicate PlainLeft(left: Expr) {
    exists name :: Ident(name) && left == ResolveField(name)
  }

  ghost predicate PlainValues(q: ConstantFolding.Literals) {
    forall p | p in q :: p.1.Num? || p.1.Str?
  }

  ghost predicate PlainState(g: ConstantFolding.Gathered) {
    && (forall k | k in g.fields ::
          PlainLeft(g.fields[k].left) && PlainValues(g.fields[k].eq) && PlainValues(g.fields[k].neq))
    && (forall t | t in g.passthrough :: Plain(t))
  }

  lemma {:induction false} PutPlain(q: ConstantFolding.Literals, k: string, v: Value)
    requires PlainValues(q) && (v.Num? || v.Str?)
    ensures PlainValues(ConstantFolding.Put(q, k, v))
  {
    if q != [] && q[0].0 != k {
      assert forall p | p in q[1..] :: p in q;
      PutPlain(q[1..], k, v);
    } else if q != [] {
      assert forall p | p in q[1..] :: p in q;
    }
  }

  lemma {:induction false} GatherPlain(env: Env, terms: seq<Expr>)
    requires forall t | t in terms :: Plain(t)
    ensures PlainState(ConstantFolding.GatherAll(env, terms))
  {
    hide PlainLeft, ConstantFolding.Put, Ident, ResolveField, ConstantFolding.RaiseLower, ConstantFolding.DropUpper, Show;
    if terms != [] {
      var n := |terms| - 1;
      assert terms == terms[..n] + [terms[n]];
      GatherPlain(env, terms[..n]);
      var g, t := ConstantFolding.GatherAll(env, terms[..n]), terms[n];
      PlainHasLeft(t);
      var key := ConstantFolding.FieldKey(t.left);
      var v := t.right.value;
      if key in g.fields {
        PutPlain(g.fields[key].eq, ValueString(env, v), v);
        PutPlain(g.fields[key].neq, ValueString(env, v), v);
      }
      PutPlain([], ValueString(env, v), v);
    }
  }

  lemma PlainHasLeft(t: Expr)
    requires Plain(t)
    ensures t.Binary? && PlainLeft(t.left) && t.right.Literal? && (t.right.value.Num? || t.right.value.Str?)
    ensures ConstantFolding.Simple(t)
  {
  }

  lemma TermIsPlain(op: string, left: Expr, v: Value)
    requires PlainLeft(left) && (v.Num? || v.Str?) && ConstantFolding.Gathers(op) && (RangeOp(op) ==> v.Num?)
    ensures Plain(Binary(op, left, Literal(v)))
  {
  }

  lemma FieldTermsPlain(fs: ConstantFolding.FieldState)
    requires PlainLeft(fs.left) && PlainValues(fs.eq) && PlainValues(fs.neq)
    ensures forall t | t in ConstantFolding.FieldTerms(fs) :: Plain(t)
  {
    hide Plain, PlainLeft;
    forall t | t in ConstantFolding.FieldTerms(fs) ensures Plain(t) {
      if t in ConstantFolding.Terms(fs.left, "=", fs.eq) {
        TermIsPlain("=", fs.left, t.right.value);
      } else if fs.eq == [] && t in ConstantFolding.Terms(fs.left, "!=", fs.neq) {
        TermIsPlain("!=", fs.left, t.right.value);
      } else {
        TermIsPlain(t.op, fs.left, t.right.value);
      }
    }
  }

  lemma {:induction false} RebuildPlain(g: ConstantFolding.Gathered, n: nat)
    requires PlainState(g) && n <= |g.order| && forall k | k in g.order :: k in g.fields
    ensures var r := ConstantFolding.Rebuild(g, n); r.Some? ==> forall t | t in r.value :: Plain(t)
  {
    hide Plain, PlainLeft, PlainValues, ConstantFolding.FieldTerms, ConstantFolding.Contradicts;
    if n > 0 {
      RebuildPlain(g, n - 1);
      FieldTermsPlain(g.fields[g.order[n - 1]]);
    }
  }

  lemma SimplifyTame(env: Env, terms: seq<Expr>)
    requires forall t | t in terms :: Plain(t)
    ensures forall t | t in ConstantFolding.SimplifyAnd(env, terms) :: Tame(t)
  {
    hide Plain, PlainLeft, PlainValues, ConstantFolding.Rebuild;
    var g := ConstantFolding.GatherAll(env, terms);
    ConstantFolding.GatherAllIndexed(env, terms);
    GatherPlain(env, terms);
    RebuildPlain(g, |g.order|);
    var rebuilt := ConstantFolding.Rebuild(g, |g.order|);
    if rebuilt.Some? {
      forall t | t in ConstantFolding.SimplifyAnd(env, terms) ensures Plain(t) {
        Sorting.SortedSame(rebuilt.value + g.passthrough, (e: Expr) => Show(env, e), t);
      }
    }
  }

  lemma TimestampIsNoField(env: Env, name: string)
    requires Ident(name)
    ensures Show(env, ResolveField(name)) != "timestamp"
  {
    hide Ident;
    if KnownColumn(name).None? {
      assert Show(env, ResolveField(name))[4] == '(';
      assert "timestamp"[4] == 's';
    }
  }

  /** No term of a query prints like a bound on the timestamp column. */
  lemma TameShowsApart(env: Env, t: Expr, op: string, v: Value)
    requires Tame(t) && NoSpace(op)
    ensures Show(env, t) != Show(env, Binary(op, ColumnRef("timestamp"), Literal(v)))
  {
    var bound := Binary(op, ColumnRef("timestamp"), Literal(v));
    TermShows(env, bound);
    if t.Literal? {
      assert Show(env, t) == "false";
      assert Show(env, bound)[0] == '(';
    } else {
      var name :| Ident(name) && t.left == ResolveField(name);
      TermShows(env, t);
      FieldShows(env, name);
      TimestampIsNoField(env, name);
      var x, y := t.op + (" " + (Show(env, t.right) + ")")), op + (" " + (ShowValue(env, v) + ")"));
      if Show(env, t) == Show(env, bound) {
        assert Show(env, t)[1..] == Show(env, t.left) + (" " + x);
        assert Show(env, bound)[1..] == "timestamp" + (" " + y);
        SplitAtSpace(Show(env, t.left), x, "timestamp", y);
      }
    }
  }

  ghost predicate TamePred(pred: Option<Expr>) {
    forall t | t in Flatten(pred) :: Tame(t)
  }

  /** The pruned scan names both bounds, last in its predicate. */
  lemma PrunedHasBounds(env: Env, b: Base)
    requires TamePred(b.scanPred)
    ensures Pruned(env, b).scanPred ==
            AndAll(Somes(Flatten(b.scanPred) + ([LowerTerm(b.range)] + [UpperTerm(b.range)])))
  {
    hide Tame;
    var existing := Flatten(b.scanPred);
    forall t | t in existing
      ensures Show(env, t) != Show(env, LowerTerm(b.range)) && Show(env, t) != Show(env, UpperTerm(b.range))
    {
      assert NoSpace(">=") && NoSpace("<");
      TameShowsApart(env, t, ">=", Time(b.range.start));
      TameShowsApart(env, t, "<", Time(b.range.end));
    }
    assert !HasTerm(env, existing, LowerTerm(b.range)) && !HasTerm(env, existing, UpperTerm(b.range));
  }

  lemma PrunedImpliesRange(env: Env, b: Base)
    requires TamePred(b.scanPred)
    ensures ScanPruned(env, Pruned(env, b))
  {
    hide Pruned, InRange, LowerTerm, UpperTerm, TamePred;
    PrunedHasBounds(env, b);
    PrunedRest(env, b);
    var terms := Flatten(b.scanPred) + ([LowerTerm(b.range)] + [UpperTerm(b.range)]);
    forall row | Keeps(env, row, AndAll(Somes(terms))) ensures InRange(b.range, row) {
      AndOfKeeps(env, row, terms);
      assert LowerTerm(b.range) in terms && UpperTerm(b.range) in terms;
      BoundsAreRange(env, row, b.range);
    }
  }

  /** The last argument of a pruned predicate is the range's end. */
  lemma PrunedBindsTime(env: Env, b: Base)
    requires TamePred(b.scanPred)
    ensures var pred := Pruned(env, b).scanPred;
            pred.Some? && ParamsE(FullPred(pred.value)) != []
            && ParamsE(FullPred(pred.value))[|ParamsE(FullPred(pred.value))| - 1] == Time(b.range.end)
  {
    hide Pruned, TamePred;
    PrunedHasBounds(env, b);
    var before := Flatten(b.scanPred) + [LowerTerm(b.range)];
    var terms := Flatten(b.scanPred) + ([LowerTerm(b.range)] + [UpperTerm(b.range)]);
    assert terms == before + [UpperTerm(b.range)];
    var n := |before|;
    assert Somes(terms)[..n] == Somes(before);
    assert AndAll(Somes(terms)) == AndTwo(AndAll(Somes(before)), Some(UpperTerm(b.range)));
    ApplyErases("<", Col("timestamp"), Time(b.range.end));
    assert FullPred(UpperTerm(b.range)) == Apply("<", Col("timestamp"), Const(Time(b.range.end)));
    assert ParamsE(FullPred(UpperTerm(b.range))) == [] + [Time(b.range.end)];
    var pred := AndAll(Somes(terms)).value;
    if IsAnd(pred) {
      assert ParamsE(FullPred(pred)) == ParamsE(FullPred(pred.left)) + ParamsE(FullPred(pred.right));
    }
  }

  // ---- From query to rows ----

  lemma TameNotAnd(t: Expr)
    requires Tame(t)
    ensures !IsAnd(t)
  {
  }

  lemma TameList(terms: seq<Expr>)
    requires forall t | t in terms :: Tame(t)
    ensures TamePred(AndAll(Somes(terms)))
  {
    hide Tame;
    forall t | t in terms ensures !IsAnd(t) {
      TameNotAnd(t);
    }
    FlattenAndAll(terms);
  }

  lemma QueryTame(env: Env, q: SelectQuery)
    requires WellFormedQuery(q)
    ensures TamePred(QueryBase(q).filterPred) && TamePred(Folded(env, QueryBase(q)).filterPred)
  {
    hide Plain, Ident, ConstantFolding.SimplifyAnd;
    var terms := QueryParts(q).terms;
    TermsArePlain(q.selector, q.stages);
    TameList(terms);
    forall t | t in terms ensures !IsAnd(t) {
      PlainRanges(t);
    }
    FlattenAndAll(terms);
    SimplifyTame(env, terms);
    TameList(ConstantFolding.SimplifyAnd(env, terms));
  }

  /** The bottom of the plan before pruning. */
  function Unpruned(env: Env, q: SelectQuery, skip: set<string>): Base {
    var b1 := if "constant_fold" in skip then QueryBase(q) else Folded(env, QueryBase(q));
    if "predicate_pushdown" in skip then b1 else Pushed(b1)
  }

  lemma UnprunedTame(env: Env, q: SelectQuery, skip: set<string>)
    requires WellFormedQuery(q)
    ensures TamePred(Unpruned(env, q, skip).scanPred)
  {
    hide TamePred, QueryParts, WellFormedQuery;
    QueryTame(env, q);
    FoldedRest(env, QueryBase(q));
    var b1 := if "constant_fold" in skip then QueryBase(q) else Folded(env, QueryBase(q));
    assert [b1.scanPred, b1.filterPred][..1] == [None];
    assert AndAll([None]) == AndTwo(AndAll([None][..0]), None);
    assert AndAll([b1.scanPred, b1.filterPred]) == AndTwo(AndAll([None]), b1.filterPred);
    NilTame();
  }

  lemma NilTame()
    ensures TamePred(None)
  {
  }

  /** What the passes after pruning keep. */
  lemma OptimizedRest(env: Env, q: SelectQuery, skip: set<string>)
    requires PartsTyped(QueryParts(q)) && "partition_pruning" !in skip
    ensures var b := Optimized(env, QueryBase(q), QueryParts(q), skip);
            var p := Pruned(env, Unpruned(env, q, skip));
            b.scanPred == p.scanPred && b.range == p.range && (b.projected == [] || b.projected == b.columns)
  {
    hide Pruned, NeededColumns, QueryParts;
    FoldedRest(env, QueryBase(q));
    PrunedRest(env, Unpruned(env, q, skip));
  }

  lemma OptimizedSqlReady(env: Env, q: SelectQuery, skip: set<string>)
    requires WellFormedQuery(q) && PartsTyped(QueryParts(q)) && "partition_pruning" !in skip
    ensures var b := Optimized(env, QueryBase(q), QueryParts(q), skip);
            ScanPruned(env, b) && (b.projected == [] || b.projected == b.columns)
            && exists m :: 0 <= m < |Bound(Bottom(b))| && Bound(Bottom(b))[m].Time?
  {
    hide Pruned, NeededColumns, QueryParts, TamePred, FullPred, WellFormedQuery, Optimized, Unpruned, InRange, Keeps, QueryBase;
    var b := Optimized(env, QueryBase(q), QueryParts(q), skip);
    var u := Unpruned(env, q, skip);
    OptimizedRest(env, q, skip);
    UnprunedTame(env, q, skip);
    PrunedImpliesRange(env, u);
    PrunedBindsTime(env, u);
    BottomBindsScan(b);
  }

  lemma BottomBindsScan(b: Base)
    requires b.scanPred.Some? && ParamsE(FullPred(b.scanPred.value)) != []
    requires ParamsE(FullPred(b.scanPred.value))[|ParamsE(FullPred(b.scanPred.value))| - 1].Time?
    ensures exists m :: 0 <= m < |Bound(Bottom(b))| && Bound(Bottom(b))[m].Time?
  {
    hide FullPred;
    var scan := Scan("spans", b.range, b.scanPred, b.columns, b.limit);
    var first := ParamsE(FullPred(b.scanPred.value));
    ParamsOfOne(FullPred(b.scanPred.value));
    var rest := ParamsL(OptionList(if b.limit > 0 then Some(Const(Int(b.limit))) else None));
    assert Bound(scan) == first + rest;
    var more := if b.filterPred.Some? then ParamsE(FullPred(b.filterPred.value)) else [];
    assert Bound(Filter(scan, b.filterPred)) == first + rest + more;
    assert Bound(Bottom(b)) == first + rest + more;
    assert Bound(Bottom(b))[|first| - 1] == first[|first| - 1];
  }

  ghost predicate KnownFields(q: SelectQuery) {
    PartsTyped(QueryParts(q)) && KnownParts(QueryParts(q))
  }

  /** The i-th placeholder of the text is the one the i-th bind was made for. */
  ghost predicate ArgumentsAligned(p: Plan, sql: Physical) {
    sql.sql == Erase(Full(p)) && sql.args == Params(Full(p))
  }

  // Whenever a query compiles, under whatever passes, its arguments line up with its placeholders exactly if its grouping and
  // unaggregated sort fields are columns and the arguments bound below the aggregates commute with the aggregates' keys. So
  // they do if all those fields are columns.
  lemma AlignedExactly(env: Env, q: SelectQuery, skip: set<string>)
    requires Compile(OptimizeExcept(env, Build(q), skip)).Ok?
    ensures PartsTyped(QueryParts(q))
    ensures var p := OptimizeExcept(env, Build(q), skip);
            && (ArgumentsAligned(p, Compile(p).value) <==>
                PartsAlign(Optimized(env, QueryBase(q), QueryParts(q), skip), QueryParts(q)))
            && (KnownFields(q) ==> ArgumentsAligned(p, Compile(p).value))
  {
    hide Compile, Build, OptimizeExcept, Stack, Bottom, Optimized, Full, Bound, Params, Erase, QueryParts,
         QueryBase, KnownParts, PartsAlign;
    BuildShape(q);
    OptimizedShape(env, QueryBase(q), QueryParts(q), skip);
    var b := Optimized(env, QueryBase(q), QueryParts(q), skip);
    CompileIsFull(OptimizeExcept(env, Build(q), skip));
    StackAligned(b, QueryParts(q));
    StackParts(b, QueryParts(q));
    KnownPartsAlign(b, QueryParts(q));
  }

  /** With partition pruning on, exactly if all those fields are columns. */
  lemma AlignedExactlyForKnownFields(env: Env, q: SelectQuery, skip: set<string>)
    requires WellFormedQuery(q) && "partition_pruning" !in skip
    requires Compile(OptimizeExcept(env, Build(q), skip)).Ok?
    ensures var p := OptimizeExcept(env, Build(q), skip);
            ArgumentsAligned(p, Compile(p).value) <==> KnownFields(q)
  {
    hide Compile, WellFormedQuery, Build, OptimizeExcept, Stack, Bottom, Optimized, Full, Bound, Params, Erase, QueryParts,
         QueryBase, ScanPruned, KnownParts, PartsAlign;
    BuildShape(q);
    OptimizedShape(env, QueryBase(q), QueryParts(q), skip);
    OptimizedSqlReady(env, q, skip);
    AlignedExactly(env, q, skip);
    StackParts(Optimized(env, QueryBase(q), QueryParts(q), skip), QueryParts(q));
    KnownPartsAlign(Optimized(env, QueryBase(q), QueryParts(q), skip), QueryParts(q));
  }

  /** Compiled and executed, a query over known columns yields what its optimized plan means. */
  lemma CompiledRuns(env: Env, q: SelectQuery, skip: set<string>, table: seq<Row>)
    requires WellFormedQuery(q) && KnownFields(q) && "partition_pruning" !in skip
    requires Compile(OptimizeExcept(env, Build(q), skip)).Ok?
    ensures Execute(env, Compile(OptimizeExcept(env, Build(q), skip)).value, table) ==
            Some(Meaning(env, OptimizeExcept(env, Build(q), skip), table))
  {
    hide Compile, WellFormedQuery, Build, OptimizeExcept, Stack, Bottom, Optimized, Full, Bound, Params, Erase, Holes, Fill,
         QueryParts, QueryBase, ScanPruned, KnownParts, Meaning, Run, BaseRows, Upper;
    var parts := QueryParts(q);
    var b := Optimized(env, QueryBase(q), parts, skip);
    var p := OptimizeExcept(env, Build(q), skip);
    BuildShape(q);
    OptimizedShape(env, QueryBase(q), parts, skip);
    OptimizedSqlReady(env, q, skip);
    AlignedExactlyForKnownFields(env, q, skip);
    CompileIsFull(p);
    FullHasNoHole(p);
    FillErased(Full(p));
    StackRuns(env, b, parts, table);
    StackMeaning(env, b, parts, table);
    BottomMeaning(env, b, table);
  }

  // ---- When a query compiles ----

  /** The expression compiles whatever was bound before it. */
  ghost predicate Sqlable(e: Expr) {
    forall args :: ExprToSql(e, args).Ok?
  }

  ghost predicate SqlablePred(pred: Option<Expr>) {
    pred.Some? ==> Sqlable(pred.value)
  }

  lemma TameCompiles(t: Expr)
    requires Tame(t)
    ensures Sqlable(t)
  {
    hide KnownColumn, Ident;
    if t.Binary? {
      var name :| Ident(name) && t.left == ResolveField(name);
      KnownIsAllowed(name);
    }
  }

  lemma KnownIsAllowed(name: string)
    ensures forall c | c in FieldColumns(name) :: AllowedColumn(c)
    ensures KnownColumn(name).Some? ==> AllowedColumn(KnownColumn(name).value)
  {
  }

  lemma {:induction false} AndAllCompiles(terms: seq<Expr>)
    requires forall t | t in terms :: Sqlable(t)
    ensures SqlablePred(AndAll(Somes(terms)))
  {
    hide ComparisonSql;
    if terms != [] {
      var n := |terms| - 1;
      assert forall t | t in terms[..n] :: t in terms;
      AndAllCompiles(terms[..n]);
      assert Somes(terms)[..n] == Somes(terms[..n]);
      assert terms[n] in terms;
      var before := AndAll(Somes(terms[..n]));
      if before.Some? {
        BothCompile(before.value, terms[n]);
      }
    }
  }

  lemma BothCompile(a: Expr, b: Expr)
    requires Sqlable(a) && Sqlable(b)
    ensures Sqlable(Binary("AND", a, b))
  {
    forall args ensures ExprToSql(Binary("AND", a, b), args).Ok? {
      assert ExprToSql(a, args).Ok?;
      assert ExprToSql(b, ExprToSql(a, args).value.1).Ok?;
    }
  }

  /** What compiles names only physical columns. */
  lemma {:induction false} CompiledColumnsAllowed(e: Expr, args: seq<Value>)
    requires ExprToSql(e, args).Ok?
    ensures forall c | c in ExprColumns(e) :: AllowedColumn(c)
  {
    if e.Binary? && e.op == "AND" {
      CompiledColumnsAllowed(e.left, args);
      CompiledColumnsAllowed(e.right, ExprToSql(e.left, args).value.1);
    }
  }

  lemma TamePredCompiles(pred: Option<Expr>, extra: seq<Expr>)
    requires TamePred(pred) && forall t | t in extra :: Sqlable(t)
    ensures SqlablePred(AndAll(Somes(Flatten(pred) + extra)))
  {
    hide Tame, Sqlable;
    forall t | t in Flatten(pred) ensures Sqlable(t) {
      TameCompiles(t);
    }
    AndAllCompiles(Flatten(pred) + extra);
  }

  lemma BoundsCompile(range: TimeRange)
    ensures Sqlable(LowerTerm(range)) && Sqlable(UpperTerm(range))
  {
  }

  /** The filter as Build or folding leaves it compiles. */
  lemma FilterCompiles(env: Env, q: SelectQuery)
    requires WellFormedQuery(q)
    ensures SqlablePred(QueryBase(q).filterPred) && SqlablePred(Folded(env, QueryBase(q)).filterPred)
  {
    hide Plain, Ident, ConstantFolding.SimplifyAnd, Sqlable;
    var terms := QueryParts(q).terms;
    TermsArePlain(q.selector, q.stages);
    forall t | t in terms ensures Sqlable(t) && !IsAnd(t) {
      PlainRanges(t);
      TameCompiles(t);
    }
    AndAllCompiles(terms);
    FlattenAndAll(terms);
    SimplifyTame(env, terms);
    var folded := ConstantFolding.SimplifyAnd(env, terms);
    forall t | t in folded ensures Sqlable(t) {
      TameCompiles(t);
    }
    AndAllCompiles(folded);
  }

  lemma PrunedCompiles(env: Env, b: Base)
    requires TamePred(b.scanPred) && SqlablePred(b.scanPred)
    ensures SqlablePred(Pruned(env, b).scanPred)
  {
    hide Tame, Sqlable;
    var existing := Flatten(b.scanPred);
    var add := Missing(env, existing, LowerTerm(b.range)) + Missing(env, existing, UpperTerm(b.range));
    BoundsCompile(b.range);
    TamePredCompiles(b.scanPred, add);
  }

  lemma UnprunedCompiles(env: Env, q: SelectQuery, skip: set<string>)
    requires WellFormedQuery(q)
    ensures SqlablePred(Unpruned(env, q, skip).scanPred) && SqlablePred(Unpruned(env, q, skip).filterPred)
  {
    hide Sqlable, QueryParts, WellFormedQuery;
    FilterCompiles(env, q);
    FoldedRest(env, QueryBase(q));
    var b1 := if "constant_fold" in skip then QueryBase(q) else Folded(env, QueryBase(q));
    assert [b1.scanPred, b1.filterPred][..1] == [None];
    assert AndAll([None]) == AndTwo(AndAll([None][..0]), None);
    assert AndAll([b1.scanPred, b1.filterPred]) == AndTwo(AndAll([None]), b1.filterPred);
  }

  lemma OptimizedPreds(env: Env, q: SelectQuery, skip: set<string>)
    requires WellFormedQuery(q) && PartsTyped(QueryParts(q))
    ensures var b := Optimized(env, QueryBase(q), QueryParts(q), skip);
            SqlablePred(b.scanPred) && SqlablePred(b.filterPred)
    ensures var b := Optimized(env, QueryBase(q), QueryParts(q), skip);
            b.columns == [] || b.columns == NeededColumns(Stack(Bottom(b.(columns := [], projected := [])), QueryParts(q)))
  {
    hide Sqlable, QueryParts, WellFormedQuery, NeededColumns, TamePred, Pruned;
    UnprunedCompiles(env, q, skip);
    UnprunedTame(env, q, skip);
    PrunedCompiles(env, Unpruned(env, q, skip));
    PrunedRest(env, Unpruned(env, q, skip));
    FoldedRest(env, QueryBase(q));
    var b3 := if "partition_pruning" in skip then Unpruned(env, q, skip) else Pruned(env, Unpruned(env, q, skip));
    var b4 := if "limit_pushdown" in skip then b3 else Limited(b3, QueryParts(q));
    var b := Optimized(env, QueryBase(q), QueryParts(q), skip);
    assert b4.columns == [] && b4.projected == [];
    assert b == if "projection_pushdown" in skip then b4 else Projected(b4, QueryParts(q));
    assert b.(columns := [], projected := []) == b4;
  }

  ghost predicate AllAllowed(columns: seq<string>) {
    forall c | c in columns :: AllowedColumn(c)
  }

  lemma {:induction false} FieldsAllowed(names: seq<string>)
    ensures AllAllowed(FieldsColumns(names))
  {
    hide KnownColumn, AllowedColumn, FieldColumns;
    if names != [] {
      FieldsAllowed(names[..|names| - 1]);
      KnownIsAllowed(names[|names| - 1]);
    }
  }

  lemma PredAllowed(pred: Option<Expr>)
    requires SqlablePred(pred)
    ensures AllAllowed(PredColumns(pred))
  {
    if pred.Some? {
      assert ExprToSql(pred.value, []).Ok?;
      CompiledColumnsAllowed(pred.value, []);
    }
  }

  lemma ReferencedAllowed(b: Base, parts: Parts)
    requires PartsTyped(parts) && SqlablePred(b.scanPred) && SqlablePred(b.filterPred)
    ensures AllAllowed(NeededColumns(Stack(Bottom(b), parts)))
  {
    hide AllowedColumn, SqlablePred, PredColumns, FieldsColumns, AggFields, NeededColumns;
    PredAllowed(b.scanPred);
    PredAllowed(b.filterPred);
    if parts.agg.Some? {
      FieldsAllowed(parts.agg.value.groupBy);
      FieldsAllowed(AggFields(parts.agg.value.exprs));
    }
    if parts.sort.Some? {
      FieldsAllowed(SortNames(parts.sort.value.fields));
    }
    AlwaysAllowed();
    var scan := Scan("spans", b.range, b.scanPred, b.columns, b.limit);
    assert ReferencedColumns(scan) == PredColumns(b.scanPred) + ["timestamp", "sampling_weight"];
    assert AllAllowed(ReferencedColumns(scan));
    assert ReferencedColumns(Filter(scan, b.filterPred)) == PredColumns(b.filterPred) + ReferencedColumns(scan);
    assert ReferencedColumns(Bottom(b)) == [] + ReferencedColumns(Filter(scan, b.filterPred));
    assert AllAllowed(ReferencedColumns(Bottom(b)));
    assert AllAllowed(ReferencedColumns(Grouped(Bottom(b), parts)));
    assert AllAllowed(ReferencedColumns(Sorted(Bottom(b), parts)));
    assert AllAllowed(ReferencedColumns(Stack(Bottom(b), parts)));
    forall c | c in NeededColumns(Stack(Bottom(b), parts)) ensures AllowedColumn(c) {
      NeededSame(Stack(Bottom(b), parts), c);
    }
  }

  lemma AlwaysAllowed()
    ensures AllAllowed(["timestamp", "sampling_weight"])
  {
  }

  lemma BottomCompiles(b: Base)
    requires SqlablePred(b.scanPred) && SqlablePred(b.filterPred) && AllAllowed(b.columns)
    ensures Compile(Bottom(b)).Ok?
  {
    hide ExprToSql, AllowedColumn;
    var scan := Scan("spans", b.range, b.scanPred, b.columns, b.limit);
    if b.scanPred.Some? {
      assert ExprToSql(b.scanPred.value, []).Ok?;
    }
    assert Compile(scan) == CompileScan(scan);
    assert Compile(scan).Ok?;
    if b.filterPred.Some? {
      assert ExprToSql(b.filterPred.value, Compile(scan).value.args).Ok?;
    }
    assert Compile(Filter(scan, b.filterPred)).Ok?;
  }

  /** Aggregates are supported, and a sort over them names only their outputs. */
  ghost predicate Resolves(parts: Parts)
    requires PartsTyped(parts)
  {
    parts.agg.Some? ==>
      && (forall e | e in parts.agg.value.exprs :: !e.func.Unsupported?)
      && (parts.sort.Some? ==> forall f | f in parts.sort.value.fields :: OutputName(parts.agg.value.exprs, parts.agg.value.groupBy, f.field))
  }

  lemma {:induction false} AggItemsCompile(exprs: seq<AggExpr>, args: seq<Value>)
    ensures AggItems(exprs, args).Ok? <==> forall e | e in exprs :: !e.func.Unsupported?
  {
    hide NumericFieldSql;
    if exprs != [] {
      var n := |exprs| - 1;
      AggItemsCompile(exprs[..n], args);
      assert exprs == exprs[..n] + [exprs[n]];
    }
  }

  lemma {:induction false} OrderCompiles(fields: seq<SortField>, agg: Option<Plan>)
    requires agg.Some? ==> agg.value.Aggregate?
    ensures OrderSql(fields, agg).Ok? <==>
            forall f | f in fields :: SortFieldSql(f.field, agg).Ok?
  {
    hide SortFieldSql;
    if fields != [] {
      var n := |fields| - 1;
      OrderCompiles(fields[..n], agg);
      assert fields == fields[..n] + [fields[n]];
    }
  }

  lemma StackCompiles(b: Base, parts: Parts)
    requires PartsTyped(parts) && Compile(Bottom(b)).Ok?
    ensures Compile(Stack(Bottom(b), parts)).Ok? <==> Resolves(parts)
  {
    hide Bottom, GroupFields, AggItems, OrderSql, FieldSql;
    var core := Bottom(b);
    var grouped, sorted := Grouped(core, parts), Sorted(core, parts);
    StackHasAggregate(b, parts);
    FindAggregateIsOne(grouped);
    if parts.agg.Some? {
      AggItemsCompile(parts.agg.value.exprs, GroupFields(parts.agg.value.groupBy, Compile(core).value.args).2);
      assert FindAggregate(grouped) == Some(grouped);
    } else {
      assert !HasAggregate(core);
    }
    assert Compile(grouped).Ok? <==> parts.agg.Some? ==> forall e | e in parts.agg.value.exprs :: !e.func.Unsupported?;
    if parts.sort.Some? {
      OrderCompiles(parts.sort.value.fields, FindAggregate(grouped));
    }
    assert Compile(sorted).Ok? <==> Resolves(parts);
  }

  /** A query fails to compile exactly for an unsupported aggregate or a sort field the aggregation does not output. */
  lemma CompilesExactlyWhenResolved(env: Env, q: SelectQuery, skip: set<string>)
    requires WellFormedQuery(q) && PartsTyped(QueryParts(q))
    ensures Compile(OptimizeExcept(env, Build(q), skip)).Ok? <==> Resolves(QueryParts(q))
  {
    hide WellFormedQuery, Build, OptimizeExcept, Stack, Bottom, Optimized, QueryParts, QueryBase, Compile, SqlablePred,
         NeededColumns, AllowedColumn, Resolves;
    var b := Optimized(env, QueryBase(q), QueryParts(q), skip);
    BuildShape(q);
    OptimizedShape(env, QueryBase(q), QueryParts(q), skip);
    OptimizedPreds(env, q, skip);
    ReferencedAllowed(b.(columns := [], projected := []), QueryParts(q));
    BottomCompiles(b);
    StackCompiles(b, QueryParts(q));
  }

  /** {} over [0, 10) | count by (tenant): the attribute's text stands twice, its key is bound for once. */
  const BY_TENANT := SelectQuery([], TimeRange(0, 10), [Aggregation([AggExpr(Count, "")], ["tenant"])])

  lemma ByTenantParts()
    ensures WellFormedQuery(BY_TENANT) && PartsTyped(QueryParts(BY_TENANT))
    ensures Resolves(QueryParts(BY_TENANT)) && !KnownFields(BY_TENANT)
  {
    var q := BY_TENANT;
    assert q.stages[..0] == [];
    assert QueryParts(q).agg == Some(q.stages[0]) && QueryParts(q).sort == None;
    assert "tenant" in q.stages[0].groupBy && !Known("tenant");
  }

  /** It compiles, and its arguments do not line up. */
  lemma AttributeGroupsMisalign(env: Env)
    ensures var p := OptimizeExcept(env, Build(BY_TENANT), {});
            Compile(p).Ok? && !ArgumentsAligned(p, Compile(p).value)
  {
    hide OptimizeExcept, Build, Compile, WellFormedQuery, KnownFields, Resolves;
    ByTenantParts();
    CompilesExactlyWhenResolved(env, BY_TENANT, {});
    AlignedExactlyForKnownFields(env, BY_TENANT, {});
  }

  // ---- Exactly which pipelines compile to correct SQL ----

  /** {} over [0, 10), no stages. */
  const EVERYTHING := SelectQuery([], TimeRange(0, 10), [])

  /** A span outside that range. */
  const LATE_SPAN: Row := map["timestamp" := Scalar(Cell("50", Some(50.0)))]

  lemma EverythingShape(env: Env, skip: set<string>)
    requires "partition_pruning" in skip
    ensures PartsTyped(QueryParts(EVERYTHING)) && WellFormedQuery(EVERYTHING) && KnownFields(EVERYTHING)
    ensures QueryBase(EVERYTHING) == Base(TimeRange(0, 10), None, [], 0, None, [])
    ensures OptimizeExcept(env, Build(EVERYTHING), skip) == Bottom(QueryBase(EVERYTHING)) == Build(EVERYTHING)
  {
    var q := EVERYTHING;
    assert MatcherTerms(q.selector) == [];
    assert QueryParts(q) == Parts([], None, None, None);
    assert Somes([]) == [];
    assert AndAll([]) == None;
    BuildShape(q);
    OptimizedShape(env, QueryBase(q), QueryParts(q), skip);
  }

  lemma WhereLate(f: Row -> bool)
    ensures Where([LATE_SPAN], f) == if f(LATE_SPAN) then [LATE_SPAN] else []
  {
    assert [LATE_SPAN][..0] == [];
  }

  lemma FromRuns(env: Env, cond: Option<SqlExpr>, rows: seq<Row>, keep: Row -> bool)
    requires forall r :: keep(r) == (cond.Some? ==> Test(env, r, cond.value))
    ensures Run(env, FromTable([], "spans", cond, None), rows) == Where(rows, keep)
  {
    WhereSame(rows, (r: Row) => cond.Some? ==> Test(env, r, cond.value), keep);
    RestrictNone(Where(rows, keep));
  }

  /** Without partition pruning the emitted statement has no time range at all. */
  lemma UnprunedIgnoresRange(env: Env, skip: set<string>)
    requires "partition_pruning" in skip
    ensures var p := OptimizeExcept(env, Build(EVERYTHING), skip);
            Compile(p).Ok? && Execute(env, Compile(p).value, [LATE_SPAN]) != Some(Meaning(env, Build(EVERYTHING), [LATE_SPAN]))
  {
    EverythingShape(env, skip);
    var b := QueryBase(EVERYTHING);
    var scan := Scan("spans", b.range, None, [], 0);
    assert Compile(Bottom(b)) == Compile(Filter(scan, None));
    assert Compile(Filter(scan, None)) == Compile(scan);
    var from := FromTable([], "spans", None, None);
    assert Compile(scan) == Ok(Physical(from, []));
    assert HolesL([]) == 0;
    assert FillL([], []) == [];
    assert Fill(from, []) == from;
    var all := (r: Row) => true;
    FromRuns(env, None, [LATE_SPAN], all);
    WhereLate(all);
    assert Run(env, from, [LATE_SPAN]) == [LATE_SPAN];
    BottomMeaning(env, b, [LATE_SPAN]);
    WhereLate((r: Row) => InRange(b.range, r) && Keeps(env, r, b.scanPred));
    assert !InRange(b.range, LATE_SPAN);
    assert BaseRows(env, b, [LATE_SPAN]) == [];
  }

  ghost predicate CorrectOn(env: Env, q: SelectQuery, skip: set<string>, table: seq<Row>) {
    var p := OptimizeExcept(env, Build(q), skip);
    Compile(p).Ok? ==> Execute(env, Compile(p).value, table) == Some(Meaning(env, Build(q), table))
  }

  ghost predicate CorrectSql(env: Env, skip: set<string>) {
    forall q, table | WellFormedQuery(q) && KnownFields(q) :: CorrectOn(env, q, skip, table)
  }

  lemma FirstOfACompiles(env: Env, skip: set<string>)
    ensures KnownFields(FIRST_OF_A) && Compile(OptimizeExcept(env, Build(FIRST_OF_A), skip)).Ok?
  {
    hide OptimizeExcept, Build, Compile;
    FirstOfAParts();
    CompilesExactlyWhenResolved(env, FIRST_OF_A, skip);
  }

  /** Every query over known columns is answered correctly exactly when pruning runs and limits stay behind filters. */
  lemma CorrectSqlExactly(env: Env, skip: set<string>)
    ensures CorrectSql(env, skip) <==> SoundSkips(skip) && "partition_pruning" !in skip
  {
    hide WellFormedQuery, KnownFields, Compile, OptimizeExcept, Build, Execute, Meaning;
    if "partition_pruning" in skip {
      EverythingShape(env, skip);
      UnprunedIgnoresRange(env, skip);
      assert !CorrectOn(env, EVERYTHING, skip, [LATE_SPAN]);
    } else if !SoundSkips(skip) {
      FirstOfAParts();
      FirstOfACompiles(env, skip);
      UnsoundSkipsLoseRows(env, skip);
      CompiledRuns(env, FIRST_OF_A, skip, B_THEN_A);
      assert !CorrectOn(env, FIRST_OF_A, skip, B_THEN_A);
    } else {
      forall q, table | WellFormedQuery(q) && KnownFields(q) ensures CorrectOn(env, q, skip, table) {
        if Compile(OptimizeExcept(env, Build(q), skip)).Ok? {
          CompiledRuns(env, q, skip, table);
          OptimizePreservesMeaning(env, q, skip, table);
        }
      }
    }
  }
}
