/** Lowering a logical plan to one SQL statement whose literals are all bound positionally. */
module PhysicalPlanner {
  import opened Expressions
  import opened Options
  import opened Plans
  import opened Sql

  datatype Result<+T> = Ok(value: T) | Err(message: string)

  /** Text under construction and every argument bound so far. */
  type Text = (SqlExpr, seq<Value>)

  predicate AllowedColumn(c: string) {
    c == "timestamp" || c == "span_attributes" || c == "resource_attributes" || c in KNOWN_COLUMNS
  }

  /** coalesce(span_attributes[?], resource_attributes[?]), binding the key twice. */
  function AttrSql(key: string, args: seq<Value>): Text {
    (Coalesce(MapGet("span_attributes", Hole), MapGet("resource_attributes", Hole)), args + [Str(key)] + [Str(key)])
  }

  // ---- Predicates ----

  predicate ComparisonOp(op: string) {
    op == "=" || op == "==" || op == "!=" || op == "=~" || op == "!~" || RangeOp(op)
  }

  function Apply(op: string, operand: SqlExpr, value: SqlExpr): SqlExpr {
    if op == "=" || op == "==" then Cmp("=", operand, value)
    else if op == "=~" then Match(operand, value)
    else if op == "!~" then NotMatch(operand, value)
    else Cmp(op, operand, value)
  }

  function OperandSql(op: string, left: Expr, args: seq<Value>): Result<Text> {
    match left
    case ColumnRef(name) =>
      if AllowedColumn(name) then Ok((Col(name), args)) else Err("column is not in the physical schema")
    case AttrRef(key) =>
      var (e, bound) := AttrSql(key, args);
      if RangeOp(op) then Ok((ToFloat(e), bound)) else Ok((e, bound))
    case _ => Err("unsupported comparison operand")
  }

  function ComparisonSql(op: string, left: Expr, right: Expr, args: seq<Value>): Result<Text> {
    if !right.Literal? then Err("comparison right-hand side must be a literal")
    else
      match OperandSql(op, left, args)
      case Err(m) => Err(m)
      case Ok((operand, bound)) =>
        if ComparisonOp(op) then Ok((Apply(op, operand, Hole), bound + [right.value])) else Err("unsupported operator")
  }

  function ExprToSql(e: Expr, args: seq<Value>): Result<Text> {
    match e
    case Literal(v) => if v.Bool? then Ok((Flag(v.b), args)) else Ok((Hole, args + [v]))
    case Binary(op, l, r) =>
      if op == "AND" then
        match ExprToSql(l, args)
        case Err(m) => Err(m)
        case Ok((a, bound)) =>
          match ExprToSql(r, bound)
          case Err(m) => Err(m)
          case Ok((b, more)) => Ok((Both(a, b), more))
      else ComparisonSql(op, l, r, args)
    case _ => Err("unsupported expression in predicate")
  }

  // ---- Fields and aggregates ----

  function FieldSql(name: string, args: seq<Value>): Text {
    match KnownColumn(name)
    case Some(col) => (Col(col), args)
    case None => AttrSql(name, args)
  }

  function NumericFieldSql(name: string, args: seq<Value>): Text {
    match KnownColumn(name)
    case Some(col) => (Col(col), args)
    case None => var (e, bound) := AttrSql(name, args); (ToFloat(e), bound)
  }

  const WEIGHT := Col("sampling_weight")

  function AggSql(e: AggExpr, args: seq<Value>): Result<(SqlAgg, seq<Value>)> {
    if e.func == Count then Ok((SumOf(WEIGHT), args))
    else if e.func.Unsupported? then Err("unknown aggregation function")
    else
      var (x, bound) := NumericFieldSql(e.field, args);
      match e.func
      case Sum => Ok((SumOf(Times(x, WEIGHT)), bound))
      case Avg => Ok((SumOverSum(Times(x, WEIGHT), WEIGHT), bound))
      case Min => Ok((MinOf(x), bound))
      case Max => Ok((MaxOf(x), bound))
      case P50 => Ok((QuantileTDigestWeighted(0.5, x, WEIGHT), bound))
      case P95 => Ok((QuantileTDigestWeighted(0.95, x, WEIGHT), bound))
      case P99 => Ok((QuantileTDigestWeighted(0.99, x, WEIGHT), bound))
  }

  /** Select items and GROUP BY texts of the group-by fields. */
  function GroupFields(fields: seq<string>, args: seq<Value>): (seq<Item>, seq<SqlExpr>, seq<Value>) {
    if fields == [] then ([], [], args)
    else
      var n := |fields| - 1;
      var (items, keys, bound) := GroupFields(fields[..n], args);
      var (e, more) := FieldSql(fields[n], bound);
      (items + [ItemExpr(e, fields[n])], keys + [e], more)
  }

  function AggItems(exprs: seq<AggExpr>, args: seq<Value>): Result<(seq<Item>, seq<Value>)> {
    if exprs == [] then Ok(([], args))
    else
      var n := |exprs| - 1;
      match AggItems(exprs[..n], args)
      case Err(m) => Err(m)
      case Ok((items, bound)) =>
        match AggSql(exprs[n], bound)
        case Err(m) => Err(m)
        case Ok((g, more)) => Ok((items + [ItemAgg(g, Alias(exprs[n]))], more))
  }

  /** The aggregate below a sort, if any. */
  function FindAggregate(p: Plan): Option<Plan> {
    if p.Aggregate? then Some(p) else if p.Scan? then None else FindAggregate(p.input)
  }

  predicate OutputName(exprs: seq<AggExpr>, groupBy: seq<string>, name: string) {
    (exists e :: e in exprs && Alias(e) == name) || name in groupBy
  }

  /** Above an aggregate a sort field must be an output name; otherwise any bound arguments are thrown away. */
  function SortFieldSql(name: string, agg: Option<Plan>): Result<SqlExpr>
    requires agg.Some? ==> agg.value.Aggregate?
  {
    if agg.Some? then
      if OutputName(agg.value.exprs, agg.value.groupBy, name) then Ok(Col(name))
      else Err("sort field is not an aggregation output or group-by field")
    else Ok(FieldSql(name, []).0)
  }

  function OrderSql(fields: seq<SortField>, agg: Option<Plan>): Result<seq<(SqlExpr, bool)>>
    requires agg.Some? ==> agg.value.Aggregate?
  {
    if fields == [] then Ok([])
    else
      var n := |fields| - 1;
      match OrderSql(fields[..n], agg)
      case Err(m) => Err(m)
      case Ok(before) =>
        match SortFieldSql(fields[n].field, agg)
        case Err(m) => Err(m)
        case Ok(e) => Ok(before + [(e, fields[n].desc)])
  }

  // ---- Plans ----

  function ScanCondition(pred: Option<Expr>): Result<(Option<SqlExpr>, seq<Value>)> {
    if pred.None? then Ok((None, []))
    else
      match ExprToSql(pred.value, [])
      case Err(m) => Err(m)
      case Ok((e, bound)) => Ok((Some(e), bound))
  }

  function CompileScan(p: Plan): Result<Physical>
    requires p.Scan?
  {
    if p.table != "spans" then Err("table is not in the physical schema")
    else if exists c :: c in p.columns && !AllowedColumn(c) then Err("column is not in the physical schema")
    else
      match ScanCondition(p.pred)
      case Err(m) => Err(m)
      case Ok((cond, bound)) =>
        if p.limit > 0 then Ok(Physical(FromTable(p.columns, p.table, cond, Some(Hole)), bound + [Int(p.limit)]))
        else Ok(Physical(FromTable(p.columns, p.table, cond, None), bound))
  }

  lemma {:induction false} FindAggregateIsOne(p: Plan)
    ensures FindAggregate(p).Some? ==> FindAggregate(p).value.Aggregate?
    ensures FindAggregate(p).Some? == HasAggregate(p)
  {
    if !p.Scan? && !p.Aggregate? {
      FindAggregateIsOne(p.input);
    }
  }

  function Compile(p: Plan): Result<Physical> {
    match p
    case Scan(_, _, _, _, _) => CompileScan(p)
    case Project(input, _) => Compile(input)
    case Filter(input, pred) =>
      (match Compile(input)
       case Err(m) => Err(m)
       case Ok(child) =>
         if pred.None? then Ok(child)
         else
           match ExprToSql(pred.value, child.args)
           case Err(m) => Err(m)
           case Ok((e, bound)) => Ok(Physical(SelectWhere(child.sql, e), bound)))
    case Aggregate(input, exprs, groupBy) =>
      (match Compile(input)
       case Err(m) => Err(m)
       case Ok(child) =>
         var (items, keys, bound) := GroupFields(groupBy, child.args);
         match AggItems(exprs, bound)
         case Err(m) => Err(m)
         case Ok((more, args)) => Ok(Physical(SelectGroup(items + more, child.sql, keys), args)))
    case Sort(input, fields) =>
      (match Compile(input)
       case Err(m) => Err(m)
       case Ok(child) =>
         FindAggregateIsOne(input);
         match OrderSql(fields, FindAggregate(input))
         case Err(m) => Err(m)
         case Ok(order) => Ok(Physical(SelectOrder(child.sql, order), child.args)))
    case Limit(input, n) =>
      (match Compile(input)
       case Err(m) => Err(m)
       case Ok(child) => Ok(Physical(SelectLimit(child.sql, Hole), child.args + [Int(n)])))
  }

  // ---- The statement each plan stands for, its literals in place ----

  function FullAttr(key: string): SqlExpr {
    Coalesce(MapGet("span_attributes", Const(Str(key))), MapGet("resource_attributes", Const(Str(key))))
  }

  function FullOperand(op: string, left: Expr): SqlExpr {
    match left
    case ColumnRef(name) => Col(name)
    case AttrRef(key) => if RangeOp(op) then ToFloat(FullAttr(key)) else FullAttr(key)
    case _ => Flag(false)
  }

  function FullPred(e: Expr): SqlExpr {
    match e
    case Literal(v) => if v.Bool? then Flag(v.b) else Const(v)
    case Binary(op, l, r) =>
      if op == "AND" then Both(FullPred(l), FullPred(r))
      else if r.Literal? then Apply(op, FullOperand(op, l), Const(r.value))
      else Flag(false)
    case _ => Flag(false)
  }

  function FullField(name: string): SqlExpr {
    match KnownColumn(name)
    case Some(col) => Col(col)
    case None => FullAttr(name)
  }

  function FullNumeric(name: string): SqlExpr {
    match KnownColumn(name)
    case Some(col) => Col(col)
    case None => ToFloat(FullAttr(name))
  }

  function FullAgg(e: AggExpr): SqlAgg {
    match e.func
    case Sum => SumOf(Times(FullNumeric(e.field), WEIGHT))
    case Avg => SumOverSum(Times(FullNumeric(e.field), WEIGHT), WEIGHT)
    case Min => MinOf(FullNumeric(e.field))
    case Max => MaxOf(FullNumeric(e.field))
    case P50 => QuantileTDigestWeighted(0.5, FullNumeric(e.field), WEIGHT)
    case P95 => QuantileTDigestWeighted(0.95, FullNumeric(e.field), WEIGHT)
    case P99 => QuantileTDigestWeighted(0.99, FullNumeric(e.field), WEIGHT)
    case _ => SumOf(WEIGHT)
  }

  function FullFields(fields: seq<string>): seq<SqlExpr> {
    seq(|fields|, i requires 0 <= i < |fields| => FullField(fields[i]))
  }

  function FullFieldItems(fields: seq<string>): seq<Item> {
    seq(|fields|, i requires 0 <= i < |fields| => ItemExpr(FullField(fields[i]), fields[i]))
  }

  function FullAggItems(exprs: seq<AggExpr>): seq<Item> {
    seq(|exprs|, i requires 0 <= i < |exprs| => ItemAgg(FullAgg(exprs[i]), Alias(exprs[i])))
  }

  function FullOrder(fields: seq<SortField>, overAggregate: bool): seq<(SqlExpr, bool)> {
    seq(|fields|, i requires 0 <= i < |fields| =>
      (if overAggregate then Col(fields[i].field) else FullField(fields[i].field), fields[i].desc))
  }

  function Full(p: Plan): Statement {
    match p
    case Scan(table, _, pred, columns, limit) =>
      FromTable(columns, table, if pred.Some? then Some(FullPred(pred.value)) else None,
                if limit > 0 then Some(Const(Int(limit))) else None)
    case Project(input, _) => Full(input)
    case Filter(input, pred) => if pred.Some? then SelectWhere(Full(input), FullPred(pred.value)) else Full(input)
    case Aggregate(input, exprs, groupBy) =>
      SelectGroup(FullFieldItems(groupBy) + FullAggItems(exprs), Full(input), FullFields(groupBy))
    case Sort(input, fields) => SelectOrder(Full(input), FullOrder(fields, HasAggregate(input)))
    case Limit(input, n) => SelectLimit(Full(input), Const(Int(n)))
  }

  /** The arguments in the order they are bound: a child's before its parent's, sort fields' never. */
  function Bound(p: Plan): seq<Value> {
    match p
    case Scan(_, _, _, _, _) => Params(Full(p))
    case Project(input, _) => Bound(input)
    case Filter(input, pred) => Bound(input) + (if pred.Some? then ParamsE(FullPred(pred.value)) else [])
    case Aggregate(input, exprs, groupBy) => Bound(input) + ParamsI(FullFieldItems(groupBy) + FullAggItems(exprs))
    case Sort(input, _) => Bound(input)
    case Limit(input, n) => Bound(input) + [Int(n)]
  }

  // ---- Compilation writes that statement with holes, and binds in that order ----

  lemma AttrIsFull(key: string, args: seq<Value>)
    ensures AttrSql(key, args) == (EraseE(FullAttr(key)), args + ParamsE(FullAttr(key)))
    ensures ParamsE(FullAttr(key)) == [Str(key), Str(key)]
  {
    var k := Const(Str(key));
    assert ParamsE(k) == [Str(key)] && EraseE(k) == Hole;
    assert ParamsE(MapGet("span_attributes", k)) == [Str(key)];
    assert ParamsE(MapGet("resource_attributes", k)) == [Str(key)];
    assert EraseE(MapGet("span_attributes", k)) == MapGet("span_attributes", Hole);
    assert EraseE(MapGet("resource_attributes", k)) == MapGet("resource_attributes", Hole);
    assert [Str(key)] + [Str(key)] == [Str(key), Str(key)];
    assert args + [Str(key)] + [Str(key)] == args + [Str(key), Str(key)];
  }

  lemma OperandIsFull(op: string, left: Expr, args: seq<Value>)
    requires OperandSql(op, left, args).Ok?
    ensures OperandSql(op, left, args) == Ok((EraseE(FullOperand(op, left)), args + ParamsE(FullOperand(op, left))))
  {
    hide AttrSql, FullAttr;
    assert args + [] == args;
    if left.AttrRef? {
      AttrIsFull(left.key, args);
    }
  }

  lemma ApplyErases(op: string, operand: SqlExpr, v: Value)
    ensures EraseE(Apply(op, operand, Const(v))) == Apply(op, EraseE(operand), Hole)
    ensures ParamsE(Apply(op, operand, Const(v))) == ParamsE(operand) + [v]
  {
    assert ParamsE(Const(v)) == [v] && EraseE(Const(v)) == Hole;
  }

  lemma {:induction false} ExprIsFull(e: Expr, args: seq<Value>)
    requires ExprToSql(e, args).Ok?
    ensures ExprToSql(e, args) == Ok((EraseE(FullPred(e)), args + ParamsE(FullPred(e))))
  {
    hide Apply, OperandSql, FullOperand;
    assert args + [] == args;
    if e.Binary? {
      if e.op == "AND" {
        ExprIsFull(e.left, args);
        ExprIsFull(e.right, args + ParamsE(FullPred(e.left)));
        assert args + ParamsE(FullPred(e.left)) + ParamsE(FullPred(e.right)) ==
               args + (ParamsE(FullPred(e.left)) + ParamsE(FullPred(e.right)));
      } else {
        OperandIsFull(e.op, e.left, args);
        ApplyErases(e.op, FullOperand(e.op, e.left), e.right.value);
        assert args + ParamsE(FullOperand(e.op, e.left)) + [e.right.value] ==
               args + (ParamsE(FullOperand(e.op, e.left)) + [e.right.value]);
      }
    }
  }

  lemma FieldIsFull(name: string, args: seq<Value>)
    ensures FieldSql(name, args) == (EraseE(FullField(name)), args + ParamsE(FullField(name)))
    ensures ParamsE(FullField(name)) == if KnownColumn(name).Some? then [] else [Str(name), Str(name)]
  {
    hide KnownColumn, AttrSql, FullAttr;
    assert args + [] == args;
    AttrIsFull(name, args);
  }

  lemma NumericIsFull(name: string, args: seq<Value>)
    ensures NumericFieldSql(name, args) == (EraseE(FullNumeric(name)), args + ParamsE(FullNumeric(name)))
    ensures ParamsE(FullNumeric(name)) == if KnownColumn(name).Some? then [] else [Str(name), Str(name)]
  {
    hide KnownColumn, AttrSql, FullAttr;
    assert args + [] == args;
    AttrIsFull(name, args);
  }

  lemma ParamsOfOne(e: SqlExpr)
    ensures ParamsL([e]) == ParamsE(e) && EraseL([e]) == [EraseE(e)] && HolesL([e]) == HolesE(e)
  {
    assert [e][..0] == [];
  }

  lemma ParamsOfTwo(e: SqlExpr, w: SqlExpr)
    ensures ParamsL([e, w]) == ParamsE(e) + ParamsE(w) && EraseL([e, w]) == [EraseE(e), EraseE(w)]
    ensures HolesL([e, w]) == HolesE(e) + HolesE(w)
  {
    assert [e, w][..1] == [e];
    ParamsOfOne(e);
  }

  lemma ItemExprErases(e: SqlExpr, name: string)
    ensures EraseItem(ItemExpr(e, name)) == ItemExpr(EraseE(e), name)
    ensures ParamsL(ItemParts(ItemExpr(e, name))) == ParamsE(e)
  {
    ParamsOfOne(e);
  }

  lemma AggIsFull(e: AggExpr, args: seq<Value>)
    requires AggSql(e, args).Ok?
    ensures AggSql(e, args) == Ok((AggWith(FullAgg(e), EraseL(AggParts(FullAgg(e)))), args + ParamsL(AggParts(FullAgg(e)))))
  {
    hide NumericFieldSql, FullNumeric, ParamsL, EraseL;
    NumericIsFull(e.field, args);
    var x := FullNumeric(e.field);
    ParamsOfOne(x);
    ParamsOfTwo(x, WEIGHT);
    ParamsOfOne(Times(x, WEIGHT));
    ParamsOfTwo(Times(x, WEIGHT), WEIGHT);
    ParamsOfOne(WEIGHT);
    assert ParamsE(x) + [] == ParamsE(x);
    assert args + [] == args;
  }

  lemma {:induction false} ItemsConcat(a: seq<Item>, b: seq<Item>)
    ensures ParamsI(a + b) == ParamsI(a) + ParamsI(b) && EraseI(a + b) == EraseI(a) + EraseI(b)
    ensures HolesI(a + b) == HolesI(a) + HolesI(b)
  {
    hide EraseItem, ItemParts, ParamsL, HolesL;
    if b == [] {
      assert a + b == a;
    } else {
      ItemsConcat(a, b[..|b| - 1]);
      assert (a + b)[..|a + b| - 1] == a + b[..|b| - 1];
      assert ParamsI(a) + (ParamsI(b[..|b| - 1]) + ParamsL(ItemParts(b[|b| - 1]))) ==
             (ParamsI(a) + ParamsI(b[..|b| - 1])) + ParamsL(ItemParts(b[|b| - 1]));
    }
  }

  lemma {:induction false} GroupFieldsFull(fields: seq<string>, args: seq<Value>)
    ensures GroupFields(fields, args) ==
            (EraseI(FullFieldItems(fields)), EraseL(FullFields(fields)), args + ParamsI(FullFieldItems(fields)))
  {
    hide FieldSql, FullField, KnownColumn, EraseItem, ItemParts, ParamsL;
    if fields == [] {
      assert args + [] == args;
    } else {
      var n := |fields| - 1;
      GroupFieldsFull(fields[..n], args);
      FieldIsFull(fields[n], args + ParamsI(FullFieldItems(fields[..n])));
      ItemExprErases(FullField(fields[n]), fields[n]);
      assert FullFieldItems(fields)[..n] == FullFieldItems(fields[..n]);
      assert FullFields(fields) == FullFields(fields[..n]) + [FullField(fields[n])];
      assert EraseL(FullFields(fields)) == EraseL(FullFields(fields[..n])) + [EraseE(FullField(fields[n]))];
      assert EraseI(FullFieldItems(fields)) ==
             EraseI(FullFieldItems(fields[..n])) + [ItemExpr(EraseE(FullField(fields[n])), fields[n])];
      assert args + (ParamsI(FullFieldItems(fields[..n])) + ParamsE(FullField(fields[n]))) ==
             args + ParamsI(FullFieldItems(fields[..n])) + ParamsE(FullField(fields[n]));
    }
  }

  lemma {:induction false} AggItemsFull(exprs: seq<AggExpr>, args: seq<Value>)
    requires AggItems(exprs, args).Ok?
    ensures AggItems(exprs, args) == Ok((EraseI(FullAggItems(exprs)), args + ParamsI(FullAggItems(exprs))))
  {
    hide AggSql, FullAgg, AggParts, AggWith, ParamsL;
    if exprs == [] {
      assert args + [] == args;
    } else {
      var n := |exprs| - 1;
      AggItemsFull(exprs[..n], args);
      AggIsFull(exprs[n], args + ParamsI(FullAggItems(exprs[..n])));
      assert FullAggItems(exprs)[..n] == FullAggItems(exprs[..n]);
      assert EraseI(FullAggItems(exprs)) == EraseI(FullAggItems(exprs[..n])) + [EraseItem(FullAggItems(exprs)[n])];
      assert args + (ParamsI(FullAggItems(exprs[..n])) + ParamsL(AggParts(FullAgg(exprs[n])))) ==
             args + ParamsI(FullAggItems(exprs[..n])) + ParamsL(AggParts(FullAgg(exprs[n])));
    }
  }

  lemma {:induction false} OrderIsFull(fields: seq<SortField>, agg: Option<Plan>)
    requires agg.Some? ==> agg.value.Aggregate?
    requires OrderSql(fields, agg).Ok?
    ensures OrderSql(fields, agg).value ==
            OrderWith(FullOrder(fields, agg.Some?), EraseL(OrderExprs(FullOrder(fields, agg.Some?))))
  {
    hide FieldSql, FullField, KnownColumn;
    if fields != [] {
      var n := |fields| - 1;
      OrderIsFull(fields[..n], agg);
      FieldIsFull(fields[n].field, []);
      assert FullOrder(fields, agg.Some?)[..n] == FullOrder(fields[..n], agg.Some?);
    }
  }

  lemma AggregateIsFull(p: Plan)
    requires p.Aggregate? && Compile(p).Ok? && Compile(p.input) == Ok(Physical(Erase(Full(p.input)), Bound(p.input)))
    ensures Compile(p) == Ok(Physical(Erase(Full(p)), Bound(p)))
  {
    hide GroupFields, AggItems, OrderSql, ExprToSql, ParamsI, FullFieldItems, FullAggItems, FullFields, FullOrder, EraseI, EraseL;
    var bound := Bound(p.input) + ParamsI(FullFieldItems(p.groupBy));
    GroupFieldsFull(p.groupBy, Bound(p.input));
    AggItemsFull(p.exprs, bound);
    ItemsConcat(FullFieldItems(p.groupBy), FullAggItems(p.exprs));
    assert bound + ParamsI(FullAggItems(p.exprs)) ==
           Bound(p.input) + (ParamsI(FullFieldItems(p.groupBy)) + ParamsI(FullAggItems(p.exprs)));
  }

  lemma SortIsFull(p: Plan)
    requires p.Sort? && Compile(p).Ok? && Compile(p.input) == Ok(Physical(Erase(Full(p.input)), Bound(p.input)))
    ensures Compile(p) == Ok(Physical(Erase(Full(p)), Bound(p)))
  {
    hide GroupFields, AggItems, OrderSql, ExprToSql, FullOrder, EraseL;
    FindAggregateIsOne(p.input);
    OrderIsFull(p.fields, FindAggregate(p.input));
  }

  lemma {:induction false} CompileIsFull(p: Plan)
    requires Compile(p).Ok?
    ensures Compile(p) == Ok(Physical(Erase(Full(p)), Bound(p)))
  {
    hide GroupFields, AggItems, OrderSql, ExprToSql, ParamsI, FullFieldItems, FullAggItems, FullFields, FullOrder, EraseI, EraseL;
    match p {
      case Scan(_, _, _, _, _) => ScanIsFull(p);
      case Project(input, _) => CompileIsFull(input);
      case Filter(input, pred) =>
        CompileIsFull(input);
        assert Bound(input) + [] == Bound(input);
        if pred.Some? {
          ExprIsFull(pred.value, Bound(input));
        }
      case Aggregate(input, _, _) =>
        CompileIsFull(input);
        AggregateIsFull(p);
      case Sort(input, _) =>
        CompileIsFull(input);
        SortIsFull(p);
      case Limit(input, n) => CompileIsFull(input);
    }
  }

  lemma ScanIsFull(p: Plan)
    requires p.Scan? && CompileScan(p).Ok?
    ensures CompileScan(p) == Ok(Physical(Erase(Full(p)), Params(Full(p))))
  {
    hide ExprToSql, ParamsL, EraseL;
    var cond := if p.pred.Some? then Some(FullPred(p.pred.value)) else None;
    NoneOfList();
    if p.pred.Some? {
      ExprIsFull(p.pred.value, []);
      ParamsOfOne(FullPred(p.pred.value));
      assert [] + ParamsE(FullPred(p.pred.value)) == ParamsE(FullPred(p.pred.value));
    }
    ParamsOfOne(Const(Int(p.limit)));
    assert ParamsL(OptionList(cond)) + [] == ParamsL(OptionList(cond));
  }
}
