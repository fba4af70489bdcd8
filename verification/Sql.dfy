// The SQL the physical planner emits, as a small relational tree. A placeholder is a Hole; the driver
// fills holes from the argument list in the order the holes stand in the text. What a statement means
// is defined only once every hole is filled.
module Sql {
  import opened Expressions
  import opened Options
  import opened Plans

  datatype SqlExpr =
    | Col(name: string)
    | Hole
    | Const(v: Value)
    | MapGet(column: string, key: SqlExpr)
    | Coalesce(a: SqlExpr, b: SqlExpr)
    | ToFloat(a: SqlExpr)
    | Times(a: SqlExpr, b: SqlExpr)
    | Flag(on: bool)
    | Both(a: SqlExpr, b: SqlExpr)
    | Cmp(op: string, a: SqlExpr, b: SqlExpr)
    | Match(a: SqlExpr, b: SqlExpr)
    | NotMatch(a: SqlExpr, b: SqlExpr)

  datatype SqlAgg =
    | SumOf(e: SqlExpr)
    | SumOverSum(e: SqlExpr, wt: SqlExpr)
    | MinOf(e: SqlExpr)
    | MaxOf(e: SqlExpr)
    | QuantileTDigestWeighted(level: real, e: SqlExpr, wt: SqlExpr) // weighted by toUInt64(round(wt))

  datatype Item = ItemExpr(e: SqlExpr, name: string) | ItemAgg(agg: SqlAgg, name: string)

  datatype Statement =
    | FromTable(columns: seq<string>, table: string, cond: Option<SqlExpr>, upTo: Option<SqlExpr>)
    | SelectWhere(child: Statement, where: SqlExpr)
    | SelectGroup(items: seq<Item>, child: Statement, keys: seq<SqlExpr>)
    | SelectOrder(child: Statement, order: seq<(SqlExpr, bool)>)
    | SelectLimit(child: Statement, n: SqlExpr)

  // ---- Values in text order, placeholders for them, and filling placeholders ----

  function ParamsE(e: SqlExpr): seq<Value> {
    match e
    case Const(v) => [v]
    case MapGet(_, k) => ParamsE(k)
    case Coalesce(a, b) => ParamsE(a) + ParamsE(b)
    case ToFloat(a) => ParamsE(a)
    case Times(a, b) => ParamsE(a) + ParamsE(b)
    case Both(a, b) => ParamsE(a) + ParamsE(b)
    case Cmp(_, a, b) => ParamsE(a) + ParamsE(b)
    case Match(a, b) => ParamsE(a) + ParamsE(b)
    case NotMatch(a, b) => ParamsE(a) + ParamsE(b)
    case _ => []
  }

  function EraseE(e: SqlExpr): SqlExpr {
    match e
    case Const(_) => Hole
    case MapGet(c, k) => MapGet(c, EraseE(k))
    case Coalesce(a, b) => Coalesce(EraseE(a), EraseE(b))
    case ToFloat(a) => ToFloat(EraseE(a))
    case Times(a, b) => Times(EraseE(a), EraseE(b))
    case Both(a, b) => Both(EraseE(a), EraseE(b))
    case Cmp(op, a, b) => Cmp(op, EraseE(a), EraseE(b))
    case Match(a, b) => Match(EraseE(a), EraseE(b))
    case NotMatch(a, b) => NotMatch(EraseE(a), EraseE(b))
    case _ => e
  }

  function HolesE(e: SqlExpr): nat {
    match e
    case Hole => 1
    case MapGet(_, k) => HolesE(k)
    case Coalesce(a, b) => HolesE(a) + HolesE(b)
    case ToFloat(a) => HolesE(a)
    case Times(a, b) => HolesE(a) + HolesE(b)
    case Both(a, b) => HolesE(a) + HolesE(b)
    case Cmp(_, a, b) => HolesE(a) + HolesE(b)
    case Match(a, b) => HolesE(a) + HolesE(b)
    case NotMatch(a, b) => HolesE(a) + HolesE(b)
    case _ => 0
  }

  function FillE(e: SqlExpr, args: seq<Value>): SqlExpr
    requires |args| == HolesE(e)
  {
    match e
    case Hole => Const(args[0])
    case MapGet(c, k) => MapGet(c, FillE(k, args))
    case Coalesce(a, b) => Coalesce(FillE(a, args[..HolesE(a)]), FillE(b, args[HolesE(a)..]))
    case ToFloat(a) => ToFloat(FillE(a, args))
    case Times(a, b) => Times(FillE(a, args[..HolesE(a)]), FillE(b, args[HolesE(a)..]))
    case Both(a, b) => Both(FillE(a, args[..HolesE(a)]), FillE(b, args[HolesE(a)..]))
    case Cmp(op, a, b) => Cmp(op, FillE(a, args[..HolesE(a)]), FillE(b, args[HolesE(a)..]))
    case Match(a, b) => Match(FillE(a, args[..HolesE(a)]), FillE(b, args[HolesE(a)..]))
    case NotMatch(a, b) => NotMatch(FillE(a, args[..HolesE(a)]), FillE(b, args[HolesE(a)..]))
    case _ => e
  }

  /** Without holes of its own, an expression is its erased text filled with its own values. */
  lemma {:induction false} FillErasedE(e: SqlExpr)
    requires HolesE(e) == 0
    ensures HolesE(EraseE(e)) == |ParamsE(e)| && FillE(EraseE(e), ParamsE(e)) == e
  {
    match e {
      case MapGet(_, k) => FillErasedE(k);
      case ToFloat(a) => FillErasedE(a);
      case Const(_) =>
      case Col(_) =>
      case Hole =>
      case Flag(_) =>
      case _ =>
        FillErasedE(e.a);
        FillErasedE(e.b);
        assert (ParamsE(e.a) + ParamsE(e.b))[..|ParamsE(e.a)|] == ParamsE(e.a);
        assert (ParamsE(e.a) + ParamsE(e.b))[|ParamsE(e.a)|..] == ParamsE(e.b);
    }
  }

  function AggParts(g: SqlAgg): seq<SqlExpr> {
    match g
    case SumOf(e) => [e]
    case SumOverSum(e, wt) => [e, wt]
    case MinOf(e) => [e]
    case MaxOf(e) => [e]
    case QuantileTDigestWeighted(_, e, wt) => [e, wt]
  }

  function AggWith(g: SqlAgg, parts: seq<SqlExpr>): SqlAgg
    requires |parts| == |AggParts(g)|
  {
    match g
    case SumOf(_) => SumOf(parts[0])
    case SumOverSum(_, _) => SumOverSum(parts[0], parts[1])
    case MinOf(_) => MinOf(parts[0])
    case MaxOf(_) => MaxOf(parts[0])
    case QuantileTDigestWeighted(level, _, _) => QuantileTDigestWeighted(level, parts[0], parts[1])
  }

  function ItemParts(i: Item): seq<SqlExpr> {
    match i
    case ItemExpr(e, _) => [e]
    case ItemAgg(g, _) => AggParts(g)
  }

  function ItemWith(i: Item, parts: seq<SqlExpr>): Item
    requires |parts| == |ItemParts(i)|
  {
    match i
    case ItemExpr(_, name) => ItemExpr(parts[0], name)
    case ItemAgg(g, name) => ItemAgg(AggWith(g, parts), name)
  }

  // Lists of expressions.

  function ParamsL(q: seq<SqlExpr>): seq<Value> {
    if q == [] then [] else ParamsL(q[..|q| - 1]) + ParamsE(q[|q| - 1])
  }

  function HolesL(q: seq<SqlExpr>): nat {
    if q == [] then 0 else HolesL(q[..|q| - 1]) + HolesE(q[|q| - 1])
  }

  function EraseL(q: seq<SqlExpr>): seq<SqlExpr> {
    seq(|q|, i requires 0 <= i < |q| => EraseE(q[i]))
  }

  function FillL(q: seq<SqlExpr>, args: seq<Value>): (r: seq<SqlExpr>)
    requires |args| == HolesL(q)
    ensures |r| == |q|
  {
    if q == [] then []
    else
      var n := HolesL(q[..|q| - 1]);
      FillL(q[..|q| - 1], args[..n]) + [FillE(q[|q| - 1], args[n..])]
  }

  lemma FillLast(q: seq<SqlExpr>, e: SqlExpr, a: seq<Value>, b: seq<Value>)
    requires |a| == HolesL(q) && |b| == HolesE(e)
    ensures HolesL(q + [e]) == |a + b| && FillL(q + [e], a + b) == FillL(q, a) + [FillE(e, b)]
  {
    hide FillE, HolesE;
    assert (q + [e])[..|q|] == q;
    assert (a + b)[..|a|] == a && (a + b)[|a|..] == b;
  }

  lemma LastOfList(q: seq<SqlExpr>, e: SqlExpr)
    ensures HolesL(q + [e]) == HolesL(q) + HolesE(e)
    ensures ParamsL(q + [e]) == ParamsL(q) + ParamsE(e)
    ensures EraseL(q + [e]) == EraseL(q) + [EraseE(e)]
  {
    hide HolesE, ParamsE, EraseE;
    assert (q + [e])[..|q|] == q;
  }

  lemma {:induction false} FillErasedL(q: seq<SqlExpr>)
    requires HolesL(q) == 0
    ensures HolesL(EraseL(q)) == |ParamsL(q)| && FillL(EraseL(q), ParamsL(q)) == q
  {
    hide FillE, EraseE, HolesE, ParamsE, FillL, HolesL, ParamsL, EraseL;
    if q == [] {
      NoneOfList();
    } else {
      var front, e := q[..|q| - 1], q[|q| - 1];
      assert q == front + [e];
      LastOfList(front, e);
      FillErasedL(front);
      FillErasedE(e);
      FillLast(EraseL(front), EraseE(e), ParamsL(front), ParamsE(e));
    }
  }

  lemma NoneOfList()
    ensures ParamsL([]) == [] && EraseL([]) == [] && HolesL([]) == 0 && FillL([], []) == []
  {
  }

  lemma FillNone()
    ensures FillL([], []) == [] && FillI([], []) == []
  {
  }

  // Lists of select items.

  function ParamsI(q: seq<Item>): seq<Value> {
    if q == [] then [] else ParamsI(q[..|q| - 1]) + ParamsL(ItemParts(q[|q| - 1]))
  }

  function HolesI(q: seq<Item>): nat {
    if q == [] then 0 else HolesI(q[..|q| - 1]) + HolesL(ItemParts(q[|q| - 1]))
  }

  function EraseItem(i: Item): Item {
    ItemWith(i, EraseL(ItemParts(i)))
  }

  function EraseI(q: seq<Item>): seq<Item> {
    seq(|q|, i requires 0 <= i < |q| => EraseItem(q[i]))
  }

  function FillI(q: seq<Item>, args: seq<Value>): seq<Item>
    requires |args| == HolesI(q)
  {
    if q == [] then []
    else
      var n := HolesI(q[..|q| - 1]);
      var last := q[|q| - 1];
      FillI(q[..|q| - 1], args[..n]) + [ItemWith(last, FillL(ItemParts(last), args[n..]))]
  }

  lemma ItemRoundTrip(i: Item, parts: seq<SqlExpr>)
    requires |parts| == |ItemParts(i)|
    ensures ItemParts(ItemWith(i, parts)) == parts && ItemWith(ItemWith(i, parts), ItemParts(i)) == i
  {
  }

  lemma FillErasedItem(i: Item)
    requires HolesL(ItemParts(i)) == 0
    ensures ItemParts(EraseItem(i)) == EraseL(ItemParts(i))
    ensures HolesL(ItemParts(EraseItem(i))) == |ParamsL(ItemParts(i))|
    ensures ItemWith(EraseItem(i), FillL(ItemParts(EraseItem(i)), ParamsL(ItemParts(i)))) == i
  {
    hide FillL, HolesL, ParamsL, ItemParts, ItemWith, EraseE;
    FillErasedL(ItemParts(i));
    ItemRoundTrip(i, EraseL(ItemParts(i)));
  }

  lemma FillLastItem(q: seq<Item>, i: Item, a: seq<Value>, b: seq<Value>)
    requires |a| == HolesI(q) && |b| == HolesL(ItemParts(i))
    ensures HolesI(q + [i]) == |a + b|
    ensures FillI(q + [i], a + b) == FillI(q, a) + [ItemWith(i, FillL(ItemParts(i), b))]
  {
    hide FillL, HolesL, ItemParts, ItemWith;
    assert (q + [i])[..|q|] == q;
    assert (a + b)[..|a|] == a && (a + b)[|a|..] == b;
  }

  lemma {:induction false} FillErasedI(q: seq<Item>)
    requires HolesI(q) == 0
    ensures HolesI(EraseI(q)) == |ParamsI(q)| && FillI(EraseI(q), ParamsI(q)) == q
  {
    hide ItemParts, ItemWith, AggWith, AggParts, EraseItem, EraseL, FillL, ParamsL, HolesL, FillI;
    if q == [] {
      FillNone();
    } else {
      var n := |q| - 1;
      FillErasedI(q[..n]);
      FillErasedItem(q[n]);
      assert EraseI(q) == EraseI(q[..n]) + [EraseItem(q[n])];
      FillLastItem(EraseI(q[..n]), EraseItem(q[n]), ParamsI(q[..n]), ParamsL(ItemParts(q[n])));
    }
  }

  function OrderExprs(q: seq<(SqlExpr, bool)>): seq<SqlExpr> {
    seq(|q|, i requires 0 <= i < |q| => q[i].0)
  }

  function OrderWith(q: seq<(SqlExpr, bool)>, es: seq<SqlExpr>): seq<(SqlExpr, bool)>
    requires |es| == |q|
  {
    seq(|q|, i requires 0 <= i < |q| => (es[i], q[i].1))
  }

  function OptionList(e: Option<SqlExpr>): seq<SqlExpr> {
    if e.Some? then [e.value] else []
  }

  function ListOption(q: seq<SqlExpr>): Option<SqlExpr> {
    if q == [] then None else Some(q[0])
  }

  // Whole statements: SELECT items FROM (child) WHERE/GROUP BY/ORDER BY/LIMIT, in that order.

  function Params(s: Statement): seq<Value> {
    match s
    case FromTable(_, _, cond, upTo) => ParamsL(OptionList(cond)) + ParamsL(OptionList(upTo))
    case SelectWhere(child, where) => Params(child) + ParamsE(where)
    case SelectGroup(items, child, keys) => ParamsI(items) + (Params(child) + ParamsL(keys))
    case SelectOrder(child, order) => Params(child) + ParamsL(OrderExprs(order))
    case SelectLimit(child, n) => Params(child) + ParamsE(n)
  }

  function Erase(s: Statement): Statement {
    match s
    case FromTable(c, t, cond, upTo) =>
      FromTable(c, t, ListOption(EraseL(OptionList(cond))), ListOption(EraseL(OptionList(upTo))))
    case SelectWhere(child, where) => SelectWhere(Erase(child), EraseE(where))
    case SelectGroup(items, child, keys) => SelectGroup(EraseI(items), Erase(child), EraseL(keys))
    case SelectOrder(child, order) => SelectOrder(Erase(child), OrderWith(order, EraseL(OrderExprs(order))))
    case SelectLimit(child, n) => SelectLimit(Erase(child), EraseE(n))
  }

  function Holes(s: Statement): nat {
    match s
    case FromTable(_, _, cond, upTo) => HolesL(OptionList(cond)) + HolesL(OptionList(upTo))
    case SelectWhere(child, where) => Holes(child) + HolesE(where)
    case SelectGroup(items, child, keys) => HolesI(items) + (Holes(child) + HolesL(keys))
    case SelectOrder(child, order) => Holes(child) + HolesL(OrderExprs(order))
    case SelectLimit(child, n) => Holes(child) + HolesE(n)
  }

  function Fill(s: Statement, args: seq<Value>): Statement
    requires |args| == Holes(s)
  {
    match s
    case FromTable(c, t, cond, upTo) =>
      var n := HolesL(OptionList(cond));
      FromTable(c, t, ListOption(FillL(OptionList(cond), args[..n])), ListOption(FillL(OptionList(upTo), args[n..])))
    case SelectWhere(child, where) =>
      SelectWhere(Fill(child, args[..Holes(child)]), FillE(where, args[Holes(child)..]))
    case SelectGroup(items, child, keys) =>
      var n := HolesI(items);
      var m := n + Holes(child);
      SelectGroup(FillI(items, args[..n]), Fill(child, args[n..m]), FillL(keys, args[m..]))
    case SelectOrder(child, order) =>
      SelectOrder(Fill(child, args[..Holes(child)]),
                  OrderWith(order, FillL(OrderExprs(order), args[Holes(child)..])))
    case SelectLimit(child, n) =>
      SelectLimit(Fill(child, args[..Holes(child)]), FillE(n, args[Holes(child)..]))
  }

  lemma SplitTwo(a: seq<Value>, b: seq<Value>)
    ensures (a + b)[..|a|] == a && (a + b)[|a|..] == b
  {
  }

  lemma FillErasedFrom(s: Statement)
    requires s.FromTable? && Holes(s) == 0
    ensures Holes(Erase(s)) == |Params(s)| && Fill(Erase(s), Params(s)) == s
  {
    hide FillE, EraseE, HolesE, ParamsE, FillL, HolesL, ParamsL;
    var a, b := OptionList(s.cond), OptionList(s.upTo);
    FillErasedL(a);
    FillErasedL(b);
    SplitTwo(ParamsL(a), ParamsL(b));
    assert OptionList(ListOption(EraseL(a))) == EraseL(a);
    assert OptionList(ListOption(EraseL(b))) == EraseL(b);
  }

  lemma FillErasedGroup(items: seq<Item>, child: Statement, keys: seq<SqlExpr>)
    requires HolesI(items) == 0 && HolesL(keys) == 0
    requires Holes(Erase(child)) == |Params(child)| && Fill(Erase(child), Params(child)) == child
    ensures var s := SelectGroup(items, child, keys); Holes(Erase(s)) == |Params(s)| && Fill(Erase(s), Params(s)) == s
  {
    hide FillL, FillI, EraseE, EraseL, EraseI, EraseItem, HolesL, HolesI, ParamsL, ParamsI;
    FillErasedI(items);
    FillErasedL(keys);
    var a, b, c := ParamsI(items), Params(child), ParamsL(keys);
    SplitTwo(a, b + c);
    assert (a + (b + c))[|a|..|a| + |b|] == b && (a + (b + c))[|a| + |b|..] == c;
  }

  lemma FillErasedOrder(child: Statement, order: seq<(SqlExpr, bool)>)
    requires HolesL(OrderExprs(order)) == 0
    requires Holes(Erase(child)) == |Params(child)| && Fill(Erase(child), Params(child)) == child
    ensures var s := SelectOrder(child, order); Holes(Erase(s)) == |Params(s)| && Fill(Erase(s), Params(s)) == s
  {
    hide FillL, HolesL, ParamsL, EraseE;
    var es := OrderExprs(order);
    FillErasedL(es);
    SplitTwo(Params(child), ParamsL(es));
    assert OrderExprs(OrderWith(order, EraseL(es))) == EraseL(es);
    assert OrderWith(OrderWith(order, EraseL(es)), es) == order;
  }

  /** A statement without holes is its erased text filled, in text order, with its own values. */
  lemma {:induction false} FillErased(s: Statement)
    requires Holes(s) == 0
    ensures Holes(Erase(s)) == |Params(s)| && Fill(Erase(s), Params(s)) == s
  {
    hide FillE, FillL, FillI, EraseE, EraseL, EraseI, EraseItem, HolesE, HolesL, HolesI, ParamsE, ParamsL, ParamsI;
    match s {
      case FromTable(_, _, cond, upTo) =>
        FillErasedFrom(s);
      case SelectWhere(child, where) =>
        FillErased(child);
        FillErasedE(where);
        SplitTwo(Params(child), ParamsE(where));
      case SelectGroup(items, child, keys) =>
        FillErased(child);
        FillErasedGroup(items, child, keys);
      case SelectOrder(child, order) =>
        FillErased(child);
        FillErasedOrder(child, order);
      case SelectLimit(child, n) =>
        FillErased(child);
        FillErasedE(n);
        SplitTwo(Params(child), ParamsE(n));
    }
  }

  // ---- What a filled statement means ----

  function Eval(env: Env, row: Row, e: SqlExpr): Option<Cell> {
    match e
    case Col(name) => ColumnCell(row, name)
    case Const(v) => Some(Cell(ValueString(env, v), NumberOf(v)))
    case MapGet(column, key) =>
      var k := Eval(env, row, key);
      if k.None? then None
      else
        var text := AttrIn(row, column, k.value.text);
        if text.Some? then Some(Cell(text.value, None)) else None
    case Coalesce(a, b) =>
      var x := Eval(env, row, a);
      if x.Some? then x else Eval(env, row, b)
    case ToFloat(a) =>
      var x := Eval(env, row, a);
      if x.Some? && env.parse(x.value.text).Some? then Some(Cell(x.value.text, env.parse(x.value.text))) else None
    case Times(a, b) =>
      NumberCell(env, Product((CellNumber(Eval(env, row, a)), CellNumber(Eval(env, row, b)))))
    case _ => None
  }

  predicate Compares(op: string, a: Cell, b: Cell) {
    if op == "=" then a.text == b.text
    else if op == "!=" then a.text != b.text
    else a.num.Some? && b.num.Some? && Compare(op, a.num.value, b.num.value)
  }

  predicate Test(env: Env, row: Row, e: SqlExpr) {
    match e
    case Flag(on) => on
    case Const(v) => Truthy(v)
    case Both(a, b) => Test(env, row, a) && Test(env, row, b)
    case Cmp(op, a, b) =>
      var x, y := Eval(env, row, a), Eval(env, row, b);
      x.Some? && y.Some? && Compares(op, x.value, y.value)
    case Match(a, b) =>
      var x, y := Eval(env, row, a), Eval(env, row, b);
      x.Some? && y.Some? && env.matches(x.value.text, y.value.text)
    case NotMatch(a, b) =>
      var x, y := Eval(env, row, a), Eval(env, row, b);
      x.Some? && y.Some? && !env.matches(x.value.text, y.value.text)
    case _ => false
  }

  function Numbers(env: Env, rows: seq<Row>, e: SqlExpr): seq<Option<real>> {
    seq(|rows|, i requires 0 <= i < |rows| => CellNumber(Eval(env, rows[i], e)))
  }

  /** sum() skips NULLs; the sum of nothing is 0. */
  function SumUp(q: seq<Option<real>>): real {
    if q == [] then 0.0 else SumUp(q[..|q| - 1]) + OrZero(q[|q| - 1])
  }

  function MinUp(q: seq<Option<real>>): Option<real> {
    if q == [] then None
    else
      var best, x := MinUp(q[..|q| - 1]), q[|q| - 1];
      if x.None? then best else if best.None? || x.value < best.value then x else best
  }

  function MaxUp(q: seq<Option<real>>): Option<real> {
    if q == [] then None
    else
      var best, x := MaxUp(q[..|q| - 1]), q[|q| - 1];
      if x.None? then best else if best.None? || x.value > best.value then x else best
  }

  /** Numbers with their weights rounded to whole numbers. */
  function Pairs(env: Env, xs: seq<Option<real>>, ws: seq<Option<real>>): seq<(real, nat)>
    requires |xs| == |ws|
  {
    if xs == [] then []
    else
      var n := |xs| - 1;
      Pairs(env, xs[..n], ws[..n]) + (if xs[n].Some? && ws[n].Some? then [(xs[n].value, env.unsigned(ws[n].value))] else [])
  }

  function AggResult(env: Env, g: SqlAgg, rows: seq<Row>): Option<real> {
    match g
    case SumOf(e) => Some(SumUp(Numbers(env, rows, e)))
    case SumOverSum(e, wt) => Ratio(SumUp(Numbers(env, rows, e)), SumUp(Numbers(env, rows, wt)))
    case MinOf(e) => MinUp(Numbers(env, rows, e))
    case MaxOf(e) => MaxUp(Numbers(env, rows, e))
    case QuantileTDigestWeighted(level, e, wt) =>
      QuantileOf(env, level, Pairs(env, Numbers(env, rows, e), Numbers(env, rows, wt)))
  }

  function ItemCell(env: Env, i: Item, rows: seq<Row>): (string, Option<Cell>) {
    match i
    case ItemExpr(e, name) => (name, if rows == [] then None else Eval(env, rows[0], e))
    case ItemAgg(g, name) => (name, NumberCell(env, AggResult(env, g, rows)))
  }

  function ItemRow(env: Env, items: seq<Item>, rows: seq<Row>): Row {
    RowFrom(seq(|items|, i requires 0 <= i < |items| => ItemCell(env, items[i], rows)))
  }

  function ExprKey(env: Env, row: Row, es: seq<SqlExpr>): Key {
    seq(|es|, i requires 0 <= i < |es| => Eval(env, row, es[i]))
  }

  function ExprKeys(env: Env, rows: seq<Row>, es: seq<SqlExpr>): seq<Key> {
    seq(|rows|, i requires 0 <= i < |rows| => ExprKey(env, rows[i], es))
  }

  function SqlGroups(env: Env, rows: seq<Row>, keys: seq<SqlExpr>): seq<(Key, seq<Row>)> {
    if keys == [] then [([], rows)] else GroupOn(ExprKeys(env, rows, keys), rows)
  }

  function OrderKeyOf(env: Env, row: Row, order: seq<(SqlExpr, bool)>): OrderKey {
    seq(|order|, i requires 0 <= i < |order| => (Eval(env, row, order[i].0), order[i].1))
  }

  function LimitOf(e: SqlExpr): nat {
    if e.Const? && e.v.Int? && e.v.i >= 0 then e.v.i else 0
  }

  function Run(env: Env, s: Statement, rows: seq<Row>): seq<Row> {
    match s
    case FromTable(columns, _, cond, upTo) =>
      var kept := Where(rows, (r: Row) => cond.Some? ==> Test(env, r, cond.value));
      RestrictAll(if upTo.Some? then Take(kept, LimitOf(upTo.value)) else kept, columns)
    case SelectWhere(child, where) => Where(Run(env, child, rows), (r: Row) => Test(env, r, where))
    case SelectGroup(items, child, keys) =>
      var groups := SqlGroups(env, Run(env, child, rows), keys);
      seq(|groups|, i requires 0 <= i < |groups| => ItemRow(env, items, groups[i].1))
    case SelectOrder(child, order) =>
      var below := Run(env, child, rows);
      RowsOf(OrderOn(env, seq(|below|, i requires 0 <= i < |below| => OrderKeyOf(env, below[i], order)), below))
    case SelectLimit(child, n) => Take(Run(env, child, rows), LimitOf(n))
  }

  /** A statement with its argument list; the driver refuses a wrong count. */
  datatype Physical = Physical(sql: Statement, args: seq<Value>)

  function Execute(env: Env, p: Physical, table: seq<Row>): Option<seq<Row>> {
    if |p.args| == Holes(p.sql) then Some(Run(env, Fill(p.sql, p.args), table)) else None
  }
}
