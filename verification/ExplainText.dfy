// The text of the emitted SQL, and the EXPLAIN path that replaces each "?" of that text by a rendering
// of the next bound argument.
module ExplainText {
  import opened Expressions
  import opened Numerals
  import opened Options
  import opened Plans
  import opened Passes
  import opened Sql
  import opened PhysicalPlanner
  import opened SqlMeaning
  import opened QueryCompiler
  import opened Optimizer

  /** How floats (format 'g') and UTC instants are printed. */
  datatype Printer = Printer(float: real -> string, instant: int -> string)

  // ---- Literals ----

  function EscapeChar(c: char): string {
    if c == '\\' then "\\\\" else if c == '\'' then "\\\'" else [c]
  }

  function Escape(s: string): string {
    if s == "" then "" else EscapeChar(s[0]) + Escape(s[1..])
  }

  function IntText(i: int): string {
    if i < 0 then "-" + Itoa(-i) else Itoa(i)
  }

  function ExplainLiteral(pr: Printer, v: Value): string {
    match v
    case Str(s) => "'" + Escape(s) + "'"
    case Num(n) => pr.float(n)
    case Int(i) => IntText(i)
    case Bool(b) => if b then "1" else "0"
    case Time(t) => "'" + pr.instant(t) + "'"
  }

  /** A single-quoted literal read from after its opening quote: its contents, and what follows the closing quote. */
  function Unquote(text: string): Option<(string, string)> {
    if text == "" then None
    else if text[0] == '\'' then Some(("", text[1..]))
    else if text[0] == '\\' then
      if |text| < 2 then None
      else
        match Unquote(text[2..])
        case None => None
        case Some((s, rest)) => Some(([text[1]] + s, rest))
    else
      match Unquote(text[1..])
      case None => None
      case Some((s, rest)) => Some(([text[0]] + s, rest))
  }

  function Consed(c: char, r: Option<(string, string)>): Option<(string, string)> {
    match r
    case None => None
    case Some((s, rest)) => Some(([c] + s, rest))
  }

  lemma UnquoteStep(c: char, tail: string)
    ensures Unquote(EscapeChar(c) + tail) == Consed(c, Unquote(tail))
  {
    var head := EscapeChar(c);
    assert (head + tail)[|head|..] == tail;
    assert (head + tail)[0] == head[0];
    if c == '\\' || c == '\'' {
      assert (head + tail)[1] == c;
      assert Unquote(head + tail) == Consed(c, Unquote((head + tail)[2..]));
    } else {
      assert Unquote(head + tail) == Consed(c, Unquote((head + tail)[1..]));
    }
  }

  lemma {:induction false} EscapeUndone(s: string, rest: string)
    ensures Unquote(Escape(s) + ("'" + rest)) == Some((s, rest))
  {
    hide EscapeChar;
    if s == "" {
      assert Escape(s) + ("'" + rest) == "'" + rest;
      assert ("'" + rest)[1..] == rest;
    } else {
      EscapeUndone(s[1..], rest);
      UnquoteStep(s[0], Escape(s[1..]) + ("'" + rest));
      assert Escape(s) + ("'" + rest) == EscapeChar(s[0]) + (Escape(s[1..]) + ("'" + rest));
      assert s == [s[0]] + s[1..];
    }
  }

  /** Whatever string was bound, its literal reads back as that string and ends where it ends. */
  lemma StringLiteralReadsBack(pr: Printer, s: string, rest: string)
    ensures (ExplainLiteral(pr, Str(s)) + rest)[0] == '\''
    ensures Unquote((ExplainLiteral(pr, Str(s)) + rest)[1..]) == Some((s, rest))
  {
    EscapeUndone(s, rest);
    assert (ExplainLiteral(pr, Str(s)) + rest)[1..] == Escape(s) + ("'" + rest);
  }

  /** Whole numbers read back with their sign, truth values as the database's own. */
  lemma OtherLiteralsReadBack(pr: Printer, i: int)
    ensures var text := ExplainLiteral(pr, Int(i));
            && text != ""
            && (if i < 0 then text[0] == '-' && AllDigits(text[1..]) && DigitsValue(text[1..]) == -i
                else AllDigits(text) && DigitsValue(text) == i)
    ensures ExplainLiteral(pr, Bool(true)) == "1" && ExplainLiteral(pr, Bool(false)) == "0"
  {
    hide Itoa, DigitsValue;
    if i < 0 {
      ItoaUndone(-i);
      assert ("-" + Itoa(-i))[1..] == Itoa(-i);
    } else {
      ItoaUndone(i);
    }
  }

  // ---- Inlining ----

  function Inline(pr: Printer, text: string, args: seq<Value>): Option<string> {
    if text == "" then Some("")
    else if text[0] != '?' then
      var rest := Inline(pr, text[1..], args);
      if rest.None? then None else Some([text[0]] + rest.value)
    else if args == [] then None
    else
      var rest := Inline(pr, text[1..], args[1..]);
      if rest.None? then None else Some(ExplainLiteral(pr, args[0]) + rest.value)
  }

  function Prefixed(s: string, t: Option<string>): Option<string> {
    if t.None? then None else Some(s + t.value)
  }

  /** None stands for the error of a text with more placeholders than arguments. */
  method InlineForExplain(pr: Printer, sql: string, args: seq<Value>) returns (r: Option<string>)
    ensures r == Inline(pr, sql, args)
  {
    var sb, argi := "", 0;
    assert sql[0..] == sql && args[0..] == args;
    ghost var whole := Inline(pr, sql, args);
    assert whole.Some? ==> "" + whole.value == whole.value;
    for i := 0 to |sql|
      invariant 0 <= argi <= |args|
      invariant Inline(pr, sql, args) == Prefixed(sb, Inline(pr, sql[i..], args[argi..]))
    {
      assert sql[i..][1..] == sql[i + 1..];
      if sql[i] != '?' {
        ghost var rest := Inline(pr, sql[i + 1..], args[argi..]);
        assert rest.Some? ==> sb + ([sql[i]] + rest.value) == sb + [sql[i]] + rest.value;
        sb := sb + [sql[i]];
        continue;
      }
      if argi >= |args| {
        return None;
      }
      var lit := ExplainLiteral(pr, args[argi]);
      assert args[argi..][1..] == args[argi + 1..];
      ghost var rest := Inline(pr, sql[i + 1..], args[argi + 1..]);
      assert rest.Some? ==> sb + (lit + rest.value) == sb + lit + rest.value;
      sb := sb + lit;
      argi := argi + 1;
    }
    assert sql[|sql|..] == "" && sb + "" == sb;
    return Some(sb);
  }

  function Marks(text: string): nat {
    if text == "" then 0 else (if text[0] == '?' then 1 else 0) + Marks(text[1..])
  }

  /** Inlining fails exactly for want of arguments; spare ones go unnoticed. */
  lemma {:induction false} FailsForWantOfArguments(pr: Printer, text: string, args: seq<Value>)
    ensures Inline(pr, text, args).Some? <==> Marks(text) <= |args|
  {
    hide ExplainLiteral;
    if text != "" {
      if text[0] != '?' {
        FailsForWantOfArguments(pr, text[1..], args);
      } else if args != [] {
        FailsForWantOfArguments(pr, text[1..], args[1..]);
      }
    }
  }

  /** The text takes exactly these arguments and becomes out. */
  predicate Takes(pr: Printer, text: string, args: seq<Value>, out: string) {
    Marks(text) == |args| && Inline(pr, text, args) == Some(out)
  }

  lemma {:induction false} Joined(pr: Printer, t: string, a: seq<Value>, o: string, u: string, b: seq<Value>, p: string)
    requires Takes(pr, t, a, o) && Takes(pr, u, b, p)
    ensures Takes(pr, t + u, a + b, o + p)
  {
    hide ExplainLiteral;
    if t == "" {
      assert t + u == u && a + b == b && o + p == p;
    } else {
      assert (t + u)[1..] == t[1..] + u;
      if t[0] != '?' {
        var rest := Inline(pr, t[1..], a).value;
        Joined(pr, t[1..], a, rest, u, b, p);
        assert [t[0]] + (rest + p) == [t[0]] + rest + p;
      } else {
        var rest := Inline(pr, t[1..], a[1..]).value;
        var lit := ExplainLiteral(pr, a[0]);
        Joined(pr, t[1..], a[1..], rest, u, b, p);
        assert (a + b)[1..] == a[1..] + b;
        assert lit + (rest + p) == lit + rest + p;
      }
    }
  }

  lemma {:induction false} FixedText(pr: Printer, t: string)
    requires '?' !in t
    ensures Takes(pr, t, [], t)
  {
    if t != "" {
      FixedText(pr, t[1..]);
      assert t == [t[0]] + t[1..];
    }
  }

  // ---- The text of a statement; a placeholder is "?", a value in place its literal ----

  function Wrap(open: string, t: string, close: string): string {
    open + (t + close)
  }

  function Pair(open: string, t: string, mid: string, u: string, close: string): string {
    open + (t + (mid + (u + close)))
  }

  lemma TakesWrapped(pr: Printer, open: string, t: string, a: seq<Value>, o: string, close: string)
    requires '?' !in open && '?' !in close && Takes(pr, t, a, o)
    ensures Takes(pr, Wrap(open, t, close), a, Wrap(open, o, close))
  {
    hide Takes;
    FixedText(pr, open);
    FixedText(pr, close);
    Joined(pr, t, a, o, close, [], close);
    Joined(pr, open, [], open, t + close, a + [], o + close);
    assert [] + (a + []) == a;
  }

  lemma TakesPair(pr: Printer, open: string, t: string, a: seq<Value>, o: string, mid: string,
                  u: string, b: seq<Value>, p: string, close: string)
    requires '?' !in open && '?' !in mid && '?' !in close && Takes(pr, t, a, o) && Takes(pr, u, b, p)
    ensures Takes(pr, Pair(open, t, mid, u, close), a + b, Pair(open, o, mid, p, close))
  {
    hide Takes;
    TakesWrapped(pr, mid, u, b, p, close);
    Joined(pr, t, a, o, mid + (u + close), b, mid + (p + close));
    FixedText(pr, open);
    Joined(pr, open, [], open, t + (mid + (u + close)), a + b, o + (mid + (p + close)));
    assert [] + (a + b) == a + b;
  }

  function TextE(pr: Printer, e: SqlExpr): string {
    match e
    case Col(name) => name
    case Hole => "?"
    case Const(v) => ExplainLiteral(pr, v)
    case MapGet(column, key) => Wrap(column + "[", TextE(pr, key), "]")
    case Coalesce(a, b) => Pair("coalesce(", TextE(pr, a), ", ", TextE(pr, b), ")")
    case ToFloat(a) => Wrap("toFloat64OrNull(", TextE(pr, a), ")")
    case Times(a, b) => Pair("", TextE(pr, a), " * ", TextE(pr, b), "")
    case Flag(on) => if on then "1" else "0"
    case Both(a, b) => Pair("(", TextE(pr, a), " AND ", TextE(pr, b), ")")
    case Cmp(op, a, b) => Pair("", TextE(pr, a), " " + op + " ", TextE(pr, b), "")
    case Match(a, b) => Pair("match(", TextE(pr, a), ", ", TextE(pr, b), ")")
    case NotMatch(a, b) => Pair("NOT match(", TextE(pr, a), ", ", TextE(pr, b), ")")
  }

  function LevelText(level: real): string {
    if level == 0.5 then "0.5" else if level == 0.95 then "0.95" else "0.99"
  }

  function TextAgg(pr: Printer, g: SqlAgg): string {
    match g
    case SumOf(e) => Wrap("sum(", TextE(pr, e), ")")
    case SumOverSum(e, wt) => Pair("sum(", TextE(pr, e), ") / sum(", TextE(pr, wt), ")")
    case MinOf(e) => Wrap("min(", TextE(pr, e), ")")
    case MaxOf(e) => Wrap("max(", TextE(pr, e), ")")
    case QuantileTDigestWeighted(level, e, wt) =>
      Pair("quantileTDigestWeighted(" + LevelText(level) + ")(", TextE(pr, e), ", toUInt64(round(", TextE(pr, wt), ")))")
  }

  function TextItem(pr: Printer, i: Item): string {
    match i
    case ItemExpr(e, name) => Wrap("", TextE(pr, e), " AS `" + name + "`")
    case ItemAgg(g, name) => Wrap("", TextAgg(pr, g), " AS `" + name + "`")
  }

  /** strings.Join with ", ". */
  function Comma(q: seq<string>): string {
    if q == [] then ""
    else if |q| == 1 then q[0]
    else Pair("", Comma(q[..|q| - 1]), ", ", q[|q| - 1], "")
  }

  function TextL(pr: Printer, q: seq<SqlExpr>): seq<string> {
    seq(|q|, i requires 0 <= i < |q| => TextE(pr, q[i]))
  }

  function TextI(pr: Printer, q: seq<Item>): seq<string> {
    seq(|q|, i requires 0 <= i < |q| => TextItem(pr, q[i]))
  }

  /** Above an aggregation, sort fields are its quoted output names. */
  predicate Aggregated(s: Statement) {
    match s
    case FromTable(_, _, _, _) => false
    case SelectGroup(_, _, _) => true
    case _ => Aggregated(s.child)
  }

  function OrderClose(over: bool, desc: bool): string {
    (if over then "`" else "") + (if desc then " DESC" else " ASC")
  }

  function OrderText(pr: Printer, over: bool, x: (SqlExpr, bool)): string {
    Wrap(if over then "`" else "", TextE(pr, x.0), OrderClose(over, x.1))
  }

  function TextO(pr: Printer, over: bool, order: seq<(SqlExpr, bool)>): seq<string> {
    seq(|order|, i requires 0 <= i < |order| => OrderText(pr, over, order[i]))
  }

  function ColumnsText(columns: seq<string>): string {
    if columns == [] then "*" else Comma(columns)
  }

  function FromHead(columns: seq<string>, table: string): string {
    Wrap("SELECT ", ColumnsText(columns), " FROM tracelens." + table)
  }

  function Clause(pr: Printer, text: string, keyword: string, e: Option<SqlExpr>): string {
    if e.None? then text else Pair("", text, keyword, TextE(pr, e.value), "")
  }

  function SqlText(pr: Printer, s: Statement): string {
    match s
    case FromTable(columns, table, cond, upTo) =>
      Clause(pr, Clause(pr, FromHead(columns, table), " WHERE ", cond), " LIMIT ", upTo)
    case SelectWhere(child, where) => Pair("SELECT * FROM (", SqlText(pr, child), ") WHERE ", TextE(pr, where), "")
    case SelectGroup(items, child, keys) =>
      var body := Pair("SELECT ", Comma(TextI(pr, items)), " FROM (", SqlText(pr, child), ")");
      if keys == [] then body else Pair("", body, " GROUP BY ", Comma(TextL(pr, keys)), "")
    case SelectOrder(child, order) =>
      Pair("SELECT * FROM (", SqlText(pr, child), ") ORDER BY ", Comma(TextO(pr, Aggregated(child), order)), "")
    case SelectLimit(child, n) => Pair("SELECT * FROM (", SqlText(pr, child), ") LIMIT ", TextE(pr, n), "")
  }

  // ---- Inlining the bound text gives the text with its values in place ----

  predicate Fixed(s: string) {
    '?' !in s
  }

  predicate SpelledE(e: SqlExpr) {
    match e
    case Col(name) => Fixed(name)
    case Hole => false
    case Const(_) => true
    case MapGet(column, key) => Fixed(column) && SpelledE(key)
    case Coalesce(a, b) => SpelledE(a) && SpelledE(b)
    case ToFloat(a) => SpelledE(a)
    case Times(a, b) => SpelledE(a) && SpelledE(b)
    case Flag(_) => true
    case Both(a, b) => SpelledE(a) && SpelledE(b)
    case Cmp(op, a, b) => Fixed(op) && SpelledE(a) && SpelledE(b)
    case Match(a, b) => SpelledE(a) && SpelledE(b)
    case NotMatch(a, b) => SpelledE(a) && SpelledE(b)
  }

  ghost predicate SpelledL(q: seq<SqlExpr>) {
    forall e | e in q :: SpelledE(e)
  }

  ghost predicate SpelledI(q: seq<Item>) {
    forall i | i in q :: Fixed(i.name) && SpelledL(ItemParts(i))
  }

  /** Every identifier is free of "?" and every value is in place. */
  ghost predicate Spelled(s: Statement) {
    match s
    case FromTable(columns, table, cond, upTo) =>
      (forall c | c in columns :: Fixed(c)) && Fixed(table) && SpelledL(OptionList(cond)) && SpelledL(OptionList(upTo))
    case SelectWhere(child, where) => Spelled(child) && SpelledE(where)
    case SelectGroup(items, child, keys) => SpelledI(items) && Spelled(child) && SpelledL(keys)
    case SelectOrder(child, order) => Spelled(child) && SpelledL(OrderExprs(order))
    case SelectLimit(child, n) => Spelled(child) && SpelledE(n)
  }

  lemma OneMark(pr: Printer, v: Value)
    ensures Takes(pr, "?", [v], ExplainLiteral(pr, v))
  {
    assert "?"[1..] == "";
    assert Inline(pr, "", [v][1..]) == Some("");
    assert ExplainLiteral(pr, v) + "" == ExplainLiteral(pr, v);
  }

  predicate TakesE(pr: Printer, e: SqlExpr) {
    Takes(pr, TextE(pr, EraseE(e)), ParamsE(e), TextE(pr, e))
  }

  lemma BothTake(pr: Printer, open: string, a: SqlExpr, mid: string, b: SqlExpr, close: string)
    requires TakesE(pr, a) && TakesE(pr, b) && Fixed(open) && Fixed(mid) && Fixed(close)
    ensures Takes(pr, Pair(open, TextE(pr, EraseE(a)), mid, TextE(pr, EraseE(b)), close), ParamsE(a) + ParamsE(b),
                  Pair(open, TextE(pr, a), mid, TextE(pr, b), close))
  {
    hide Takes, Pair, TextE, EraseE, ParamsE;
    TakesPair(pr, open, TextE(pr, EraseE(a)), ParamsE(a), TextE(pr, a), mid, TextE(pr, EraseE(b)), ParamsE(b), TextE(pr, b), close);
  }

  lemma {:induction false} ExprTakes(pr: Printer, e: SqlExpr)
    requires SpelledE(e)
    ensures TakesE(pr, e)
  {
    hide Takes, Wrap, Pair, ExplainLiteral;
    match e {
      case Col(name) => FixedText(pr, name);
      case Flag(on) => FixedText(pr, if on then "1" else "0");
      case Const(v) => OneMark(pr, v);
      case MapGet(column, key) =>
        ExprTakes(pr, key);
        TakesWrapped(pr, column + "[", TextE(pr, EraseE(key)), ParamsE(key), TextE(pr, key), "]");
      case ToFloat(a) =>
        ExprTakes(pr, a);
        TakesWrapped(pr, "toFloat64OrNull(", TextE(pr, EraseE(a)), ParamsE(a), TextE(pr, a), ")");
      case Coalesce(a, b) =>
        ExprTakes(pr, a);
        ExprTakes(pr, b);
        BothTake(pr, "coalesce(", a, ", ", b, ")");
      case Times(a, b) =>
        ExprTakes(pr, a);
        ExprTakes(pr, b);
        BothTake(pr, "", a, " * ", b, "");
      case Both(a, b) =>
        ExprTakes(pr, a);
        ExprTakes(pr, b);
        BothTake(pr, "(", a, " AND ", b, ")");
      case Cmp(op, a, b) =>
        ExprTakes(pr, a);
        ExprTakes(pr, b);
        BothTake(pr, "", a, " " + op + " ", b, "");
      case Match(a, b) =>
        ExprTakes(pr, a);
        ExprTakes(pr, b);
        BothTake(pr, "match(", a, ", ", b, ")");
      case NotMatch(a, b) =>
        ExprTakes(pr, a);
        ExprTakes(pr, b);
        BothTake(pr, "NOT match(", a, ", ", b, ")");
    }
  }

  lemma NoneTakes(pr: Printer, a: seq<Value>)
    requires Takes(pr, "", a, "")
    ensures a == []
  {
  }

  lemma CommaLast(q: seq<string>, t: string)
    requires q != []
    ensures Comma(q + [t]) == Pair("", Comma(q), ", ", t, "")
  {
    hide Pair;
    assert (q + [t])[..|q + [t]| - 1] == q;
  }

  lemma CommaStep(pr: Printer, ts: seq<string>, a: seq<Value>, os: seq<string>, t: string, b: seq<Value>, o: string)
    requires |ts| == |os| && Takes(pr, Comma(ts), a, Comma(os)) && Takes(pr, t, b, o)
    ensures Takes(pr, Comma(ts + [t]), a + b, Comma(os + [o]))
  {
    hide Inline, Pair, Takes, ExplainLiteral;
    if ts == [] {
      NoneTakes(pr, a);
      assert a + b == b;
    } else {
      CommaLast(ts, t);
      CommaLast(os, o);
      TakesPair(pr, "", Comma(ts), a, Comma(os), ", ", t, b, o, "");
    }
  }

  lemma CommaOfNone(pr: Printer)
    ensures Takes(pr, Comma([]), [], Comma([]))
  {
  }

  lemma {:induction false} ListTakes(pr: Printer, q: seq<SqlExpr>)
    requires SpelledL(q)
    ensures Takes(pr, Comma(TextL(pr, EraseL(q))), ParamsL(q), Comma(TextL(pr, q)))
  {
    hide Takes, Comma, SpelledE, TextE, EraseE, ParamsE;
    if q == [] {
      CommaOfNone(pr);
      assert TextL(pr, EraseL(q)) == [] && TextL(pr, q) == [];
    } else {
      var front, e := q[..|q| - 1], q[|q| - 1];
      ListTakes(pr, front);
      ExprTakes(pr, e);
      assert TextL(pr, q) == TextL(pr, front) + [TextE(pr, e)];
      assert TextL(pr, EraseL(q)) == TextL(pr, EraseL(front)) + [TextE(pr, EraseE(e))];
      CommaStep(pr, TextL(pr, EraseL(front)), ParamsL(front), TextL(pr, front), TextE(pr, EraseE(e)), ParamsE(e), TextE(pr, e));
    }
  }

  function ErasedOrder(q: seq<(SqlExpr, bool)>): seq<(SqlExpr, bool)> {
    OrderWith(q, EraseL(OrderExprs(q)))
  }

  lemma LastOfOrder(pr: Printer, over: bool, q: seq<(SqlExpr, bool)>, x: (SqlExpr, bool))
    ensures TextO(pr, over, q + [x]) == TextO(pr, over, q) + [OrderText(pr, over, x)]
    ensures OrderExprs(q + [x]) == OrderExprs(q) + [x.0]
    ensures ErasedOrder(q + [x]) == ErasedOrder(q) + [(EraseE(x.0), x.1)]
  {
    hide OrderText, EraseE;
    assert OrderExprs(q + [x]) == OrderExprs(q) + [x.0];
  }

  lemma {:induction false} OrderTakes(pr: Printer, over: bool, q: seq<(SqlExpr, bool)>)
    requires SpelledL(OrderExprs(q))
    ensures Takes(pr, Comma(TextO(pr, over, ErasedOrder(q))), ParamsL(OrderExprs(q)), Comma(TextO(pr, over, q)))
  {
    hide Takes, Comma, SpelledE, TextE, EraseE, ParamsE, OrderText, ErasedOrder, OrderExprs, TextO, ParamsL;
    if q == [] {
      NoOrder(pr, over);
    } else {
      var front, x := q[..|q| - 1], q[|q| - 1];
      var y := (EraseE(x.0), x.1);
      assert q == front + [x];
      LastOfOrder(pr, over, front, x);
      assert OrderExprs(q)[|OrderExprs(front)|] == x.0;
      OrderTakes(pr, over, front);
      OrderItemTakes(pr, over, x);
      LastOfList(OrderExprs(front), x.0);
      LastOfOrder(pr, over, ErasedOrder(front), y);
      SameLength(pr, over, front);
      CommaStep(pr, TextO(pr, over, ErasedOrder(front)), ParamsL(OrderExprs(front)), TextO(pr, over, front),
                OrderText(pr, over, y), ParamsE(x.0), OrderText(pr, over, x));
    }
  }

  lemma SameLength(pr: Printer, over: bool, q: seq<(SqlExpr, bool)>)
    ensures |TextO(pr, over, ErasedOrder(q))| == |TextO(pr, over, q)|
  {
  }

  lemma NoOrder(pr: Printer, over: bool)
    ensures Takes(pr, Comma(TextO(pr, over, ErasedOrder([]))), ParamsL(OrderExprs([])), Comma(TextO(pr, over, [])))
  {
    CommaOfNone(pr);
  }

  lemma OrderItemTakes(pr: Printer, over: bool, x: (SqlExpr, bool))
    requires SpelledE(x.0)
    ensures Takes(pr, OrderText(pr, over, (EraseE(x.0), x.1)), ParamsE(x.0), OrderText(pr, over, x))
  {
    hide Takes, SpelledE, TextE, EraseE, ParamsE, Wrap;
    ExprTakes(pr, x.0);
    TakesWrapped(pr, if over then "`" else "", TextE(pr, EraseE(x.0)), ParamsE(x.0), TextE(pr, x.0), OrderClose(over, x.1));
  }

  function ErasedAgg(g: SqlAgg): SqlAgg {
    AggWith(g, EraseL(AggParts(g)))
  }

  lemma OneWrapped(pr: Printer, open: string, e: SqlExpr, close: string)
    requires SpelledE(e) && Fixed(open) && Fixed(close)
    ensures Takes(pr, Wrap(open, TextE(pr, EraseE(e)), close), ParamsL([e]), Wrap(open, TextE(pr, e), close))
  {
    hide Takes, SpelledE, TextE, EraseE, ParamsE, ParamsL, Wrap;
    ExprTakes(pr, e);
    ParamsOfOne(e);
    TakesWrapped(pr, open, TextE(pr, EraseE(e)), ParamsE(e), TextE(pr, e), close);
  }

  lemma TwoPaired(pr: Printer, open: string, e: SqlExpr, mid: string, w: SqlExpr, close: string)
    requires SpelledE(e) && SpelledE(w) && Fixed(open) && Fixed(mid) && Fixed(close)
    ensures Takes(pr, Pair(open, TextE(pr, EraseE(e)), mid, TextE(pr, EraseE(w)), close), ParamsL([e, w]),
                  Pair(open, TextE(pr, e), mid, TextE(pr, w), close))
  {
    hide Takes, SpelledE, TextE, EraseE, ParamsE, ParamsL, Pair;
    ExprTakes(pr, e);
    ExprTakes(pr, w);
    ParamsOfTwo(e, w);
    BothTake(pr, open, e, mid, w, close);
  }

  lemma LevelIsFixed(level: real)
    ensures Fixed("quantileTDigestWeighted(" + LevelText(level) + ")(")
  {
  }

  lemma AggTakes(pr: Printer, g: SqlAgg)
    requires SpelledL(AggParts(g))
    ensures Takes(pr, TextAgg(pr, ErasedAgg(g)), ParamsL(AggParts(g)), TextAgg(pr, g))
  {
    hide Takes, SpelledE, TextE, EraseE, ParamsE, ParamsL, Pair, Wrap, LevelText;
    assert SpelledE(AggParts(g)[0]);
    match g {
      case SumOf(e) => OneWrapped(pr, "sum(", e, ")");
      case MinOf(e) => OneWrapped(pr, "min(", e, ")");
      case MaxOf(e) => OneWrapped(pr, "max(", e, ")");
      case SumOverSum(e, wt) =>
        assert SpelledE(AggParts(g)[1]);
        TwoPaired(pr, "sum(", e, ") / sum(", wt, ")");
      case QuantileTDigestWeighted(level, e, wt) =>
        assert SpelledE(AggParts(g)[1]);
        LevelIsFixed(level);
        TwoPaired(pr, "quantileTDigestWeighted(" + LevelText(level) + ")(", e, ", toUInt64(round(", wt, ")))");
    }
  }

  lemma AliasIsFixed(name: string)
    requires Fixed(name)
    ensures Fixed(" AS `" + name + "`")
  {
  }

  lemma ItemTakes(pr: Printer, i: Item)
    requires Fixed(i.name) && SpelledL(ItemParts(i))
    ensures Takes(pr, TextItem(pr, EraseItem(i)), ParamsL(ItemParts(i)), TextItem(pr, i))
  {
    hide Takes, SpelledE, TextE, EraseE, ParamsE, ParamsL, Pair, Wrap, TextAgg, AggParts, AggWith, Fixed;
    AliasIsFixed(i.name);
    match i {
      case ItemExpr(e, name) =>
        assert SpelledE(ItemParts(i)[0]);
        ItemExprErases(e, name);
        NothingIsFixed();
        OneWrapped(pr, "", e, " AS `" + name + "`");
      case ItemAgg(g, name) =>
        AggTakes(pr, g);
        NothingIsFixed();
        AliasWraps(pr, TextAgg(pr, ErasedAgg(g)), ParamsL(AggParts(g)), TextAgg(pr, g), name);
    }
  }

  lemma NothingIsFixed()
    ensures Fixed("")
  {
  }

  lemma AliasWraps(pr: Printer, t: string, a: seq<Value>, o: string, name: string)
    requires Takes(pr, t, a, o) && Fixed(name)
    ensures Takes(pr, Wrap("", t, " AS `" + name + "`"), a, Wrap("", o, " AS `" + name + "`"))
  {
    hide Takes, Wrap;
    AliasIsFixed(name);
    TakesWrapped(pr, "", t, a, o, " AS `" + name + "`");
  }

  lemma {:induction false} ItemsTake(pr: Printer, q: seq<Item>)
    requires SpelledI(q)
    ensures Takes(pr, Comma(TextI(pr, EraseI(q))), ParamsI(q), Comma(TextI(pr, q)))
  {
    hide Takes, Comma, Fixed, SpelledL, TextItem, EraseItem, ItemParts, ParamsL;
    if q == [] {
      CommaOfNone(pr);
      assert TextI(pr, EraseI(q)) == [] && TextI(pr, q) == [];
    } else {
      var front, i := q[..|q| - 1], q[|q| - 1];
      ItemsTake(pr, front);
      ItemTakes(pr, i);
      assert TextI(pr, q) == TextI(pr, front) + [TextItem(pr, i)];
      assert TextI(pr, EraseI(q)) == TextI(pr, EraseI(front)) + [TextItem(pr, EraseItem(i))];
      CommaStep(pr, TextI(pr, EraseI(front)), ParamsI(front), TextI(pr, front),
                TextItem(pr, EraseItem(i)), ParamsL(ItemParts(i)), TextItem(pr, i));
    }
  }

  lemma {:induction false} CommaFixed(q: seq<string>)
    requires forall c | c in q :: Fixed(c)
    ensures Fixed(Comma(q))
  {
    if |q| > 1 {
      CommaFixed(q[..|q| - 1]);
      assert q[|q| - 1] in q;
    } else if |q| == 1 {
      assert q[0] in q;
    }
  }

  lemma HeadIsFixed(columns: seq<string>, table: string)
    requires (forall c | c in columns :: Fixed(c)) && Fixed(table)
    ensures Fixed(FromHead(columns, table))
  {
    CommaFixed(columns);
  }

  lemma ClauseTakes(pr: Printer, t: string, a: seq<Value>, o: string, keyword: string, e: Option<SqlExpr>)
    requires Takes(pr, t, a, o) && Fixed(keyword) && SpelledL(OptionList(e))
    ensures Takes(pr, Clause(pr, t, keyword, ListOption(EraseL(OptionList(e)))), a + ParamsL(OptionList(e)),
                  Clause(pr, o, keyword, e))
  {
    hide Takes, Pair, SpelledE, TextE, EraseE, ParamsE, ParamsL;
    if e.None? {
      NoneOfList();
      assert a + [] == a;
    } else {
      assert SpelledE(OptionList(e)[0]);
      ParamsOfOne(e.value);
      ExprTakes(pr, e.value);
      TakesPair(pr, "", t, a, o, keyword, TextE(pr, EraseE(e.value)), ParamsE(e.value), TextE(pr, e.value), "");
    }
  }

  lemma FromTakes(pr: Printer, s: Statement)
    requires s.FromTable? && Spelled(s)
    ensures Takes(pr, SqlText(pr, Erase(s)), Params(s), SqlText(pr, s))
  {
    hide Takes, SpelledL, TextE, EraseE, ParamsE, ParamsL, Clause, FromHead, Fixed, EraseL, OptionList, ListOption;
    var head := FromHead(s.columns, s.table);
    HeadIsFixed(s.columns, s.table);
    KeywordsAreFixed();
    HeadTakes(pr, head);
    var where := Clause(pr, head, " WHERE ", ListOption(EraseL(OptionList(s.cond))));
    ClauseTakes(pr, head, [], head, " WHERE ", s.cond);
    ClauseTakes(pr, where, [] + ParamsL(OptionList(s.cond)), Clause(pr, head, " WHERE ", s.cond), " LIMIT ", s.upTo);
    assert [] + ParamsL(OptionList(s.cond)) == ParamsL(OptionList(s.cond));
  }

  lemma HeadTakes(pr: Printer, head: string)
    requires Fixed(head)
    ensures Takes(pr, head, [], head)
  {
    hide Takes;
    FixedText(pr, head);
  }

  lemma KeywordsAreFixed()
    ensures Fixed(" WHERE ") && Fixed(" LIMIT ")
  {
  }

  lemma {:induction false} ErasedGroups(s: Statement)
    ensures Aggregated(Erase(s)) == Aggregated(s)
  {
    hide EraseE, EraseL, EraseI;
    if !s.FromTable? && !s.SelectGroup? {
      ErasedGroups(s.child);
    }
  }

  lemma GroupTakes(pr: Printer, items: seq<Item>, keys: seq<SqlExpr>, t: string, a: seq<Value>, o: string)
    requires SpelledI(items) && SpelledL(keys) && Takes(pr, t, a, o)
    ensures var erased := Pair("SELECT ", Comma(TextI(pr, EraseI(items))), " FROM (", t, ")");
            var body := Pair("SELECT ", Comma(TextI(pr, items)), " FROM (", o, ")");
            Takes(pr, if keys == [] then erased else Pair("", erased, " GROUP BY ", Comma(TextL(pr, EraseL(keys))), ""),
                  ParamsI(items) + (a + ParamsL(keys)),
                  if keys == [] then body else Pair("", body, " GROUP BY ", Comma(TextL(pr, keys)), ""))
  {
    hide Takes, Comma, TextI, TextL, EraseI, EraseL, ParamsI, ParamsL, SpelledI, SpelledL, Pair;
    ItemsTake(pr, items);
    ListTakes(pr, keys);
    TakesPair(pr, "SELECT ", Comma(TextI(pr, EraseI(items))), ParamsI(items), Comma(TextI(pr, items)), " FROM (", t, a, o, ")");
    var erased := Pair("SELECT ", Comma(TextI(pr, EraseI(items))), " FROM (", t, ")");
    var body := Pair("SELECT ", Comma(TextI(pr, items)), " FROM (", o, ")");
    if keys == [] {
      NoneOfList();
      assert a + [] == a;
    } else {
      TakesPair(pr, "", erased, ParamsI(items) + a, body, " GROUP BY ",
                Comma(TextL(pr, EraseL(keys))), ParamsL(keys), Comma(TextL(pr, keys)), "");
      assert ParamsI(items) + a + ParamsL(keys) == ParamsI(items) + (a + ParamsL(keys));
    }
  }

  /** The text with holes takes exactly the statement's values, in text order, and becomes its full text. */
  lemma {:induction false} StatementTakes(pr: Printer, s: Statement)
    requires Spelled(s)
    ensures Takes(pr, SqlText(pr, Erase(s)), Params(s), SqlText(pr, s))
  {
    hide Takes, SpelledE, SpelledL, SpelledI, TextE, EraseE, ParamsE, ParamsL, ParamsI, TextO, TextI, TextL, EraseI, Pair,
         OrderWith, Comma;
    match s {
      case FromTable(_, _, _, _) => FromTakes(pr, s);
      case SelectWhere(child, where) =>
        StatementTakes(pr, child);
        ExprTakes(pr, where);
        TakesPair(pr, "SELECT * FROM (", SqlText(pr, Erase(child)), Params(child), SqlText(pr, child), ") WHERE ",
                  TextE(pr, EraseE(where)), ParamsE(where), TextE(pr, where), "");
      case SelectGroup(items, child, keys) =>
        StatementTakes(pr, child);
        GroupTakes(pr, items, keys, SqlText(pr, Erase(child)), Params(child), SqlText(pr, child));
      case SelectOrder(child, order) =>
        StatementTakes(pr, child);
        ErasedGroups(child);
        OrderTakes(pr, Aggregated(child), order);
        TakesPair(pr, "SELECT * FROM (", SqlText(pr, Erase(child)), Params(child), SqlText(pr, child), ") ORDER BY ",
                  Comma(TextO(pr, Aggregated(child), ErasedOrder(order))), ParamsL(OrderExprs(order)),
                  Comma(TextO(pr, Aggregated(child), order)), "");
      case SelectLimit(child, n) =>
        StatementTakes(pr, child);
        ExprTakes(pr, n);
        TakesPair(pr, "SELECT * FROM (", SqlText(pr, Erase(child)), Params(child), SqlText(pr, child), ") LIMIT ",
                  TextE(pr, EraseE(n)), ParamsE(n), TextE(pr, n), "");
    }
  }

  // ---- Plans and queries ----

  /** Group-by and sort fields and output names hold no "?"; the lexer's identifiers never do. */
  ghost predicate NamesFixed(p: Plan) {
    match p
    case Scan(_, _, _, _, _) => true
    case Aggregate(input, exprs, groupBy) =>
      (forall f | f in groupBy :: Fixed(f)) && (forall e | e in exprs :: Fixed(Alias(e))) && NamesFixed(input)
    case Sort(input, fields) => (forall f | f in fields :: Fixed(f.field)) && NamesFixed(input)
    case _ => NamesFixed(p.input)
  }

  lemma AllowedIsFixed(c: string)
    requires AllowedColumn(c)
    ensures Fixed(c)
  {
  }

  lemma AttrIsSpelled(key: string)
    ensures SpelledE(FullAttr(key)) && SpelledE(ToFloat(FullAttr(key)))
  {
    hide Fixed;
    MapsAreFixed();
    var k := Const(Str(key));
    assert SpelledE(k);
    assert SpelledE(MapGet("span_attributes", k)) && SpelledE(MapGet("resource_attributes", k));
  }

  lemma FieldIsSpelled(name: string)
    ensures SpelledE(FullField(name)) && SpelledE(FullNumeric(name))
  {
    hide Fixed, KnownColumn, AllowedColumn, FullAttr;
    AttrIsSpelled(name);
    KnownIsAllowed(name);
    if KnownColumn(name).Some? {
      AllowedIsFixed(KnownColumn(name).value);
    }
  }

  lemma MapsAreFixed()
    ensures Fixed("span_attributes") && Fixed("resource_attributes") && Fixed("sampling_weight")
  {
  }

  lemma OpIsFixed(op: string)
    requires ComparisonOp(op)
    ensures Fixed(op) && Fixed("=")
  {
  }

  lemma ApplySpelled(op: string, operand: SqlExpr, v: Value)
    requires Fixed(op) && Fixed("=") && SpelledE(operand)
    ensures SpelledE(Apply(op, operand, Const(v)))
  {
    hide Fixed;
    assert SpelledE(Const(v));
  }

  lemma {:induction false} PredIsSpelled(e: Expr, args: seq<Value>)
    requires ExprToSql(e, args).Ok?
    ensures SpelledE(FullPred(e))
  {
    hide Fixed, AllowedColumn, FullAttr, AttrSql;
    if e.Binary? {
      if e.op == "AND" {
        PredIsSpelled(e.left, args);
        PredIsSpelled(e.right, ExprToSql(e.left, args).value.1);
      } else {
        OpIsFixed(e.op);
        if e.left.ColumnRef? {
          AllowedIsFixed(e.left.name);
        } else {
          AttrIsSpelled(e.left.key);
        }
        ApplySpelled(e.op, FullOperand(e.op, e.left), e.right.value);
      }
    }
  }

  lemma AggIsSpelled(e: AggExpr)
    ensures SpelledL(AggParts(FullAgg(e)))
  {
    hide Fixed, FullNumeric;
    FieldIsSpelled(e.field);
    MapsAreFixed();
    assert SpelledE(WEIGHT);
    assert SpelledE(Times(FullNumeric(e.field), WEIGHT));
  }

  lemma GroupIsSpelled(exprs: seq<AggExpr>, groupBy: seq<string>)
    requires (forall f | f in groupBy :: Fixed(f)) && forall e | e in exprs :: Fixed(Alias(e))
    ensures SpelledI(FullFieldItems(groupBy) + FullAggItems(exprs)) && SpelledL(FullFields(groupBy))
  {
    hide Fixed, FullAgg, FullField, Alias, SpelledE, AggParts;
    var a, b := FullFieldItems(groupBy), FullAggItems(exprs);
    forall i | 0 <= i < |groupBy| ensures Fixed(a[i].name) && SpelledL(ItemParts(a[i])) && SpelledE(FullFields(groupBy)[i]) {
      FieldIsSpelled(groupBy[i]);
      assert groupBy[i] in groupBy;
    }
    forall i | 0 <= i < |exprs| ensures Fixed(b[i].name) && SpelledL(ItemParts(b[i])) {
      AggIsSpelled(exprs[i]);
      assert exprs[i] in exprs;
    }
  }

  lemma OrderIsSpelled(fields: seq<SortField>, over: bool)
    requires forall f | f in fields :: Fixed(f.field)
    ensures SpelledL(OrderExprs(FullOrder(fields, over)))
  {
    hide Fixed, FullField;
    var es := OrderExprs(FullOrder(fields, over));
    forall i | 0 <= i < |fields| ensures SpelledE(es[i]) {
      FieldIsSpelled(fields[i].field);
      assert fields[i] in fields;
    }
  }

  lemma ScanIsSpelled(p: Plan)
    requires p.Scan? && CompileScan(p).Ok?
    ensures Spelled(Full(p))
  {
    hide Fixed, AllowedColumn, ExprToSql, FullPred;
    forall c | c in p.columns ensures Fixed(c) {
      AllowedIsFixed(c);
    }
    if p.pred.Some? {
      PredIsSpelled(p.pred.value, []);
    }
    TableIsFixed();
  }

  lemma TableIsFixed()
    ensures Fixed("spans")
  {
  }

  lemma {:induction false} CompiledIsSpelled(p: Plan)
    requires Compile(p).Ok? && NamesFixed(p)
    ensures Spelled(Full(p))
  {
    hide Fixed, FullPred, FullFields, FullFieldItems, FullAggItems, FullOrder, SpelledL, SpelledI, SpelledE, ExprToSql, GroupFields,
         AggItems, OrderSql, CompileScan;
    match p {
      case Scan(_, _, _, _, _) => ScanIsSpelled(p);
      case Project(input, _) => CompiledIsSpelled(input);
      case Filter(input, pred) =>
        CompiledIsSpelled(input);
        if pred.Some? {
          PredIsSpelled(pred.value, Compile(input).value.args);
        }
      case Aggregate(input, exprs, groupBy) =>
        CompiledIsSpelled(input);
        GroupIsSpelled(exprs, groupBy);
      case Sort(input, fields) =>
        CompiledIsSpelled(input);
        OrderIsSpelled(fields, HasAggregate(input));
      case Limit(input, n) =>
        CompiledIsSpelled(input);
        ValueIsSpelled(Int(n));
    }
  }

  lemma ValueIsSpelled(v: Value)
    ensures SpelledE(Const(v))
  {
  }

  /** No group-by text that is written twice holds a placeholder, and no sort field's arguments are thrown away. */
  ghost predicate BoundOnce(p: Plan) {
    match p
    case Scan(_, _, _, _, _) => true
    case Aggregate(input, _, groupBy) => (forall f | f in groupBy :: Known(f)) && BoundOnce(input)
    case Sort(input, fields) => (HasAggregate(input) || forall f | f in fields :: Known(f.field)) && BoundOnce(input)
    case _ => BoundOnce(p.input)
  }

  lemma {:induction false} PlaceholderCount(p: Plan)
    ensures |Bound(p)| <= |Params(Full(p))|
    ensures |Bound(p)| == |Params(Full(p))| <==> BoundOnce(p)
  {
    hide Known, FullPred, FullFields, FullFieldItems, FullAggItems, FullOrder, ParamsL, ParamsI, OrderExprs;
    match p {
      case Scan(_, _, _, _, _) =>
      case Aggregate(input, exprs, groupBy) =>
        PlaceholderCount(input);
        FieldParams(groupBy);
      case Sort(input, fields) =>
        PlaceholderCount(input);
        OrderParams(fields, HasAggregate(input));
      case Limit(input, n) =>
        PlaceholderCount(input);
        assert ParamsE(Const(Int(n))) == [Int(n)];
      case _ => PlaceholderCount(p.input);
    }
  }

  /** EXPLAIN of a compiled plan fails exactly when a repeated or discarded text needed arguments; otherwise it uses them all. */
  lemma ExplainFailsExactly(pr: Printer, p: Plan)
    requires Compile(p).Ok? && NamesFixed(p)
    ensures var c := Compile(p).value;
            && (Inline(pr, SqlText(pr, c.sql), c.args).Some? <==> BoundOnce(p))
            && (Inline(pr, SqlText(pr, c.sql), c.args).Some? ==> Marks(SqlText(pr, c.sql)) == |c.args|)
  {
    hide Compile, NamesFixed, Full, Bound, Params, Erase, SqlText, Inline, Marks, BoundOnce, Spelled;
    CompileIsFull(p);
    CompiledIsSpelled(p);
    StatementTakes(pr, Full(p));
    PlaceholderCount(p);
    FailsForWantOfArguments(pr, SqlText(pr, Erase(Full(p))), Bound(p));
  }

  /** With arguments in text order, EXPLAIN shows the statement with every literal in its own place. */
  lemma ExplainShowsStatement(pr: Printer, p: Plan)
    requires Compile(p).Ok? && NamesFixed(p) && Aligned(p)
    ensures var c := Compile(p).value; Takes(pr, SqlText(pr, c.sql), c.args, SqlText(pr, Full(p)))
  {
    hide Compile, NamesFixed, Full, Bound, Params, Erase, SqlText, Takes, Spelled;
    CompileIsFull(p);
    CompiledIsSpelled(p);
    StatementTakes(pr, Full(p));
  }

  ghost predicate PartNamesFixed(parts: Parts)
    requires PartsTyped(parts)
  {
    && (parts.agg.Some? ==>
          && (forall f | f in parts.agg.value.groupBy :: Fixed(f))
          && forall e | e in parts.agg.value.exprs :: Fixed(Alias(e)))
    && (parts.sort.Some? ==> forall f | f in parts.sort.value.fields :: Fixed(f.field))
  }

  lemma StackNamesFixed(b: Base, parts: Parts)
    requires PartsTyped(parts) && PartNamesFixed(parts)
    ensures NamesFixed(Stack(Bottom(b), parts))
  {
    hide Fixed, Alias;
    var scan := Scan("spans", b.range, b.scanPred, b.columns, b.limit);
    assert NamesFixed(Filter(scan, b.filterPred));
    assert NamesFixed(Bottom(b));
    assert NamesFixed(Grouped(Bottom(b), parts));
    assert NamesFixed(Sorted(Bottom(b), parts));
  }

  /** From query to EXPLAIN: over known columns the explained text is the executed statement's, argument by argument. */
  lemma ExplainedQuery(env: Env, pr: Printer, q: SelectQuery, skip: set<string>)
    requires KnownFields(q) && PartNamesFixed(QueryParts(q))
    requires Compile(OptimizeExcept(env, Build(q), skip)).Ok?
    ensures var p := OptimizeExcept(env, Build(q), skip);
            var c := Compile(p).value;
            Takes(pr, SqlText(pr, c.sql), c.args, SqlText(pr, Full(p)))
  {
    hide Compile, Build, OptimizeExcept, Stack, Bottom, Optimized, Full, Bound, Params, Erase, QueryParts,
         QueryBase, KnownParts, Takes, SqlText, NamesFixed, PartNamesFixed;
    var p := OptimizeExcept(env, Build(q), skip);
    BuildShape(q);
    OptimizedShape(env, QueryBase(q), QueryParts(q), skip);
    StackNamesFixed(Optimized(env, QueryBase(q), QueryParts(q), skip), QueryParts(q));
    AlignedExactly(env, q, skip);
    CompileIsFull(p);
    ExplainShowsStatement(pr, p);
  }
}
