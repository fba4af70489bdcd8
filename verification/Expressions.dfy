/** Predicate expressions of the query planner, how Go prints them, and which rows they keep. */
module Expressions {
  import opened Options

  /** A literal or bound value: string, float64, bool, time.Time or int64. */
  datatype Value = Str(s: string) | Num(n: real) | Bool(b: bool) | Time(t: int) | Int(i: int)

  datatype Expr =
    | ColumnRef(name: string)
    | AttrRef(key: string)
    | Literal(value: Value)
    | Binary(op: string, left: Expr, right: Expr)

  // What the planner does not decide: float and time formatting, numeric parsing, regular expressions,
  // rounding a weight to an unsigned integer, quantiles by such weights, and which of two sort keys (value, descending) comes first.
  datatype Env = Env(
    floatG: real -> string,
    floatV: real -> string,
    timeV: int -> string,
    parse: string -> Option<real>,
    matches: (string, string) -> bool,
    unsigned: real -> nat,
    quantile: (real, seq<(real, nat)>) -> real,
    before: (seq<(Option<Cell>, bool)>, seq<(Option<Cell>, bool)>) -> bool)

  // ---- Printing ----

  function BoolText(b: bool): string {
    if b then "true" else "false"
  }

  /** fmt's %v. */
  function ShowValue(env: Env, v: Value): string {
    match v
    case Str(s) => s
    case Num(n) => env.floatV(n)
    case Bool(b) => BoolText(b)
    case Time(t) => env.timeV(t)
    case Int(i) => env.floatV(i as real)
  }

  function Show(env: Env, e: Expr): string {
    match e
    case ColumnRef(name) => name
    case AttrRef(key) => "attr(" + key + ")"
    case Literal(v) => ShowValue(env, v)
    case Binary(op, l, r) => "(" + Show(env, l) + " " + op + " " + Show(env, r) + ")"
  }

  /** The planner's key for "the same literal". */
  function ValueString(env: Env, v: Value): string {
    match v
    case Str(s) => s
    case Num(n) => env.floatG(n)
    case Bool(b) => BoolText(b)
    case _ => ""
  }

  // ---- Rows ----

  datatype Cell = Cell(text: string, num: Option<real>)

  datatype Datum = Scalar(cell: Cell) | Attrs(m: map<string, string>)

  type Row = map<string, Datum>

  function ColumnCell(row: Row, name: string): Option<Cell> {
    if name in row && row[name].Scalar? then Some(row[name].cell) else None
  }

  function AttrIn(row: Row, column: string, key: string): Option<string> {
    if column in row && row[column].Attrs? && key in row[column].m then Some(row[column].m[key]) else None
  }

  /** The span attribute, falling back to the resource attribute. */
  function AttrText(row: Row, key: string): Option<string> {
    var own := AttrIn(row, "span_attributes", key);
    if own.Some? then own else AttrIn(row, "resource_attributes", key)
  }

  function Operand(env: Env, row: Row, e: Expr): Option<Cell> {
    match e
    case ColumnRef(name) => ColumnCell(row, name)
    case AttrRef(key) =>
      var text := AttrText(row, key);
      if text.Some? then Some(Cell(text.value, env.parse(text.value))) else None
    case _ => None
  }

  // ---- Which rows a predicate keeps ----

  predicate RangeOp(op: string) {
    op == ">" || op == ">=" || op == "<" || op == "<="
  }

  function NumberOf(v: Value): Option<real> {
    match v
    case Num(n) => Some(n)
    case Time(t) => Some(t as real)
    case Int(i) => Some(i as real)
    case _ => None
  }

  predicate Compare(op: string, a: real, b: real) {
    if op == ">" then a > b
    else if op == ">=" then a >= b
    else if op == "<" then a < b
    else op == "<=" && a <= b
  }

  /** A present operand against a literal; a row whose operand is missing is never kept. */
  predicate CellHolds(env: Env, op: string, c: Cell, v: Value) {
    if op == "=" || op == "==" then c.text == ValueString(env, v)
    else if op == "!=" then c.text != ValueString(env, v)
    else if op == "=~" then env.matches(c.text, ValueString(env, v))
    else if op == "!~" then !env.matches(c.text, ValueString(env, v))
    else RangeOp(op) && c.num.Some? && NumberOf(v).Some? && Compare(op, c.num.value, NumberOf(v).value)
  }

  predicate Truthy(v: Value) {
    match v
    case Bool(b) => b
    case Num(n) => n != 0.0
    case Int(i) => i != 0
    case _ => false
  }

  predicate Holds(env: Env, row: Row, e: Expr) {
    match e
    case Literal(v) => Truthy(v)
    case Binary(op, l, r) =>
      if op == "AND" then Holds(env, row, l) && Holds(env, row, r)
      else r.Literal? && Operand(env, row, l).Some? && CellHolds(env, op, Operand(env, row, l).value, r.value)
    case _ => false
  }

  /** A nil predicate keeps every row. */
  predicate Keeps(env: Env, row: Row, e: Option<Expr>) {
    e.Some? ==> Holds(env, row, e.value)
  }

  ghost predicate AllHold(env: Env, row: Row, terms: seq<Expr>) {
    forall t | t in terms :: Holds(env, row, t)
  }

  // ---- AND chains ----

  predicate IsAnd(e: Expr) {
    e.Binary? && e.op == "AND"
  }

  function AndTwo(a: Option<Expr>, b: Option<Expr>): Option<Expr> {
    match (a, b)
    case (None, _) => b
    case (_, None) => a
    case (Some(x), Some(y)) => Some(Binary("AND", x, y))
  }

  /** Left-associative AND of the terms, nils skipped, nil when nothing is left. */
  function AndAll(terms: seq<Option<Expr>>): Option<Expr> {
    if terms == [] then None else AndTwo(AndAll(terms[..|terms| - 1]), terms[|terms| - 1])
  }

  function Somes(terms: seq<Expr>): seq<Option<Expr>> {
    seq(|terms|, i requires 0 <= i < |terms| => Some(terms[i]))
  }

  method AndAllLoop(terms: seq<Option<Expr>>) returns (out: Option<Expr>)
    ensures out == AndAll(terms)
  {
    out := None;
    for i := 0 to |terms|
      invariant out == AndAll(terms[..i])
    {
      assert terms[..i + 1][..i] == terms[..i];
      if terms[i].Some? {
        if out.None? {
          out := terms[i];
        } else {
          out := Some(Binary("AND", out.value, terms[i].value));
        }
      }
    }
    assert terms[..|terms|] == terms;
  }

  function FlattenAnd(e: Expr): seq<Expr> {
    if IsAnd(e) then FlattenAnd(e.left) + FlattenAnd(e.right) else [e]
  }

  function Flatten(e: Option<Expr>): seq<Expr> {
    if e.Some? then FlattenAnd(e.value) else []
  }

  lemma AllHoldConcat(env: Env, row: Row, a: seq<Expr>, b: seq<Expr>)
    ensures AllHold(env, row, a + b) <==> AllHold(env, row, a) && AllHold(env, row, b)
  {
    assert forall t | t in a :: t in a + b;
    assert forall t | t in b :: t in a + b;
  }

  lemma AllHoldPlus(env: Env, row: Row, a: seq<Expr>, t: Expr)
    ensures AllHold(env, row, a + [t]) <==> AllHold(env, row, a) && Holds(env, row, t)
    ensures AllHold(env, row, [t] + a) <==> AllHold(env, row, a) && Holds(env, row, t)
  {
    assert t in [t];
    AllHoldConcat(env, row, a, [t]);
    AllHoldConcat(env, row, [t], a);
  }

  /** A flattened chain keeps exactly the rows the chain keeps. */
  lemma {:induction false} FlattenKeeps(env: Env, row: Row, e: Expr)
    ensures AllHold(env, row, FlattenAnd(e)) <==> Holds(env, row, e)
  {
    if IsAnd(e) {
      FlattenKeeps(env, row, e.left);
      FlattenKeeps(env, row, e.right);
      AllHoldConcat(env, row, FlattenAnd(e.left), FlattenAnd(e.right));
    } else {
      assert e in [e];
    }
  }

  lemma AndTwoKeeps(env: Env, row: Row, a: Option<Expr>, b: Option<Expr>)
    ensures Keeps(env, row, AndTwo(a, b)) <==> Keeps(env, row, a) && Keeps(env, row, b)
  {
  }

  lemma {:induction false} AndAllKeeps(env: Env, row: Row, terms: seq<Option<Expr>>)
    ensures Keeps(env, row, AndAll(terms)) <==> forall t | t in terms :: Keeps(env, row, t)
  {
    if terms != [] {
      var n := |terms| - 1;
      AndAllKeeps(env, row, terms[..n]);
      assert forall t :: t in terms <==> t in terms[..n] || t == terms[n];
      AndTwoKeeps(env, row, AndAll(terms[..n]), terms[n]);
    }
  }

  /** AND-ing a list keeps exactly the rows every member keeps. */
  lemma AndOfKeeps(env: Env, row: Row, terms: seq<Expr>)
    ensures Keeps(env, row, AndAll(Somes(terms))) <==> AllHold(env, row, terms)
  {
    AndAllKeeps(env, row, Somes(terms));
    forall t ensures t in terms <==> Some(t) in Somes(terms) {
      if t in terms {
        var i :| 0 <= i < |terms| && terms[i] == t;
        assert Somes(terms)[i] == Some(t);
      }
    }
    assert forall o | o in Somes(terms) :: o.Some? && o.value in terms;
  }

  /** Flattening undoes AND-ing. */
  lemma {:induction false} FlattenAndAll(terms: seq<Expr>)
    requires forall t | t in terms :: !IsAnd(t)
    ensures Flatten(AndAll(Somes(terms))) == terms
    ensures terms != [] ==> AndAll(Somes(terms)).Some?
  {
    if terms != [] {
      var n := |terms| - 1;
      assert Somes(terms)[..n] == Somes(terms[..n]);
      FlattenAndAll(terms[..n]);
      assert terms == terms[..n] + [terms[n]];
      assert FlattenAnd(terms[n]) == [terms[n]];
    }
  }
}
