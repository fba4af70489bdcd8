// A reader for the SQL the planner emits. It knows the keywords, operators, function names, quantile levels, sort
// directions and brackets of that SQL, and nothing of the writer.
module SqlReader {
  import opened Expressions
  import opened Options
  import opened Sql

  /** What was read and what is left of the text. */
  datatype Read<+T> = Yes(value: T, rest: string) | No

  /** What follows the word, if the text begins with it. */
  function Past(t: string, word: string): (rest: Option<string>)
    ensures rest.Some? ==> |t| == |word| + |rest.value|
  {
    if word <= t then Some(t[|word|..]) else None
  }

  predicate NameChar(c: char) {
    'a' <= c <= 'z' || '0' <= c <= '9' || c == '_'
  }

  function NameRun(t: string): (n: nat)
    ensures n <= |t|
  {
    if t == "" || !NameChar(t[0]) then 0 else 1 + NameRun(t[1..])
  }

  /** A column or table name: lower case, not starting with a digit. */
  function ReadName(t: string): (r: Read<string>)
    ensures r.Yes? ==> |r.rest| < |t|
  {
    if t != "" && ('a' <= t[0] <= 'z' || t[0] == '_') then Yes(t[..NameRun(t)], t[NameRun(t)..]) else No
  }

  /** A name up to the closing backtick. */
  function ReadQuoted(t: string): (r: Read<string>)
    ensures r.Yes? ==> |r.rest| < |t|
  {
    if t == "" then No
    else if t[0] == '`' then Yes("", t[1..])
    else
      match ReadQuoted(t[1..])
      case No => No
      case Yes(name, rest) => Yes([t[0]] + name, rest)
  }

  // ---- Expressions ----

  function ReadOperand(t: string): (r: Read<SqlExpr>)
    ensures r.Yes? ==> |r.rest| < |t|
    decreases |t|, 0
  {
    if Past(t, "?").Some? then Yes(Hole, Past(t, "?").value)
    else if Past(t, "toFloat64OrNull(").Some? then
      match ReadOperand(Past(t, "toFloat64OrNull(").value)
      case No => No
      case Yes(a, rest) =>
        match Past(rest, ")")
        case None => No
        case Some(more) => Yes(ToFloat(a), more)
    else if Past(t, "coalesce(").Some? then
      match ReadTwo(Past(t, "coalesce(").value)
      case No => No
      case Yes((a, b), rest) => Yes(Coalesce(a, b), rest)
    else
      match ReadName(t)
      case No => No
      case Yes(name, rest) =>
        if Past(rest, "[").None? then Yes(Col(name), rest)
        else
          match ReadOperand(Past(rest, "[").value)
          case No => No
          case Yes(key, more) =>
            match Past(more, "]")
            case None => No
            case Some(end) => Yes(MapGet(name, key), end)
  }

  /** Two operands, a comma between them and a bracket behind. */
  function ReadTwo(t: string): (r: Read<(SqlExpr, SqlExpr)>)
    ensures r.Yes? ==> |r.rest| < |t|
    decreases |t|, 1
  {
    match ReadOperand(t)
    case No => No
    case Yes(a, rest) =>
      match Past(rest, ", ")
      case None => No
      case Some(u) =>
        match ReadOperand(u)
        case No => No
        case Yes(b, more) =>
          match Past(more, ")")
          case None => No
          case Some(end) => Yes((a, b), end)
  }

  function ReadOp(t: string): (r: Read<string>)
    ensures r.Yes? ==> |r.rest| < |t|
  {
    if Past(t, " = ").Some? then Yes("=", Past(t, " = ").value)
    else if Past(t, " != ").Some? then Yes("!=", Past(t, " != ").value)
    else if Past(t, " > ").Some? then Yes(">", Past(t, " > ").value)
    else if Past(t, " >= ").Some? then Yes(">=", Past(t, " >= ").value)
    else if Past(t, " < ").Some? then Yes("<", Past(t, " < ").value)
    else if Past(t, " <= ").Some? then Yes("<=", Past(t, " <= ").value)
    else No
  }

  /** An operand alone, or compared with another. */
  function ReadComparison(t: string): (r: Read<SqlExpr>)
    ensures r.Yes? ==> |r.rest| < |t|
  {
    match ReadOperand(t)
    case No => No
    case Yes(a, rest) =>
      match ReadOp(rest)
      case No => Yes(a, rest)
      case Yes(op, u) =>
        match ReadOperand(u)
        case No => No
        case Yes(b, more) => Yes(Cmp(op, a, b), more)
  }

  function ReadCondition(t: string): (r: Read<SqlExpr>)
    ensures r.Yes? ==> |r.rest| < |t|
    decreases |t|
  {
    if Past(t, "(").Some? then
      match ReadCondition(Past(t, "(").value)
      case No => No
      case Yes(a, rest) =>
        match Past(rest, " AND ")
        case None => No
        case Some(u) =>
          match ReadCondition(u)
          case No => No
          case Yes(b, more) =>
            match Past(more, ")")
            case None => No
            case Some(end) => Yes(Both(a, b), end)
    else if Past(t, "NOT match(").Some? then
      match ReadTwo(Past(t, "NOT match(").value)
      case No => No
      case Yes((a, b), rest) => Yes(NotMatch(a, b), rest)
    else if Past(t, "match(").Some? then
      match ReadTwo(Past(t, "match(").value)
      case No => No
      case Yes((a, b), rest) => Yes(Match(a, b), rest)
    else if Past(t, "1").Some? then Yes(Flag(true), Past(t, "1").value)
    else if Past(t, "0").Some? then Yes(Flag(false), Past(t, "0").value)
    else ReadComparison(t)
  }

  // ---- Aggregates ----

  /** An operand, or the product of two. */
  function ReadProduct(t: string): (r: Read<SqlExpr>)
    ensures r.Yes? ==> |r.rest| < |t|
  {
    match ReadOperand(t)
    case No => No
    case Yes(a, rest) =>
      match Past(rest, " * ")
      case None => Yes(a, rest)
      case Some(u) =>
        match ReadOperand(u)
        case No => No
        case Yes(b, more) => Yes(Times(a, b), more)
  }

  /** From behind "sum(": a sum, or the quotient of two. */
  function ReadSums(t: string): (r: Read<SqlAgg>)
    ensures r.Yes? ==> |r.rest| < |t|
  {
    match ReadProduct(t)
    case No => No
    case Yes(a, rest) =>
      match Past(rest, ")")
      case None => No
      case Some(u) =>
        match Past(u, " / sum(")
        case None => Yes(SumOf(a), u)
        case Some(v) =>
          match ReadProduct(v)
          case No => No
          case Yes(b, more) =>
            match Past(more, ")")
            case None => No
            case Some(end) => Yes(SumOverSum(a, b), end)
  }

  /** From behind the level: value and rounded weight. */
  function ReadQuantile(level: real, t: string): (r: Read<SqlAgg>)
    ensures r.Yes? ==> |r.rest| < |t|
  {
    match ReadOperand(t)
    case No => No
    case Yes(a, rest) =>
      match Past(rest, ", toUInt64(round(")
      case None => No
      case Some(u) =>
        match ReadOperand(u)
        case No => No
        case Yes(b, more) =>
          match Past(more, ")))")
          case None => No
          case Some(end) => Yes(QuantileTDigestWeighted(level, a, b), end)
  }

  function ReadBracketed(t: string): (r: Read<SqlExpr>)
    ensures r.Yes? ==> |r.rest| < |t|
  {
    match ReadOperand(t)
    case No => No
    case Yes(a, rest) =>
      match Past(rest, ")")
      case None => No
      case Some(end) => Yes(a, end)
  }

  function ReadAggregate(t: string): (r: Read<SqlAgg>)
    ensures r.Yes? ==> |r.rest| < |t|
  {
    if Past(t, "sum(").Some? then ReadSums(Past(t, "sum(").value)
    else if Past(t, "min(").Some? then
      match ReadBracketed(Past(t, "min(").value)
      case No => No
      case Yes(a, rest) => Yes(MinOf(a), rest)
    else if Past(t, "max(").Some? then
      match ReadBracketed(Past(t, "max(").value)
      case No => No
      case Yes(a, rest) => Yes(MaxOf(a), rest)
    else if Past(t, "quantileTDigestWeighted(0.5)(").Some? then
      ReadQuantile(0.5, Past(t, "quantileTDigestWeighted(0.5)(").value)
    else if Past(t, "quantileTDigestWeighted(0.95)(").Some? then
      ReadQuantile(0.95, Past(t, "quantileTDigestWeighted(0.95)(").value)
    else if Past(t, "quantileTDigestWeighted(0.99)(").Some? then
      ReadQuantile(0.99, Past(t, "quantileTDigestWeighted(0.99)(").value)
    else No
  }

  function ReadAlias(t: string): (r: Read<string>)
    ensures r.Yes? ==> |r.rest| < |t|
  {
    match Past(t, " AS `")
    case None => No
    case Some(u) => ReadQuoted(u)
  }

  /** An aggregate or an operand under its output name. */
  function ReadItem(t: string): (r: Read<Item>)
    ensures r.Yes? ==> |r.rest| < |t|
  {
    match ReadAggregate(t)
    case Yes(g, rest) =>
      (match ReadAlias(rest)
       case No => No
       case Yes(name, more) => Yes(ItemAgg(g, name), more))
    case No =>
      match ReadOperand(t)
      case No => No
      case Yes(e, rest) =>
        match ReadAlias(rest)
        case No => No
        case Yes(name, more) => Yes(ItemExpr(e, name), more)
  }

  /** An output name in backticks or an operand, and its direction: true descends. */
  function ReadOrder(t: string): (r: Read<(SqlExpr, bool)>)
    ensures r.Yes? ==> |r.rest| < |t|
  {
    var field := match Past(t, "`")
                 case None => ReadOperand(t)
                 case Some(u) =>
                   match ReadQuoted(u)
                   case No => No
                   case Yes(name, rest) => Yes(Col(name), rest);
    match field
    case No => No
    case Yes(e, rest) =>
      if Past(rest, " ASC").Some? then Yes((e, false), Past(rest, " ASC").value)
      else if Past(rest, " DESC").Some? then Yes((e, true), Past(rest, " DESC").value)
      else No
  }

  /** As many items, with commas between, as there are. */
  function ReadList<T>(item: string -> Read<T>, t: string): (r: (seq<T>, string))
    ensures |r.1| <= |t|
    decreases |t|
  {
    match item(t)
    case No => ([], t)
    case Yes(x, rest) =>
      if |rest| >= |t| then ([], t)
      else
        match Past(rest, ", ")
        case None => ([x], rest)
        case Some(u) => var more := ReadList(item, u); ([x] + more.0, more.1)
  }

  // ---- Statements ----

  function ReadUpTo(columns: seq<string>, table: string, cond: Option<SqlExpr>, t: string): (r: Read<Statement>)
    ensures r.Yes? ==> |r.rest| <= |t|
  {
    match Past(t, " LIMIT ")
    case None => Yes(FromTable(columns, table, cond, None), t)
    case Some(u) =>
      match ReadOperand(u)
      case No => No
      case Yes(n, rest) => Yes(FromTable(columns, table, cond, Some(n)), rest)
  }

  /** From the table's name on. */
  function ReadTable(columns: seq<string>, t: string): (r: Read<Statement>)
    ensures r.Yes? ==> |r.rest| < |t|
  {
    match ReadName(t)
    case No => No
    case Yes(table, rest) =>
      match Past(rest, " WHERE ")
      case None => ReadUpTo(columns, table, None, rest)
      case Some(u) =>
        match ReadCondition(u)
        case No => No
        case Yes(cond, more) => ReadUpTo(columns, table, Some(cond), more)
  }

  /** What is done to a subquery taken whole. */
  function ReadAround(child: Statement, t: string): (r: Read<Statement>)
    ensures r.Yes? ==> |r.rest| <= |t|
  {
    if Past(t, " WHERE ").Some? then
      match ReadCondition(Past(t, " WHERE ").value)
      case No => No
      case Yes(cond, rest) => Yes(SelectWhere(child, cond), rest)
    else if Past(t, " ORDER BY ").Some? then
      var (order, rest) := ReadList(ReadOrder, Past(t, " ORDER BY ").value);
      Yes(SelectOrder(child, order), rest)
    else if Past(t, " LIMIT ").Some? then
      match ReadOperand(Past(t, " LIMIT ").value)
      case No => No
      case Yes(n, rest) => Yes(SelectLimit(child, n), rest)
    else No
  }

  function ReadKeys(items: seq<Item>, child: Statement, t: string): (r: Read<Statement>)
    ensures r.Yes? ==> |r.rest| <= |t|
  {
    match Past(t, " GROUP BY ")
    case None => Yes(SelectGroup(items, child, []), t)
    case Some(u) =>
      var (keys, rest) := ReadList(ReadOperand, u);
      Yes(SelectGroup(items, child, keys), rest)
  }

  function ReadColumns(t: string): (r: Read<Statement>)
    ensures r.Yes? ==> |r.rest| <= |t|
  {
    var (columns, rest) := ReadList(ReadName, t);
    match Past(rest, " FROM tracelens.")
    case None => No
    case Some(u) => ReadTable(columns, u)
  }

  function ReadStatement(t: string): (r: Read<Statement>)
    ensures r.Yes? ==> |r.rest| < |t|
    decreases |t|, 1
  {
    match Past(t, "SELECT ")
    case None => No
    case Some(u) =>
      if Past(u, "* FROM (").Some? then
        match ReadSubquery(Past(u, "* FROM (").value)
        case No => No
        case Yes(child, rest) => ReadAround(child, rest)
      else if Past(u, "* FROM tracelens.").Some? then ReadTable([], Past(u, "* FROM tracelens.").value)
      else
        var (items, rest) := ReadList(ReadItem, u);
        if Past(rest, " FROM (").None? then ReadColumns(u)
        else
          match ReadSubquery(Past(rest, " FROM (").value)
          case No => No
          case Yes(child, more) => ReadKeys(items, child, more)
  }

  function ReadSubquery(t: string): (r: Read<Statement>)
    ensures r.Yes? ==> |r.rest| < |t|
    decreases |t|, 2
  {
    match ReadStatement(t)
    case No => No
    case Yes(s, rest) =>
      match Past(rest, ")")
      case None => No
      case Some(end) => Yes(s, end)
  }

  /** The statement a text is, read to its end. */
  function StatementOf(text: string): Option<Statement> {
    match ReadStatement(text)
    case No => None
    case Yes(s, rest) => if rest == "" then Some(s) else None
  }
}
