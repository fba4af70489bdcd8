/** Reading the text of a compiled statement gives the statement back. */
module SqlTextBack {
  import opened Expressions
  import opened Options
  import opened Plans
  import opened Passes
  import opened Sql
  import opened PhysicalPlanner
  import opened ExplainText
  import opened SqlReader

  // ---- Words ----

  lemma PastOwn(word: string, rest: string)
    ensures Past(word + rest, word) == Some(rest)
  {
    assert (word + rest)[|word|..] == rest;
  }

  lemma PastOther(t: string, word: string, i: nat)
    requires i < |word| && (i >= |t| || t[i] != word[i])
    ensures Past(t, word) == None
  {
  }

  lemma Wrapped(open: string, t: string, close: string, rest: string)
    ensures Wrap(open, t, close) + rest == open + (t + (close + rest))
  {
    assert (t + close) + rest == t + (close + rest);
    assert (open + (t + close)) + rest == open + ((t + close) + rest);
  }

  lemma Paired(open: string, t: string, mid: string, u: string, close: string, rest: string)
    ensures Pair(open, t, mid, u, close) + rest == open + (t + (mid + (u + (close + rest))))
  {
    Wrapped(mid, u, close, rest);
    Wrapped(open, t, mid + (u + close), rest);
  }

  lemma NothingFirst(t: string)
    ensures "" + t == t
  {
  }

  // ---- Names ----

  ghost predicate IsColumn(name: string) {
    name != "" && ('a' <= name[0] <= 'z' || name[0] == '_') && forall i | 0 <= i < |name| :: NameChar(name[i])
  }

  ghost predicate WordChar(c: char) {
    NameChar(c) || 'A' <= c <= 'Z'
  }

  /** No name, bracket or key goes on here. */
  ghost predicate Stops(rest: string) {
    rest == "" || (!WordChar(rest[0]) && rest[0] != '[' && rest[0] != '(')
  }

  ghost predicate NameEnds(rest: string) {
    rest == "" || !NameChar(rest[0])
  }

  lemma {:induction false} RunIsName(name: string, rest: string)
    requires (forall i | 0 <= i < |name| :: NameChar(name[i])) && NameEnds(rest)
    ensures NameRun(name + rest) == |name|
  {
    if name == "" {
      assert name + rest == rest;
    } else {
      assert (name + rest)[1..] == name[1..] + rest && (name + rest)[0] == name[0];
      assert forall i | 0 <= i < |name[1..]| :: name[1..][i] == name[i + 1];
      RunIsName(name[1..], rest);
    }
  }

  lemma NameBack(name: string, rest: string)
    requires IsColumn(name) && NameEnds(rest)
    ensures ReadName(name + rest) == Yes(name, rest)
  {
    RunIsName(name, rest);
    assert (name + rest)[0] == name[0] && (name + rest)[..|name|] == name && (name + rest)[|name|..] == rest;
  }

  /** A function's name and its bracket. */
  ghost predicate IsCall(word: string) {
    |word| > 1 && word[|word| - 1] == '(' && forall i | 0 <= i < |word| - 1 :: WordChar(word[i])
  }

  /** A name that no bracket follows is no call. */
  lemma NameIsNoCall(name: string, rest: string, word: string)
    requires IsColumn(name) && IsCall(word) && (rest == "" || (!WordChar(rest[0]) && rest[0] != '('))
    ensures Past(name + rest, word) == None
  {
    var t := name + rest;
    if |name| >= |word| {
      assert t[|word| - 1] == name[|word| - 1];
      PastOther(t, word, |word| - 1);
    } else if rest != "" {
      assert t[|name|] == rest[0];
      PastOther(t, word, |name|);
    }
  }

  // ---- Operands ----

  ghost predicate OperandFine(e: SqlExpr) {
    match e
    case Col(name) => IsColumn(name)
    case Hole => true
    case MapGet(column, key) => IsColumn(column) && OperandFine(key)
    case Coalesce(a, b) => OperandFine(a) && OperandFine(b)
    case ToFloat(a) => OperandFine(a)
    case _ => false
  }

  lemma TwoBack(pr: Printer, a: SqlExpr, b: SqlExpr, rest: string)
    requires OperandFine(a) && OperandFine(b)
    requires ReadOperand(TextE(pr, a) + (", " + (TextE(pr, b) + (")" + rest)))) == Yes(a, ", " + (TextE(pr, b) + (")" + rest)))
    requires ReadOperand(TextE(pr, b) + (")" + rest)) == Yes(b, ")" + rest)
    ensures ReadTwo(TextE(pr, a) + (", " + (TextE(pr, b) + (")" + rest)))) == Yes((a, b), rest)
  {
    hide ReadOperand, TextE, Past, OperandFine;
    PastOwn(", ", TextE(pr, b) + (")" + rest));
    PastOwn(")", rest);
  }

  lemma ColumnBack(name: string, rest: string)
    requires IsColumn(name) && NameEnds(rest) && (rest == "" || (!WordChar(rest[0]) && rest[0] != '('))
    ensures var t := name + rest;
            && Past(t, "?") == None && Past(t, "toFloat64OrNull(") == None && Past(t, "coalesce(") == None
            && ReadName(t) == Yes(name, rest)
  {
    hide Past;
    var t := name + rest;
    assert t[0] == name[0];
    PastOther(t, "?", 0);
    NameIsNoCall(name, rest, "toFloat64OrNull(");
    NameIsNoCall(name, rest, "coalesce(");
    NameBack(name, rest);
  }

  lemma {:induction false} OperandBack(pr: Printer, e: SqlExpr, rest: string)
    requires OperandFine(e) && Stops(rest)
    ensures ReadOperand(TextE(pr, e) + rest) == Yes(e, rest)
    decreases e
  {
    hide Past, Wrap, Pair, ReadName, ReadTwo;
    match e {
      case Hole => PastOwn("?", rest);
      case Col(name) =>
        ColumnBack(name, rest);
        NoKey(rest);
      case MapGet(column, key) =>
        var inner := TextE(pr, key) + ("]" + rest);
        Wrapped(column + "[", TextE(pr, key), "]", rest);
        assert (column + "[") + inner == column + ("[" + inner);
        ColumnBack(column, "[" + inner);
        PastOwn("[", inner);
        OperandBack(pr, key, "]" + rest);
        PastOwn("]", rest);
      case Coalesce(a, b) =>
        var inner := TextE(pr, a) + (", " + (TextE(pr, b) + (")" + rest)));
        Paired("coalesce(", TextE(pr, a), ", ", TextE(pr, b), ")", rest);
        var t := "coalesce(" + inner;
        PastOther(t, "?", 0);
        PastOther(t, "toFloat64OrNull(", 0);
        PastOwn("coalesce(", inner);
        OperandBack(pr, a, ", " + (TextE(pr, b) + (")" + rest)));
        OperandBack(pr, b, ")" + rest);
        TwoBack(pr, a, b, rest);
      case ToFloat(a) =>
        var inner := TextE(pr, a) + (")" + rest);
        Wrapped("toFloat64OrNull(", TextE(pr, a), ")", rest);
        PastOther("toFloat64OrNull(" + inner, "?", 0);
        PastOwn("toFloat64OrNull(", inner);
        OperandBack(pr, a, ")" + rest);
        PastOwn(")", rest);
    }
  }

  lemma NoKey(rest: string)
    requires Stops(rest)
    ensures Past(rest, "[") == None
  {
    PastOther(rest, "[", 0);
  }

  /** What an operand's text begins with. */
  lemma OperandLead(pr: Printer, e: SqlExpr, rest: string)
    requires OperandFine(e)
    ensures var t := TextE(pr, e) + rest; t != "" && (t[0] == '?' || t[0] == '_' || 'a' <= t[0] <= 'z')
  {
    hide Past;
    match e {
      case MapGet(column, key) => Wrapped(column + "[", TextE(pr, key), "]", rest);
      case Coalesce(a, b) => Paired("coalesce(", TextE(pr, a), ", ", TextE(pr, b), ")", rest);
      case ToFloat(a) => Wrapped("toFloat64OrNull(", TextE(pr, a), ")", rest);
      case _ =>
    }
  }

  /** No operand begins with another function's call. */
  lemma OperandIsNoCall(pr: Printer, e: SqlExpr, rest: string, word: string)
    requires OperandFine(e) && Stops(rest) && IsCall(word) && word[0] != 't' && word[0] != 'c'
    ensures Past(TextE(pr, e) + rest, word) == None
  {
    hide Past;
    var t := TextE(pr, e) + rest;
    match e {
      case Hole => PastOther(t, word, 0);
      case Col(name) => NameIsNoCall(name, rest, word);
      case MapGet(column, key) =>
        Wrapped(column + "[", TextE(pr, key), "]", rest);
        var inner := TextE(pr, key) + ("]" + rest);
        assert (column + "[") + inner == column + ("[" + inner);
        NameIsNoCall(column, "[" + inner, word);
      case Coalesce(a, b) =>
        Paired("coalesce(", TextE(pr, a), ", ", TextE(pr, b), ")", rest);
        PastOther(t, word, 0);
      case ToFloat(a) =>
        Wrapped("toFloat64OrNull(", TextE(pr, a), ")", rest);
        PastOther(t, word, 0);
    }
  }

  // ---- Conditions ----

  ghost predicate IsOp(op: string) {
    op in ["=", "!=", ">", ">=", "<", "<="]
  }

  ghost predicate ConditionFine(e: SqlExpr) {
    match e
    case Flag(_) => true
    case Both(a, b) => ConditionFine(a) && ConditionFine(b)
    case Cmp(op, a, b) => IsOp(op) && OperandFine(a) && OperandFine(b)
    case Match(a, b) => OperandFine(a) && OperandFine(b)
    case NotMatch(a, b) => OperandFine(a) && OperandFine(b)
    case _ => OperandFine(e)
  }

  /** The end of a condition: the end of the text, a bracket, or a keyword. */
  ghost predicate Closes(rest: string) {
    rest == "" || rest[0] == ')' || (|rest| >= 2 && rest[0] == ' ' && 'A' <= rest[1] <= 'Z')
  }

  lemma NoOp(rest: string)
    requires Closes(rest)
    ensures ReadOp(rest) == No && Stops(rest)
  {
    hide Past;
    var i := if rest == "" || rest[0] == ')' then 0 else 1;
    PastOther(rest, " = ", i);
    PastOther(rest, " != ", i);
    PastOther(rest, " > ", i);
    PastOther(rest, " >= ", i);
    PastOther(rest, " < ", i);
    PastOther(rest, " <= ", i);
  }

  lemma OpBack(op: string, rest: string)
    requires IsOp(op)
    ensures ReadOp((" " + op + " ") + rest) == Yes(op, rest)
  {
    hide Past;
    var word := " " + op + " ";
    var t := word + rest;
    PastOwn(word, rest);
    assert forall i | 0 <= i < |word| :: t[i] == word[i];
    assert op == "=" ==> word == " = ";
    assert op == "!=" ==> word == " != ";
    assert op == ">" ==> word == " > ";
    assert op == ">=" ==> word == " >= ";
    assert op == "<" ==> word == " < ";
    assert op == "<=" ==> word == " <= ";
    if op != "=" {
      PastOther(t, " = ", 1);
    }
    if op != "!=" {
      PastOther(t, " != ", 1);
    }
    if op == ">=" || op == "<=" {
      PastOther(t, " > ", if op == ">=" then 2 else 1);
      PastOther(t, " < ", if op == "<=" then 2 else 1);
    }
    if op == "<" || op == "<=" {
      PastOther(t, " > ", 1);
      PastOther(t, " >= ", 1);
    }
  }

  lemma OpStops(op: string, rest: string)
    requires IsOp(op)
    ensures Stops((" " + op + " ") + rest)
  {
    assert ((" " + op + " ") + rest)[0] == ' ';
  }

  lemma ComparisonBack(pr: Printer, op: string, a: SqlExpr, b: SqlExpr, rest: string)
    requires IsOp(op) && OperandFine(a) && OperandFine(b) && Closes(rest)
    ensures var t := TextE(pr, a) + ((" " + op + " ") + (TextE(pr, b) + rest));
            ReadComparison(t) == Yes(Cmp(op, a, b), rest)
  {
    hide TextE, ReadOperand, ReadOp, OperandFine, Past, IsOp;
    NoOp(rest);
    OpStops(op, TextE(pr, b) + rest);
    OperandBack(pr, a, (" " + op + " ") + (TextE(pr, b) + rest));
    OpBack(op, TextE(pr, b) + rest);
    OperandBack(pr, b, rest);
  }

  /** A text that begins with an operand is no other condition. */
  lemma OnlyComparison(pr: Printer, e: SqlExpr, rest: string)
    requires OperandFine(e) && Stops(rest)
    ensures ReadCondition(TextE(pr, e) + rest) == ReadComparison(TextE(pr, e) + rest)
  {
    hide TextE, ReadComparison, OperandFine, Past;
    var t := TextE(pr, e) + rest;
    OperandLead(pr, e, rest);
    PastOther(t, "(", 0);
    PastOther(t, "NOT match(", 0);
    OperandIsNoCall(pr, e, rest, "match(");
    PastOther(t, "1", 0);
    PastOther(t, "0", 0);
  }

  lemma FlagBack(pr: Printer, on: bool, rest: string)
    ensures ReadCondition(TextE(pr, Flag(on)) + rest) == Yes(Flag(on), rest)
  {
    hide Past, ReadComparison, ReadTwo;
    var word := if on then "1" else "0";
    var t := word + rest;
    assert t[0] == word[0];
    PastOther(t, "(", 0);
    PastOther(t, "NOT match(", 0);
    PastOther(t, "match(", 0);
    if !on {
      PastOther(t, "1", 0);
    }
    PastOwn(word, rest);
  }

  lemma MatchBack(pr: Printer, a: SqlExpr, b: SqlExpr, rest: string)
    requires OperandFine(a) && OperandFine(b)
    ensures ReadCondition(TextE(pr, Match(a, b)) + rest) == Yes(Match(a, b), rest)
    ensures ReadCondition(TextE(pr, NotMatch(a, b)) + rest) == Yes(NotMatch(a, b), rest)
  {
    hide Past, ReadComparison, ReadTwo, ReadOperand, OperandFine, Pair;
    var inner := TextE(pr, a) + (", " + (TextE(pr, b) + (")" + rest)));
    OperandBack(pr, a, ", " + (TextE(pr, b) + (")" + rest)));
    OperandBack(pr, b, ")" + rest);
    TwoBack(pr, a, b, rest);
    Paired("match(", TextE(pr, a), ", ", TextE(pr, b), ")", rest);
    Paired("NOT match(", TextE(pr, a), ", ", TextE(pr, b), ")", rest);
    PastOther("match(" + inner, "(", 0);
    PastOther("match(" + inner, "NOT match(", 0);
    PastOwn("match(", inner);
    PastOther("NOT match(" + inner, "(", 0);
    PastOwn("NOT match(", inner);
  }

  lemma {:induction false} ConditionBack(pr: Printer, e: SqlExpr, rest: string)
    requires ConditionFine(e) && Closes(rest)
    ensures ReadCondition(TextE(pr, e) + rest) == Yes(e, rest)
    decreases e
  {
    hide Past, Pair, ReadComparison, ReadTwo, ReadOperand, OperandFine, IsOp;
    match e {
      case Flag(on) => FlagBack(pr, on, rest);
      case Match(a, b) => MatchBack(pr, a, b, rest);
      case NotMatch(a, b) => MatchBack(pr, a, b, rest);
      case Cmp(op, a, b) =>
        var more := (" " + op + " ") + (TextE(pr, b) + rest);
        Paired("", TextE(pr, a), " " + op + " ", TextE(pr, b), "", rest);
        NothingFirst(rest);
        NothingFirst(TextE(pr, a) + more);
        OpStops(op, TextE(pr, b) + rest);
        OnlyComparison(pr, a, more);
        ComparisonBack(pr, op, a, b, rest);
      case Both(a, b) =>
        var second := TextE(pr, b) + (")" + rest);
        Paired("(", TextE(pr, a), " AND ", TextE(pr, b), ")", rest);
        PastOwn("(", TextE(pr, a) + (" AND " + second));
        ConditionBack(pr, a, " AND " + second);
        PastOwn(" AND ", second);
        ConditionBack(pr, b, ")" + rest);
        PastOwn(")", rest);
      case _ =>
        NoOp(rest);
        OnlyComparison(pr, e, rest);
        AloneBack(pr, e, rest);
    }
  }

  lemma AloneBack(pr: Printer, e: SqlExpr, rest: string)
    requires OperandFine(e) && Closes(rest)
    ensures ReadComparison(TextE(pr, e) + rest) == Yes(e, rest)
  {
    hide TextE, ReadOperand, ReadOp, OperandFine;
    NoOp(rest);
    OperandBack(pr, e, rest);
  }

  // ---- Aggregates ----

  ghost predicate ProductFine(e: SqlExpr) {
    if e.Times? then OperandFine(e.a) && OperandFine(e.b) else OperandFine(e)
  }

  ghost predicate AggregateFine(g: SqlAgg) {
    match g
    case SumOf(e) => ProductFine(e)
    case SumOverSum(e, wt) => ProductFine(e) && ProductFine(wt)
    case MinOf(e) => OperandFine(e)
    case MaxOf(e) => OperandFine(e)
    case QuantileTDigestWeighted(level, e, wt) =>
      (level == 0.5 || level == 0.95 || level == 0.99) && OperandFine(e) && OperandFine(wt)
  }

  lemma ProductBack(pr: Printer, e: SqlExpr, rest: string)
    requires ProductFine(e)
    ensures ReadProduct(TextE(pr, e) + (")" + rest)) == Yes(e, ")" + rest)
  {
    hide ReadOperand, OperandFine, Past, Pair;
    PastOther(")" + rest, " * ", 0);
    if e.Times? {
      var second := TextE(pr, e.b) + (")" + rest);
      Paired("", TextE(pr, e.a), " * ", TextE(pr, e.b), "", ")" + rest);
      NothingFirst(")" + rest);
      NothingFirst(TextE(pr, e.a) + (" * " + second));
      OperandBack(pr, e.a, " * " + second);
      PastOwn(" * ", second);
      OperandBack(pr, e.b, ")" + rest);
    } else {
      OperandBack(pr, e, ")" + rest);
    }
  }

  /** What follows an aggregate in a select list: its output name. */
  ghost predicate Aliased(rest: string) {
    " AS `" <= rest
  }

  lemma SumsBack(pr: Printer, e: SqlExpr, rest: string)
    requires ProductFine(e) && Aliased(rest)
    ensures ReadSums(TextE(pr, e) + (")" + rest)) == Yes(SumOf(e), rest)
  {
    hide TextE, ReadProduct, ProductFine, Past;
    ProductBack(pr, e, rest);
    PastOwn(")", rest);
    assert " AS `"[1] == 'A' && rest[1] == 'A';
    PastOther(rest, " / sum(", 1);
  }

  lemma QuotientBack(pr: Printer, e: SqlExpr, wt: SqlExpr, rest: string)
    requires ProductFine(e) && ProductFine(wt)
    ensures ReadSums(TextE(pr, e) + (") / sum(" + (TextE(pr, wt) + (")" + rest)))) == Yes(SumOverSum(e, wt), rest)
  {
    hide TextE, ReadProduct, ProductFine, Past;
    var second := TextE(pr, wt) + (")" + rest);
    assert ") / sum(" + second == ")" + (" / sum(" + second);
    ProductBack(pr, e, " / sum(" + second);
    PastOwn(")", " / sum(" + second);
    PastOwn(" / sum(", second);
    ProductBack(pr, wt, rest);
    PastOwn(")", rest);
  }

  lemma QuantileBack(pr: Printer, level: real, e: SqlExpr, wt: SqlExpr, rest: string)
    requires OperandFine(e) && OperandFine(wt)
    ensures ReadQuantile(level, TextE(pr, e) + (", toUInt64(round(" + (TextE(pr, wt) + (")))" + rest)))) ==
            Yes(QuantileTDigestWeighted(level, e, wt), rest)
  {
    hide TextE, ReadOperand, OperandFine, Past;
    var second := TextE(pr, wt) + (")))" + rest);
    OperandBack(pr, e, ", toUInt64(round(" + second);
    PastOwn(", toUInt64(round(", second);
    OperandBack(pr, wt, ")))" + rest);
    PastOwn(")))", rest);
  }

  lemma BracketedBack(pr: Printer, e: SqlExpr, rest: string)
    requires OperandFine(e)
    ensures ReadBracketed(TextE(pr, e) + (")" + rest)) == Yes(e, rest)
  {
    hide TextE, ReadOperand, OperandFine, Past;
    OperandBack(pr, e, ")" + rest);
    PastOwn(")", rest);
  }

  ghost predicate IsLevel(level: real) {
    level == 0.5 || level == 0.95 || level == 0.99
  }

  function LevelWord(level: real): string {
    "quantileTDigestWeighted(" + LevelText(level) + ")("
  }

  lemma LevelRead(level: real, inner: string)
    requires IsLevel(level)
    ensures ReadAggregate(LevelWord(level) + inner) == ReadQuantile(level, inner)
  {
    hide Past, ReadSums, ReadBracketed, ReadQuantile;
    var word := LevelWord(level);
    var t := word + inner;
    assert |word| >= 28 && t[0] == 'q' && forall i | 0 <= i < |word| :: t[i] == word[i];
    PastOther(t, "sum(", 0);
    PastOther(t, "min(", 0);
    PastOther(t, "max(", 0);
    PastOwn(word, inner);
    assert word == if level == 0.5 then "quantileTDigestWeighted(0.5)("
                   else if level == 0.95 then "quantileTDigestWeighted(0.95)(" else "quantileTDigestWeighted(0.99)(";
    if level != 0.5 {
      assert word[26] == '9';
      PastOther(t, "quantileTDigestWeighted(0.5)(", 26);
    }
    if level == 0.99 {
      assert word[27] == '9';
      PastOther(t, "quantileTDigestWeighted(0.95)(", 27);
    }
  }

  lemma AggregateBack(pr: Printer, g: SqlAgg, rest: string)
    requires AggregateFine(g) && Aliased(rest)
    ensures ReadAggregate(TextAgg(pr, g) + rest) == Yes(g, rest)
  {
    hide Past, ReadSums, ReadBracketed, ReadQuantile, TextE, Wrap, Pair, OperandFine, ProductFine, LevelText, Aliased;
    match g {
      case SumOf(e) =>
        Wrapped("sum(", TextE(pr, e), ")", rest);
        PastOwn("sum(", TextE(pr, e) + (")" + rest));
        SumsBack(pr, e, rest);
      case SumOverSum(e, wt) =>
        var inner := TextE(pr, e) + (") / sum(" + (TextE(pr, wt) + (")" + rest)));
        Paired("sum(", TextE(pr, e), ") / sum(", TextE(pr, wt), ")", rest);
        PastOwn("sum(", inner);
        QuotientBack(pr, e, wt, rest);
      case MinOf(e) =>
        var inner := TextE(pr, e) + (")" + rest);
        Wrapped("min(", TextE(pr, e), ")", rest);
        PastOther("min(" + inner, "sum(", 0);
        PastOwn("min(", inner);
        BracketedBack(pr, e, rest);
      case MaxOf(e) =>
        var inner := TextE(pr, e) + (")" + rest);
        Wrapped("max(", TextE(pr, e), ")", rest);
        PastOther("max(" + inner, "sum(", 0);
        PastOther("max(" + inner, "min(", 1);
        PastOwn("max(", inner);
        BracketedBack(pr, e, rest);
      case QuantileTDigestWeighted(level, e, wt) =>
        var inner := TextE(pr, e) + (", toUInt64(round(" + (TextE(pr, wt) + (")))" + rest)));
        Paired(LevelWord(level), TextE(pr, e), ", toUInt64(round(", TextE(pr, wt), ")))", rest);
        LevelRead(level, inner);
        QuantileBack(pr, level, e, wt, rest);
    }
  }

  /** An operand is no aggregate. */
  lemma OperandIsNoAggregate(pr: Printer, e: SqlExpr, rest: string)
    requires OperandFine(e) && Stops(rest)
    ensures ReadAggregate(TextE(pr, e) + rest) == No
  {
    hide Past, TextE, OperandFine, ReadSums, ReadBracketed, ReadQuantile;
    var t := TextE(pr, e) + rest;
    OperandIsNoCall(pr, e, rest, "sum(");
    OperandIsNoCall(pr, e, rest, "min(");
    OperandIsNoCall(pr, e, rest, "max(");
    OperandIsNoCall(pr, e, rest, "quantileTDigestWeighted(");
    LongerWord(t, "quantileTDigestWeighted(", "quantileTDigestWeighted(0.5)(");
    LongerWord(t, "quantileTDigestWeighted(", "quantileTDigestWeighted(0.95)(");
    LongerWord(t, "quantileTDigestWeighted(", "quantileTDigestWeighted(0.99)(");
  }

  lemma LongerWord(t: string, word: string, longer: string)
    requires word <= longer
    ensures Past(t, longer).Some? ==> Past(t, word).Some?
  {
  }

  // ---- Items, order and lists ----

  ghost predicate Quotable(name: string) {
    '`' !in name
  }

  lemma {:induction false} QuotedBack(name: string, rest: string)
    requires Quotable(name)
    ensures ReadQuoted(name + ("`" + rest)) == Yes(name, rest)
  {
    var t := name + ("`" + rest);
    if name == "" {
      assert t == "`" + rest && t[1..] == rest;
    } else {
      assert t[0] == name[0] && t[1..] == name[1..] + ("`" + rest) && name == [name[0]] + name[1..];
      QuotedBack(name[1..], rest);
    }
  }

  lemma AliasBack(name: string, rest: string)
    requires Quotable(name)
    ensures ReadAlias((" AS `" + name + "`") + rest) == Yes(name, rest)
  {
    hide Past, ReadQuoted;
    assert (" AS `" + name + "`") + rest == " AS `" + (name + ("`" + rest));
    PastOwn(" AS `", name + ("`" + rest));
    QuotedBack(name, rest);
  }

  ghost predicate ItemFine(i: Item) {
    Quotable(i.name) && match i case ItemExpr(e, _) => OperandFine(e) case ItemAgg(g, _) => AggregateFine(g)
  }

  lemma ItemBack(pr: Printer, i: Item, rest: string)
    requires ItemFine(i)
    ensures ReadItem(TextItem(pr, i) + rest) == Yes(i, rest)
  {
    hide TextE, TextAgg, ReadAggregate, ReadOperand, ReadAlias, OperandFine, AggregateFine, Wrap;
    var alias := (" AS `" + i.name + "`") + rest;
    AliasBack(i.name, rest);
    assert alias[..5] == " AS `" && alias[0] == ' ';
    match i {
      case ItemExpr(e, name) =>
        Wrapped("", TextE(pr, e), " AS `" + name + "`", rest);
        NothingFirst(TextE(pr, e) + alias);
        OperandIsNoAggregate(pr, e, alias);
        OperandBack(pr, e, alias);
      case ItemAgg(g, name) =>
        Wrapped("", TextAgg(pr, g), " AS `" + name + "`", rest);
        NothingFirst(TextAgg(pr, g) + alias);
        AggregateBack(pr, g, alias);
    }
  }

  ghost predicate OrderFine(over: bool, x: (SqlExpr, bool)) {
    if over then x.0.Col? && Quotable(x.0.name) else OperandFine(x.0)
  }

  lemma DirectionBack(desc: bool, rest: string)
    ensures var t := (if desc then " DESC" else " ASC") + rest;
            if desc then Past(t, " ASC") == None && Past(t, " DESC") == Some(rest) else Past(t, " ASC") == Some(rest)
  {
    hide Past;
    PastOwn(if desc then " DESC" else " ASC", rest);
    if desc {
      PastOther(" DESC" + rest, " ASC", 1);
    }
  }

  lemma OrderBack(pr: Printer, over: bool, x: (SqlExpr, bool), rest: string)
    requires OrderFine(over, x)
    ensures ReadOrder(OrderText(pr, over, x) + rest) == Yes(x, rest)
  {
    hide ReadOperand, OperandFine, Past, Wrap, ReadQuoted;
    var direction := (if x.1 then " DESC" else " ASC") + rest;
    DirectionBack(x.1, rest);
    Wrapped(if over then "`" else "", TextE(pr, x.0), OrderClose(over, x.1), rest);
    if over {
      assert OrderClose(over, x.1) + rest == "`" + direction;
      PastOwn("`", x.0.name + ("`" + direction));
      QuotedBack(x.0.name, direction);
    } else {
      assert OrderClose(over, x.1) + rest == direction && direction[0] == ' ';
      NothingFirst(TextE(pr, x.0) + direction);
      OperandLead(pr, x.0, direction);
      PastOther(TextE(pr, x.0) + direction, "`", 0);
      OperandBack(pr, x.0, direction);
    }
  }

  /** Comma from the front. */
  lemma {:induction false} CommaFront(q: seq<string>, rest: string)
    requires |q| > 1
    ensures Comma(q) + rest == q[0] + (", " + (Comma(q[1..]) + rest))
  {
    hide Pair;
    var n := |q| - 1;
    Paired("", Comma(q[..n]), ", ", q[n], "", rest);
    NothingFirst(rest);
    NothingFirst(Comma(q[..n]) + (", " + (q[n] + rest)));
    if n > 1 {
      CommaFront(q[..n], ", " + (q[n] + rest));
      assert q[..n][1..] == q[1..][..n - 1] && q[1..][n - 1] == q[n];
      Paired("", Comma(q[1..][..n - 1]), ", ", q[n], "", rest);
      NothingFirst(Comma(q[1..][..n - 1]) + (", " + (q[n] + rest)));
    } else {
      assert q[1..] == [q[1]] && q[..1] == [q[0]];
    }
  }

  /** Each text of the list reads back as its value, whatever fitting text follows. */
  ghost predicate ReadsEach<T(!new)>(item: string -> Read<T>, texts: seq<string>, values: seq<T>, fits: string -> bool) {
    && |texts| == |values|
    && forall i, rest | 0 <= i < |texts| && fits(rest) :: item(texts[i] + rest) == Yes(values[i], rest)
  }

  lemma EachTail<T(!new)>(item: string -> Read<T>, texts: seq<string>, values: seq<T>, fits: string -> bool)
    requires ReadsEach(item, texts, values, fits) && texts != []
    ensures ReadsEach(item, texts[1..], values[1..], fits)
  {
    forall i, rest | 0 <= i < |texts[1..]| && fits(rest) ensures item(texts[1..][i] + rest) == Yes(values[1..][i], rest) {
      assert texts[1..][i] == texts[i + 1] && values[1..][i] == values[i + 1];
    }
  }

  lemma {:induction false} ListReads<T(!new)>(
    item: string -> Read<T>, texts: seq<string>, values: seq<T>, fits: string -> bool, rest: string)
    requires ReadsEach(item, texts, values, fits) && (forall i | 0 <= i < |texts| :: texts[i] != "")
    requires fits(rest) && Past(rest, ", ") == None && (forall more :: fits(", " + more))
    requires texts == [] ==> item(rest) == No
    ensures ReadList(item, Comma(texts) + rest) == (values, rest)
  {
    hide Past, Comma;
    if texts == [] {
      NoComma();
      NothingFirst(rest);
    } else if |texts| == 1 {
      OneComma(texts);
      assert item(texts[0] + rest) == Yes(values[0], rest);
      assert values == [values[0]];
    } else {
      var more := Comma(texts[1..]) + rest;
      CommaFront(texts, rest);
      assert item(texts[0] + (", " + more)) == Yes(values[0], ", " + more);
      PastOwn(", ", more);
      EachTail(item, texts, values, fits);
      assert forall i | 0 <= i < |texts[1..]| :: texts[1..][i] == texts[i + 1];
      ListReads(item, texts[1..], values[1..], fits, rest);
      assert values == [values[0]] + values[1..];
    }
  }

  lemma NoComma()
    ensures Comma([]) == ""
  {
  }

  lemma OneComma(texts: seq<string>)
    requires |texts| == 1
    ensures Comma(texts) == texts[0]
  {
  }

  // ---- Statements ----

  ghost predicate Ends(rest: string) {
    rest == "" || rest[0] == ')'
  }

  lemma EndsStop(rest: string)
    requires Ends(rest)
    ensures Closes(rest) && Stops(rest) && NameEnds(rest)
    ensures Past(rest, ", ") == Past(rest, " LIMIT ") == Past(rest, " WHERE ") == Past(rest, " GROUP BY ") == None
  {
    hide Past;
    PastOther(rest, ", ", 0);
    PastOther(rest, " LIMIT ", 0);
    PastOther(rest, " WHERE ", 0);
    PastOther(rest, " GROUP BY ", 0);
  }

  lemma NothingStarts(rest: string)
    requires rest == "" || rest[0] == ')' || rest[0] == ' '
    ensures ReadOperand(rest) == No && ReadItem(rest) == No && ReadOrder(rest) == No
  {
    hide Past, ReadSums, ReadBracketed, ReadQuantile;
    PastOther(rest, "?", 0);
    PastOther(rest, "toFloat64OrNull(", 0);
    PastOther(rest, "coalesce(", 0);
    PastOther(rest, "sum(", 0);
    PastOther(rest, "min(", 0);
    PastOther(rest, "max(", 0);
    PastOther(rest, "quantileTDigestWeighted(0.5)(", 0);
    PastOther(rest, "quantileTDigestWeighted(0.95)(", 0);
    PastOther(rest, "quantileTDigestWeighted(0.99)(", 0);
    PastOther(rest, "`", 0);
  }

  ghost predicate StatementFine(s: Statement) {
    match s
    case FromTable(columns, table, cond, upTo) =>
      && (forall c | c in columns :: IsColumn(c)) && IsColumn(table)
      && (cond.Some? ==> ConditionFine(cond.value)) && (upTo.Some? ==> OperandFine(upTo.value))
    case SelectWhere(child, where) => StatementFine(child) && ConditionFine(where)
    case SelectGroup(items, child, keys) =>
      StatementFine(child) && (forall i | i in items :: ItemFine(i)) && forall k | k in keys :: OperandFine(k)
    case SelectOrder(child, order) => StatementFine(child) && forall x | x in order :: OrderFine(Aggregated(child), x)
    case SelectLimit(child, n) => StatementFine(child) && OperandFine(n)
  }

  function Clausal(pr: Printer, keyword: string, e: Option<SqlExpr>, rest: string): string {
    if e.None? then rest else keyword + (TextE(pr, e.value) + rest)
  }

  lemma ClauseThen(pr: Printer, text: string, keyword: string, e: Option<SqlExpr>, rest: string)
    ensures Clause(pr, text, keyword, e) + rest == text + Clausal(pr, keyword, e, rest)
  {
    hide TextE, Pair;
    if e.Some? {
      Paired("", text, keyword, TextE(pr, e.value), "", rest);
      NothingFirst(rest);
      NothingFirst(text + (keyword + (TextE(pr, e.value) + rest)));
    }
  }

  lemma LimitCloses(pr: Printer, upTo: Option<SqlExpr>, rest: string)
    requires Ends(rest)
    ensures var t := Clausal(pr, " LIMIT ", upTo, rest); Closes(t) && NameEnds(t) && Past(t, " WHERE ") == None
  {
    hide TextE, Past;
    EndsStop(rest);
    if upTo.Some? {
      var t := " LIMIT " + (TextE(pr, upTo.value) + rest);
      assert t[0] == ' ' && t[1] == 'L';
      PastOther(t, " WHERE ", 1);
    }
  }

  lemma UpToBack(pr: Printer, columns: seq<string>, table: string, cond: Option<SqlExpr>, upTo: Option<SqlExpr>, rest: string)
    requires (upTo.Some? ==> OperandFine(upTo.value)) && Ends(rest)
    ensures ReadUpTo(columns, table, cond, Clausal(pr, " LIMIT ", upTo, rest)) == Yes(FromTable(columns, table, cond, upTo), rest)
  {
    hide TextE, Past, OperandFine, ReadOperand;
    EndsStop(rest);
    if upTo.Some? {
      PastOwn(" LIMIT ", TextE(pr, upTo.value) + rest);
      OperandBack(pr, upTo.value, rest);
    }
  }

  lemma TableBack(pr: Printer, columns: seq<string>, table: string, cond: Option<SqlExpr>, upTo: Option<SqlExpr>, rest: string)
    requires IsColumn(table) && (cond.Some? ==> ConditionFine(cond.value)) && (upTo.Some? ==> OperandFine(upTo.value)) && Ends(rest)
    ensures ReadTable(columns, table + Clausal(pr, " WHERE ", cond, Clausal(pr, " LIMIT ", upTo, rest))) ==
            Yes(FromTable(columns, table, cond, upTo), rest)
  {
    hide TextE, Past, OperandFine, ConditionFine, ReadOperand, ReadCondition, ReadUpTo, IsColumn, ReadName, Closes;
    var limit := Clausal(pr, " LIMIT ", upTo, rest);
    var after := Clausal(pr, " WHERE ", cond, limit);
    LimitCloses(pr, upTo, rest);
    if cond.Some? {
      assert after[0] == ' ';
      PastOwn(" WHERE ", TextE(pr, cond.value) + limit);
      ConditionBack(pr, cond.value, limit);
    }
    NameBack(table, after);
    UpToBack(pr, columns, table, cond, upTo, rest);
  }

  lemma FirstOf(q: seq<string>, rest: string) returns (more: string)
    requires q != []
    ensures Comma(q) + rest == q[0] + more
    ensures |q| == 1 ==> more == rest
    ensures |q| > 1 ==> more != "" && more[0] == ','
  {
    if |q| == 1 {
      OneComma(q);
      more := rest;
    } else {
      more := ", " + (Comma(q[1..]) + rest);
      CommaFront(q, rest);
    }
  }

  lemma ColumnsAreNoItems(columns: seq<string>, pr: Printer, tail: string)
    requires columns != [] && forall c | c in columns :: IsColumn(c)
    ensures var u := Comma(columns) + (" FROM tracelens." + tail);
            && ReadItem(u) == No && Past(u, " FROM (") == Past(u, "* FROM (") == Past(u, "* FROM tracelens.") == None
  {
    hide Past, Comma, ReadAggregate, ReadOperand, IsColumn;
    var u := Comma(columns) + (" FROM tracelens." + tail);
    var more := FirstOf(columns, " FROM tracelens." + tail);
    var c := columns[0];
    assert |columns| == 1 ==> more[0] == ' ' && more[1] == 'F';
    assert TextE(pr, Col(c)) == c;
    OperandLead(pr, Col(c), more);
    OperandIsNoAggregate(pr, Col(c), more);
    OperandBack(pr, Col(c), more);
    PastOther(more, " AS `", if |columns| == 1 then 1 else 0);
    PastOther(u, " FROM (", 0);
    PastOther(u, "* FROM (", 0);
    PastOther(u, "* FROM tracelens.", 0);
  }

  lemma ColumnsBack(columns: seq<string>, tail: string)
    requires columns != [] && forall c | c in columns :: IsColumn(c)
    ensures ReadColumns(Comma(columns) + (" FROM tracelens." + tail)) == ReadTable(columns, tail)
  {
    hide Past, Comma, ReadTable, IsColumn, ReadName;
    var rest := " FROM tracelens." + tail;
    var fits := (r: string) => NameEnds(r);
    forall i, r | 0 <= i < |columns| && fits(r) ensures ReadName(columns[i] + r) == Yes(columns[i], r) {
      NameBack(columns[i], r);
    }
    forall i | 0 <= i < |columns| ensures columns[i] != "" {
      ColumnNotEmpty(columns[i]);
    }
    PastOther(rest, ", ", 0);
    ListReads(ReadName, columns, columns, fits, rest);
    PastOwn(" FROM tracelens.", tail);
  }

  lemma ColumnNotEmpty(name: string)
    requires IsColumn(name)
    ensures name != ""
  {
  }

  lemma FromBack(pr: Printer, columns: seq<string>, tail: string)
    requires forall c | c in columns :: IsColumn(c)
    ensures ReadStatement("SELECT " + (ColumnsText(columns) + (" FROM tracelens." + tail))) == ReadTable(columns, tail)
  {
    hide Past, Comma, ReadTable, IsColumn, ReadItem, ReadColumns, ReadSubquery, ReadAround, ReadKeys;
    var u := ColumnsText(columns) + (" FROM tracelens." + tail);
    PastOwn("SELECT ", u);
    if columns == [] {
      assert u == "* FROM tracelens." + tail;
      PastOther(u, "* FROM (", 7);
      PastOwn("* FROM tracelens.", tail);
    } else {
      ColumnsAreNoItems(columns, pr, tail);
      ColumnsBack(columns, tail);
    }
  }

  lemma ItemLead(pr: Printer, i: Item, rest: string)
    requires ItemFine(i)
    ensures var t := TextItem(pr, i) + rest; TextItem(pr, i) != "" && t != "" && t[0] != '*'
  {
    hide TextE, TextAgg, Wrap, OperandFine, AggregateFine;
    match i {
      case ItemExpr(e, name) =>
        Wrapped("", TextE(pr, e), " AS `" + name + "`", rest);
        NothingFirst(TextE(pr, e) + ((" AS `" + name + "`") + rest));
        OperandLead(pr, e, (" AS `" + name + "`") + rest);
        Wrapped("", TextE(pr, e), " AS `" + name + "`", "");
        assert TextItem(pr, i) + "" == TextItem(pr, i);
      case ItemAgg(g, name) =>
        Wrapped("", TextAgg(pr, g), " AS `" + name + "`", rest);
        NothingFirst(TextAgg(pr, g) + ((" AS `" + name + "`") + rest));
        AggregateLead(pr, g);
        Wrapped("", TextAgg(pr, g), " AS `" + name + "`", "");
        assert TextItem(pr, i) + "" == TextItem(pr, i);
    }
  }

  lemma AggregateLead(pr: Printer, g: SqlAgg)
    ensures TextAgg(pr, g) != "" && TextAgg(pr, g)[0] != '*'
  {
    hide TextE, LevelText;
  }

  lemma ItemsLead(pr: Printer, items: seq<Item>, rest: string)
    requires (forall i | i in items :: ItemFine(i)) && rest != "" && rest[0] == ' '
    ensures var u := Comma(TextI(pr, items)) + rest; u != "" && u[0] != '*'
  {
    hide TextItem, ItemFine, Comma;
    if items == [] {
      assert TextI(pr, items) == [];
      NoComma();
      NothingFirst(rest);
    } else {
      var more := FirstOf(TextI(pr, items), rest);
      ItemLead(pr, items[0], more);
    }
  }

  lemma ItemsBack(pr: Printer, items: seq<Item>, tail: string)
    requires forall i | i in items :: ItemFine(i)
    ensures ReadList(ReadItem, Comma(TextI(pr, items)) + (" FROM (" + tail)) == (items, " FROM (" + tail)
  {
    hide TextItem, ItemFine, Comma, ReadItem, Past;
    var rest := " FROM (" + tail;
    var texts, fits := TextI(pr, items), (r: string) => true;
    forall i, r | 0 <= i < |texts| && fits(r) ensures ReadItem(texts[i] + r) == Yes(items[i], r) {
      assert items[i] in items;
      ItemBack(pr, items[i], r);
    }
    forall i | 0 <= i < |texts| ensures texts[i] != "" {
      assert items[i] in items;
      ItemLead(pr, items[i], "");
    }
    PastOther(rest, ", ", 0);
    NothingStarts(rest);
    ListReads(ReadItem, texts, items, fits, rest);
  }

  lemma KeysBack(pr: Printer, keys: seq<SqlExpr>, rest: string)
    requires (forall k | k in keys :: OperandFine(k)) && Ends(rest)
    ensures ReadList(ReadOperand, Comma(TextL(pr, keys)) + rest) == (keys, rest)
  {
    hide TextE, OperandFine, Comma, ReadOperand, Past, Stops;
    var texts, fits := TextL(pr, keys), (r: string) => Stops(r);
    forall i, r | 0 <= i < |texts| && fits(r) ensures ReadOperand(texts[i] + r) == Yes(keys[i], r) {
      assert keys[i] in keys;
      OperandBack(pr, keys[i], r);
    }
    forall i | 0 <= i < |texts| ensures texts[i] != "" {
      assert keys[i] in keys;
      OperandLead(pr, keys[i], "");
      assert texts[i] + "" == texts[i];
    }
    forall more ensures fits(", " + more) {
      CommaStops(more);
    }
    EndsStop(rest);
    NothingStarts(rest);
    ListReads(ReadOperand, texts, keys, fits, rest);
  }

  lemma CommaStops(more: string)
    ensures Stops(", " + more)
  {
  }

  lemma OrdersBack(pr: Printer, over: bool, order: seq<(SqlExpr, bool)>, rest: string)
    requires (forall x | x in order :: OrderFine(over, x)) && Ends(rest)
    ensures ReadList(ReadOrder, Comma(TextO(pr, over, order)) + rest) == (order, rest)
  {
    hide OrderText, OrderFine, Comma, ReadOrder, Past;
    var texts, fits := TextO(pr, over, order), (r: string) => true;
    forall i, r | 0 <= i < |texts| && fits(r) ensures ReadOrder(texts[i] + r) == Yes(order[i], r) {
      assert order[i] in order;
      OrderBack(pr, over, order[i], r);
    }
    forall i | 0 <= i < |texts| ensures texts[i] != "" {
      OrderNotEmpty(pr, over, order[i]);
    }
    EndsStop(rest);
    NothingStarts(rest);
    ListReads(ReadOrder, texts, order, fits, rest);
  }

  lemma OrderNotEmpty(pr: Printer, over: bool, x: (SqlExpr, bool))
    ensures OrderText(pr, over, x) != ""
  {
    hide TextE;
  }

  lemma AroundRead(child: string, s: Statement, t: string)
    requires ReadStatement(child + (")" + t)) == Yes(s, ")" + t)
    ensures ReadStatement("SELECT * FROM (" + (child + (")" + t))) == ReadAround(s, t)
  {
    hide ReadAround, Past, ReadTable, ReadItem, ReadColumns, ReadKeys;
    var inner := child + (")" + t);
    assert "SELECT * FROM (" + inner == "SELECT " + ("* FROM (" + inner);
    PastOwn("SELECT ", "* FROM (" + inner);
    PastOwn("* FROM (", inner);
    SubqueryRead(child, s, t);
  }

  lemma SubqueryRead(child: string, s: Statement, t: string)
    requires ReadStatement(child + (")" + t)) == Yes(s, ")" + t)
    ensures ReadSubquery(child + (")" + t)) == Yes(s, t)
  {
    hide ReadStatement, Past;
    PastOwn(")", t);
  }

  lemma GroupRead(pr: Printer, items: seq<Item>, child: string, s: Statement, t: string)
    requires (forall i | i in items :: ItemFine(i)) && ReadStatement(child + (")" + t)) == Yes(s, ")" + t)
    ensures ReadStatement("SELECT " + (Comma(TextI(pr, items)) + (" FROM (" + (child + (")" + t))))) == ReadKeys(items, s, t)
  {
    hide ReadAround, Past, ReadTable, ReadItem, ReadColumns, ReadKeys, Comma, ItemFine, ReadSubquery;
    var inner := child + (")" + t);
    var u := Comma(TextI(pr, items)) + (" FROM (" + inner);
    PastOwn("SELECT ", u);
    ItemsLead(pr, items, " FROM (" + inner);
    PastOther(u, "* FROM (", 0);
    PastOther(u, "* FROM tracelens.", 0);
    ItemsBack(pr, items, inner);
    PastOwn(" FROM (", inner);
    SubqueryRead(child, s, t);
  }

  lemma WhereRead(pr: Printer, child: Statement, where: SqlExpr, rest: string)
    requires ConditionFine(where) && Ends(rest)
    ensures ReadAround(child, " WHERE " + (TextE(pr, where) + rest)) == Yes(SelectWhere(child, where), rest)
  {
    hide Past, ConditionFine, ReadCondition, TextE;
    EndsStop(rest);
    PastOwn(" WHERE ", TextE(pr, where) + rest);
    ConditionBack(pr, where, rest);
  }

  lemma OrderRead(pr: Printer, child: Statement, order: seq<(SqlExpr, bool)>, rest: string)
    requires (forall x | x in order :: OrderFine(Aggregated(child), x)) && Ends(rest)
    ensures ReadAround(child, " ORDER BY " + (Comma(TextO(pr, Aggregated(child), order)) + rest)) == Yes(SelectOrder(child, order), rest)
  {
    hide Past, OrderFine, ReadOrder, Comma, TextO;
    var t := Comma(TextO(pr, Aggregated(child), order)) + rest;
    PastOther(" ORDER BY " + t, " WHERE ", 1);
    PastOwn(" ORDER BY ", t);
    OrdersBack(pr, Aggregated(child), order, rest);
  }

  lemma LimitRead(pr: Printer, child: Statement, n: SqlExpr, rest: string)
    requires OperandFine(n) && Ends(rest)
    ensures ReadAround(child, " LIMIT " + (TextE(pr, n) + rest)) == Yes(SelectLimit(child, n), rest)
  {
    hide Past, OperandFine, ReadOperand, TextE;
    var t := TextE(pr, n) + rest;
    EndsStop(rest);
    PastOther(" LIMIT " + t, " WHERE ", 1);
    PastOther(" LIMIT " + t, " ORDER BY ", 1);
    PastOwn(" LIMIT ", t);
    OperandBack(pr, n, rest);
  }

  lemma KeysRead(pr: Printer, items: seq<Item>, child: Statement, keys: seq<SqlExpr>, rest: string)
    requires (forall k | k in keys :: OperandFine(k)) && Ends(rest)
    ensures ReadKeys(items, child, if keys == [] then rest else " GROUP BY " + (Comma(TextL(pr, keys)) + rest)) ==
            Yes(SelectGroup(items, child, keys), rest)
  {
    hide Past, OperandFine, ReadOperand, Comma, TextL;
    EndsStop(rest);
    PastOwn(" GROUP BY ", Comma(TextL(pr, keys)) + rest);
    KeysBack(pr, keys, rest);
  }

  /** Reading the text of a statement of the planner's kind gives the statement and stops where it stops. */
  lemma {:induction false} StatementBack(pr: Printer, s: Statement, rest: string)
    requires StatementFine(s) && Ends(rest)
    ensures ReadStatement(SqlText(pr, s) + rest) == Yes(s, rest)
    decreases s
  {
    hide Past, Pair, Wrap, TextE, Comma, TextI, TextL, TextO, ReadStatement, ReadAround, ReadKeys, ReadTable, OperandFine,
         ConditionFine, ItemFine, OrderFine, IsColumn, Clause, Clausal, ColumnsText;
    match s {
      case FromTable(columns, table, cond, upTo) =>
        FromText(pr, columns, table, cond, upTo, rest);
        var after := Clausal(pr, " WHERE ", cond, Clausal(pr, " LIMIT ", upTo, rest));
        FromBack(pr, columns, table + after);
        TableBack(pr, columns, table, cond, upTo, rest);
      case SelectWhere(child, where) =>
        var t := " WHERE " + (TextE(pr, where) + rest);
        Paired("SELECT * FROM (", SqlText(pr, child), ") WHERE ", TextE(pr, where), "", rest);
        NothingFirst(rest);
        assert ") WHERE " + (TextE(pr, where) + rest) == ")" + t;
        StatementBack(pr, child, ")" + t);
        AroundRead(SqlText(pr, child), child, t);
        WhereRead(pr, child, where, rest);
      case SelectGroup(items, child, keys) =>
        GroupText(pr, items, child, keys, rest);
        var t := if keys == [] then rest else " GROUP BY " + (Comma(TextL(pr, keys)) + rest);
        StatementBack(pr, child, ")" + t);
        GroupRead(pr, items, SqlText(pr, child), child, t);
        KeysRead(pr, items, child, keys, rest);
      case SelectOrder(child, order) =>
        var list := Comma(TextO(pr, Aggregated(child), order));
        var t := " ORDER BY " + (list + rest);
        Paired("SELECT * FROM (", SqlText(pr, child), ") ORDER BY ", list, "", rest);
        NothingFirst(rest);
        assert ") ORDER BY " + (list + rest) == ")" + t;
        StatementBack(pr, child, ")" + t);
        AroundRead(SqlText(pr, child), child, t);
        OrderRead(pr, child, order, rest);
      case SelectLimit(child, n) =>
        var t := " LIMIT " + (TextE(pr, n) + rest);
        Paired("SELECT * FROM (", SqlText(pr, child), ") LIMIT ", TextE(pr, n), "", rest);
        NothingFirst(rest);
        assert ") LIMIT " + (TextE(pr, n) + rest) == ")" + t;
        StatementBack(pr, child, ")" + t);
        AroundRead(SqlText(pr, child), child, t);
        LimitRead(pr, child, n, rest);
    }
  }

  lemma FromText(pr: Printer, columns: seq<string>, table: string, cond: Option<SqlExpr>, upTo: Option<SqlExpr>, rest: string)
    ensures SqlText(pr, FromTable(columns, table, cond, upTo)) + rest ==
            "SELECT " + (ColumnsText(columns) +
              (" FROM tracelens." + (table + Clausal(pr, " WHERE ", cond, Clausal(pr, " LIMIT ", upTo, rest)))))
  {
    hide Pair, Wrap, TextE, Clause, Clausal, ColumnsText;
    var head := FromHead(columns, table);
    var limit := Clausal(pr, " LIMIT ", upTo, rest);
    var after := Clausal(pr, " WHERE ", cond, limit);
    ClauseThen(pr, Clause(pr, head, " WHERE ", cond), " LIMIT ", upTo, rest);
    ClauseThen(pr, head, " WHERE ", cond, limit);
    Wrapped("SELECT ", ColumnsText(columns), " FROM tracelens." + table, after);
    assert (" FROM tracelens." + table) + after == " FROM tracelens." + (table + after);
  }

  lemma GroupText(pr: Printer, items: seq<Item>, child: Statement, keys: seq<SqlExpr>, rest: string)
    ensures SqlText(pr, SelectGroup(items, child, keys)) + rest ==
            "SELECT " + (Comma(TextI(pr, items)) + (" FROM (" + (SqlText(pr, child) +
              (")" + if keys == [] then rest else " GROUP BY " + (Comma(TextL(pr, keys)) + rest)))))
  {
    hide Pair, Comma, TextI, TextL;
    var body := Pair("SELECT ", Comma(TextI(pr, items)), " FROM (", SqlText(pr, child), ")");
    var t := if keys == [] then rest else " GROUP BY " + (Comma(TextL(pr, keys)) + rest);
    if keys != [] {
      Paired("", body, " GROUP BY ", Comma(TextL(pr, keys)), "", rest);
      NothingFirst(rest);
      NothingFirst(body + t);
    }
    Paired("SELECT ", Comma(TextI(pr, items)), " FROM (", SqlText(pr, child), ")", t);
  }
}
