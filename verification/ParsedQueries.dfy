/** Whatever text parses, the query it gives has the field names the optimizer counts on. */
module ParsedQueries {
  import opened Grammar
  import opened Lexer
  import Optimizer
  import opened Options
  import opened Plans

  /** How literals turn into numbers and times, relative to a clock. */
  datatype Conversion = Conversion(number: string -> real, range: RangeLiteral -> TimeRange)

  function StageOf(c: Conversion, s: StageText): Stage {
    match s
    case FilterText(field, op, number, unit) => NumericFilter(field, op, c.number(number), unit)
    case AggregationText(exprs, groupBy) => Aggregation(exprs, groupBy)
    case SortText(fields) => SortStage(fields)
    case LimitText(n) => LimitStage(n)
  }

  /** The AST of a parsed select query. */
  function SelectOf(c: Conversion, q: QueryText): SelectQuery
    requires q.SelectText?
  {
    SelectQuery(q.selector, c.range(q.range), seq(|q.stages|, i requires 0 <= i < |q.stages| => StageOf(c, q.stages[i])))
  }

  ghost predicate NamesFine(q: seq<Token>) {
    forall t | t in q :: t.kind == TokIdent ==> IsName(t.lit)
  }

  /** The scanner's identifiers are names. */
  lemma {:induction false} ScannedNames(s: string)
    ensures NamesFine(Tokens(s))
    decreases |s|
  {
    NextAdvances(s);
    if Next(s).tok.kind != TokEOF {
      ScannedNames(s[Next(s).len..]);
      var w := Spaces(s);
      NameScanned(s[w..]);
    }
  }

  lemma NameScanned(s: string)
    requires s != []
    ensures TokenAt(s).tok.kind == TokIdent ==> IsName(TokenAt(s).tok.lit)
  {
    StringKind(s[1..], "");
    var n := Run(s, IsIdentPart);
    forall c | c in s[..n] ensures IsIdentPart(c) {
      var i :| 0 <= i < n && s[..n][i] == c;
    }
  }

  lemma NameIsIdent(s: string)
    requires IsName(s)
    ensures Optimizer.Ident(s)
  {
  }

  lemma TailFine(q: seq<Token>)
    requires NamesFine(q)
    ensures NamesFine(Tail(q)) && (Head(q).kind == TokIdent ==> IsName(Head(q).lit))
  {
  }

  /** An item parser whose values are fine and which leaves fine names behind. */
  ghost predicate Keeps<T(!new)>(item: seq<Token> -> Parsed<T>, fine: T -> bool) {
    forall p: seq<Token> | NamesFine(p) && item(p).Good? :: fine(item(p).value) && NamesFine(item(p).rest)
  }

  lemma {:induction false} ListKeeps<T(!new)>(item: seq<Token> -> Parsed<T>, fine: T -> bool, q: seq<Token>)
    requires Keeps(item, fine) && NamesFine(q) && ListOf(item, q).Good?
    ensures (forall x | x in ListOf(item, q).value :: fine(x)) && NamesFine(ListOf(item, q).rest)
    decreases |q|
  {
    var x, rest := item(q).value, item(q).rest;
    if Head(rest).kind == TokComma && |rest| <= |q| {
      TailFine(rest);
      ListKeeps(item, fine, Tail(rest));
    }
  }

  predicate MatcherFine(m: Matcher) {
    IsName(m.name)
  }

  predicate AggFine(e: AggExpr) {
    && (IsName(e.field) || (e.field == "" && e.func == Count))
    && (e.func.Unsupported? ==> e.func.name == "")
  }

  predicate SortFine(f: SortField) {
    IsName(f.field)
  }

  lemma MatcherKeeps()
    ensures Keeps(MatcherAt, MatcherFine)
  {
    forall p: seq<Token> | NamesFine(p) && MatcherAt(p).Good?
      ensures MatcherFine(MatcherAt(p).value) && NamesFine(MatcherAt(p).rest)
    {
      TailFine(p);
      TailFine(Tail(p));
      TailFine(Tail(Tail(p)));
    }
  }

  lemma AggKeeps()
    ensures Keeps(AggExprAt, AggFine)
  {
    forall p: seq<Token> | NamesFine(p) && AggExprAt(p).Good?
      ensures AggFine(AggExprAt(p).value) && NamesFine(AggExprAt(p).rest)
    {
      TailFine(p);
      TailFine(Tail(p));
      TailFine(Tail(Tail(p)));
      TailFine(Tail(Tail(Tail(p))));
    }
  }

  lemma FieldKeeps()
    ensures Keeps(FieldAt, IsName)
  {
    forall p: seq<Token> | NamesFine(p) && FieldAt(p).Good? ensures IsName(FieldAt(p).value) && NamesFine(FieldAt(p).rest) {
      TailFine(p);
    }
  }

  lemma SortFieldKeeps()
    ensures Keeps(SortFieldAt, SortFine)
  {
    forall p: seq<Token> | NamesFine(p) && SortFieldAt(p).Good?
      ensures SortFine(SortFieldAt(p).value) && NamesFine(SortFieldAt(p).rest)
    {
      TailFine(p);
      TailFine(Tail(p));
    }
  }

  lemma ParensKeep<T(!new)>(item: seq<Token> -> Parsed<T>, fine: T -> bool, q: seq<Token>)
    requires Keeps(item, fine) && NamesFine(q) && ParensAt(item, q).Good?
    ensures (forall x | x in ParensAt(item, q).value :: fine(x)) && NamesFine(ParensAt(item, q).rest)
  {
    hide ListOf;
    TailFine(q);
    ListKeeps(item, fine, Tail(q));
    TailFine(ListOf(item, Tail(q)).rest);
  }

  ghost predicate StageFine(s: StageText) {
    match s
    case FilterText(field, _, _, _) => IsName(field)
    case AggregationText(exprs, groupBy) => (forall e | e in exprs :: AggFine(e)) && forall g | g in groupBy :: IsName(g)
    case SortText(fields) => forall f | f in fields :: SortFine(f)
    case LimitText(_) => true
  }

  lemma StageKeeps(env: Literals, q: seq<Token>)
    requires NamesFine(q) && StageAt(env, q).Good?
    ensures StageFine(StageAt(env, q).value) && NamesFine(StageAt(env, q).rest)
  {
    hide ListOf, AggExprAt, FieldAt, SortFieldAt, ParensAt, Keeps, Lower, AggOf, Atoi, NumberOf, UnitOf, IsName;
    TailFine(q);
    TailFine(Tail(q));
    TailFine(Tail(Tail(q)));
    AggKeeps();
    FieldKeeps();
    SortFieldKeeps();
    if IsAggKeyword(Head(q)) {
      ListKeeps(AggExprAt, AggFine, q);
      var r := ListOf(AggExprAt, q).rest;
      TailFine(r);
      if IsKeyword(Head(r), "by") {
        ParensKeep(FieldAt, IsName, Tail(r));
      }
    } else if IsKeyword(Head(q), "sort") {
      ParensKeep(SortFieldAt, SortFine, Tail(Tail(q)));
    }
  }

  lemma {:induction false} StagesKeep(env: Literals, q: seq<Token>)
    requires NamesFine(q) && StagesAt(env, q).Good?
    ensures forall s | s in StagesAt(env, q).value :: StageFine(s)
    decreases |q|
  {
    hide StageAt, StageFine;
    if Head(q).kind == TokPipe {
      TailFine(q);
      StageKeeps(env, Tail(q));
      StagesKeep(env, StageAt(env, Tail(q)).rest);
    }
  }

  lemma SelectorKeeps(q: seq<Token>)
    requires NamesFine(q) && SelectorAt(q).Good?
    ensures (forall m | m in SelectorAt(q).value :: MatcherFine(m)) && NamesFine(SelectorAt(q).rest)
  {
    hide ListOf, MatcherAt, Keeps, IsName;
    TailFine(q);
    TailFine(Tail(q));
    MatcherKeeps();
    if Head(Tail(q)).kind != TokRBrace {
      ListKeeps(MatcherAt, MatcherFine, Tail(q));
      TailFine(ListOf(MatcherAt, Tail(q)).rest);
    }
  }

  lemma DurationKeeps(env: Literals, q: seq<Token>)
    requires NamesFine(q) && DurationAt(env, q).Good?
    ensures NamesFine(DurationAt(env, q).rest)
  {
    TailFine(q);
  }

  lemma TimeKeeps(env: Literals, q: seq<Token>)
    requires NamesFine(q) && TimeAt(env, q).Good?
    ensures NamesFine(TimeAt(env, q).rest)
  {
    hide DurationAt, Lower;
    TailFine(q);
    TailFine(Tail(q));
    if Head(q).kind != TokString && Head(Tail(q)).kind == TokMinus {
      DurationKeeps(env, Tail(Tail(q)));
    }
  }

  lemma BetweenKeeps(env: Literals, q: seq<Token>)
    requires NamesFine(q) && BetweenAt(env, q).Good?
    ensures NamesFine(BetweenAt(env, q).rest)
  {
    hide TimeAt;
    TailFine(q);
    TimeKeeps(env, Tail(q));
    var s := TimeAt(env, Tail(q)).rest;
    TailFine(s);
    TimeKeeps(env, Tail(s));
    TailFine(TimeAt(env, Tail(s)).rest);
  }

  lemma RangeKeeps(env: Literals, q: seq<Token>)
    requires NamesFine(q) && RangeAt(env, q).Good?
    ensures NamesFine(RangeAt(env, q).rest)
  {
    hide DurationAt, BetweenAt, Lower;
    TailFine(q);
    if IsKeyword(Head(q), "since") {
      DurationKeeps(env, Tail(q));
    } else if IsKeyword(Head(q), "range") {
      BetweenKeeps(env, Tail(q));
    }
  }

  lemma SelectKeeps(env: Literals, q: seq<Token>)
    requires NamesFine(q) && SelectAt(env, q).Good?
    ensures var s := SelectAt(env, q).value;
            && s.SelectText? && (forall m | m in s.selector :: MatcherFine(m)) && forall x | x in s.stages :: StageFine(x)
  {
    hide SelectorAt, RangeAt, StagesAt, StageFine;
    SelectorKeeps(q);
    var r := SelectorAt(q).rest;
    RangeKeeps(env, r);
    StagesKeep(env, RangeAt(env, r).rest);
  }

  /** Every select query that parses is one the optimizer's theorems are about. */
  lemma ParsedIsWellFormed(env: Literals, c: Conversion, src: string)
    requires QueryOf(env, Tokens(src)).Good? && QueryOf(env, Tokens(src)).value.SelectText?
    ensures Optimizer.WellFormedQuery(SelectOf(c, QueryOf(env, Tokens(src)).value))
  {
    hide SelectAt, Tokens, Lower, IsName, Optimizer.Ident;
    var q := Tokens(src);
    ScannedNames(src);
    SelectKeeps(env, q);
    var text := QueryOf(env, q).value;
    var s := SelectOf(c, text);
    forall m | m in s.selector ensures Optimizer.Ident(m.name) {
      NameIsIdent(m.name);
    }
    forall x | x in s.stages ensures Optimizer.WellFormedStage(x) {
      var i :| 0 <= i < |s.stages| && s.stages[i] == x;
      assert text.stages[i] in text.stages && StageFine(text.stages[i]);
      StageIsWellFormed(c, text.stages[i]);
    }
  }

  lemma StageIsWellFormed(c: Conversion, s: StageText)
    requires StageFine(s)
    ensures Optimizer.WellFormedStage(StageOf(c, s))
  {
    hide IsName, Optimizer.Ident;
    match s {
      case FilterText(field, _, _, _) => NameIsIdent(field);
      case AggregationText(exprs, _) =>
        forall e | e in exprs && e.func != Count ensures Optimizer.Ident(e.field) {
          NameIsIdent(e.field);
        }
      case _ =>
    }
  }
}
