/** The recursive-descent parser as an object with a current and a lookahead token, against the grammar's functions. */
module QueryParser {
  import opened Grammar
  import opened Lexer
  import opened Numerals
  import opened Options
  import opened Plans

  // ---- Every item takes a token ----

  ghost predicate Takes<T>(item: seq<Token> -> Parsed<T>, q: seq<Token>) {
    item(q).Good? ==> |item(q).rest| < |q|
  }

  lemma MatcherTakes(q: seq<Token>)
    ensures Takes(MatcherAt, q)
  {
  }

  lemma FieldTakes(q: seq<Token>)
    ensures Takes(FieldAt, q)
  {
  }

  lemma SortFieldTakes(q: seq<Token>)
    ensures Takes(SortFieldAt, q)
  {
  }

  lemma AggExprTakes(q: seq<Token>)
    ensures Takes(AggExprAt, q)
  {
  }

  lemma {:induction false} ListTakes<T(!new)>(item: seq<Token> -> Parsed<T>, q: seq<Token>)
    requires forall p: seq<Token> :: Takes(item, p)
    ensures ListOf(item, q).Good? ==> |ListOf(item, q).rest| < |q|
    decreases |q|
  {
    assert Takes(item, q);
    if item(q).Good? && Head(item(q).rest).kind == TokComma {
      ListTakes(item, Tail(item(q).rest));
    }
  }

  function Prepend<T>(xs: seq<T>, p: Parsed<seq<T>>): Parsed<seq<T>> {
    match p
    case Bad(left) => Bad(left)
    case Good(ys, rest) => Good(xs + ys, rest)
  }

  lemma ListStep<T>(item: seq<Token> -> Parsed<T>, q: seq<Token>, xs: seq<T>)
    requires item(q).Good? && |item(q).rest| <= |q|
    ensures var x, rest := item(q).value, item(q).rest;
            if Head(rest).kind == TokComma then
              Prepend(xs, ListOf(item, q)) == Prepend(xs + [x], ListOf(item, Tail(rest)))
            else Prepend(xs, ListOf(item, q)) == Good(xs + [x], rest)
  {
    var x, rest := item(q).value, item(q).rest;
    if Head(rest).kind == TokComma && ListOf(item, Tail(rest)).Good? {
      assert xs + ([x] + ListOf(item, Tail(rest)).value) == xs + [x] + ListOf(item, Tail(rest)).value;
    }
  }

  function Unread(cur: Token, peek: Token, more: seq<Token>): seq<Token> {
    if cur.kind == TokEOF then [] else if peek.kind == TokEOF then [cur] else [cur, peek] + more
  }

  lemma UnreadTail(cur: Token, peek: Token, more: seq<Token>, next: Token, rest: seq<Token>)
    requires cur.kind == TokEOF ==> peek.kind == TokEOF
    requires peek.kind == TokEOF ==> more == []
    requires if next.kind == TokEOF then more == [] && rest == [] else more == [next] + rest
    ensures Unread(peek, next, rest) == Tail(Unread(cur, peek, more))
  {
  }

  lemma UnreadStart(first: Token, second: Token, all: seq<Token>, more: seq<Token>, rest: seq<Token>)
    requires if first.kind == TokEOF then all == [] && more == [] else all == [first] + more
    requires if second.kind == TokEOF then more == [] && rest == [] else more == [second] + rest
    ensures Unread(first, second, rest) == all
  {
  }

  class Parser {
    const lex: Scanner
    const env: Literals
    var cur: Token
    var peek: Token
    /** How many tokens were unread at the last error's token, if it is about one. */
    ghost var left: Option<nat>

    ghost predicate Valid()
      reads this, lex
    {
      && lex.Valid()
      && (cur.kind == TokEOF ==> cur == EOF && peek == EOF)
      && (peek.kind == TokEOF ==> peek == EOF && Tokens(lex.Rest()) == [])
    }

    /** The tokens not yet consumed. */
    ghost function Rest(): seq<Token>
      requires Valid()
      reads this, lex
    {
      Unread(cur, peek, Tokens(lex.Rest()))
    }

    lemma HeadIsCur()
      requires Valid()
      ensures Head(Rest()) == cur && Head(Tail(Rest())) == peek && (Rest() == [] <==> cur.kind == TokEOF)
    {
    }

    ghost predicate Agrees<T>(p: Parsed<T>, r: Option<T>)
      requires Valid()
      reads this, lex
    {
      match p
      case Good(v, rest) => r == Some(v) && Rest() == rest
      case Bad(at) => r == None && left == at
    }

    constructor (src: string, env: Literals)
      ensures Valid() && Rest() == Tokens(src) && this.env == env && fresh(lex)
    {
      hide Tokens, Next, Unread;
      var l := new Scanner(src);
      this.env := env;
      left := None;
      ghost var s := l.Rest();
      var first := l.NextToken();
      ghost var t := l.Rest();
      assert t == s[Next(s).len..];
      var second := l.NextToken();
      assert l.Rest() == t[Next(t).len..];
      TokensStep(s);
      TokensStep(t);
      UnreadStart(first, second, Tokens(src), Tokens(t), Tokens(l.Rest()));
      lex, cur, peek := l, first, second;
    }

    method Advance()
      requires Valid()
      modifies this`cur, this`peek, lex
      ensures Valid() && Rest() == Tail(old(Rest()))
    {
      hide Tokens, Next, Unread;
      ghost var s := lex.Rest();
      ghost var was, ahead := cur, peek;
      cur := peek;
      peek := lex.NextToken();
      assert lex.Rest() == s[Next(s).len..];
      TokensStep(s);
      UnreadTail(was, ahead, Tokens(s), peek, Tokens(lex.Rest()));
    }

    method Expect(kind: Kind) returns (tok: Option<Token>)
      requires Valid()
      modifies this, lex
      ensures Valid() && Agrees(Grammar.Expect(old(Rest()), kind), tok)
    {
      hide Tokens;
      HeadIsCur();
      if cur.kind != kind {
        left := Some(|Rest()|);
        return None;
      }
      tok := Some(cur);
      Advance();
    }

    method CurIsKeyword(kw: string) returns (b: bool)
      requires Valid()
      ensures b == IsKeyword(Head(Rest()), kw)
    {
      HeadIsCur();
      b := cur.kind == TokIdent && Lower(cur.lit) == kw;
    }

    /** Record an error at the current token. */
    ghost method ErrorHere()
      requires Valid()
      modifies this`left
      ensures Valid() && Rest() == old(Rest()) && left == Some(|Rest()|)
    {
      left := Some(|Rest()|);
    }

    method ParseLabelOp() returns (op: Option<LabelOp>)
      requires Valid()
      modifies this, lex
      ensures Valid() && op == LabelOpOf(Head(old(Rest())).kind)
      ensures if op.Some? then Rest() == Tail(old(Rest())) else Rest() == old(Rest()) && left == Some(|Rest()|)
    {
      hide Tokens, Next;
      HeadIsCur();
      op := LabelOpOf(cur.kind);
      if op.Some? {
        Advance();
      } else {
        ErrorHere();
      }
    }

    method ParseMatcher() returns (m: Option<Matcher>)
      requires Valid()
      modifies this, lex
      ensures Valid() && Agrees(MatcherAt(old(Rest())), m)
    {
      hide Tokens, Next, Rest, Valid, LabelOpOf;
      var name := Expect(TokIdent);
      if name.None? {
        return None;
      }
      var op := ParseLabelOp();
      if op.None? {
        return None;
      }
      HeadIsCur();
      if cur.kind != TokString && cur.kind != TokIdent {
        ErrorHere();
        return None;
      }
      m := Some(Matcher(name.value.lit, op.value, cur.lit));
      Advance();
    }

    method ParseMatchers() returns (ms: Option<seq<Matcher>>)
      requires Valid()
      modifies this, lex
      ensures Valid() && Agrees(ListOf(MatcherAt, old(Rest())), ms)
    {
      hide Tokens, Next, Rest, Valid, MatcherAt, ListOf;
      var xs: seq<Matcher> := [];
      ghost var start := ListOf(MatcherAt, Rest());
      PrependNone(start);
      while true
        invariant Valid() && start == Prepend(xs, ListOf(MatcherAt, Rest()))
        decreases |Rest()|
      {
        ghost var here := Rest();
        MatcherTakes(here);
        ListBad(MatcherAt, here);
        var m := ParseMatcher();
        if m.None? {
          return None;
        }
        ListStep(MatcherAt, here, xs);
        xs := xs + [m.value];
        HeadIsCur();
        if cur.kind != TokComma {
          return Some(xs);
        }
        Advance();
      }
    }

    method ParseSelector() returns (ms: Option<seq<Matcher>>)
      requires Valid()
      modifies this, lex
      ensures Valid() && Agrees(SelectorAt(old(Rest())), ms)
    {
      hide Tokens, Next, Rest, Valid, MatcherAt, ListOf;
      var brace := Expect(TokLBrace);
      if brace.None? {
        return None;
      }
      HeadIsCur();
      if cur.kind == TokRBrace {
        Advance();
        return Some([]);
      }
      ms := ParseMatchers();
      if ms.None? {
        return None;
      }
      var close := Expect(TokRBrace);
      if close.None? {
        return None;
      }
    }

    method ParseDuration() returns (d: Option<string>)
      requires Valid()
      modifies this, lex
      ensures Valid() && Agrees(DurationAt(env, old(Rest())), d)
    {
      hide Tokens, Next, Rest, Valid, NumberOf, UnitOf;
      ghost var at := Some(|Rest()|);
      var tok := Expect(TokNumber);
      if tok.None? {
        return None;
      }
      var lit := tok.value.lit;
      if !(env.float(NumberOf(lit)) && UnitOf(lit) != "" && env.duration(lit)) {
        SetLeft(at);
        return None;
      }
      d := Some(lit);
    }

    ghost method SetLeft(at: Option<nat>)
      requires Valid()
      modifies this`left
      ensures Valid() && Rest() == old(Rest()) && left == at
    {
      left := at;
    }

    method ParseTime() returns (t: Option<TimeLiteral>)
      requires Valid()
      modifies this, lex
      ensures Valid() && Agrees(TimeAt(env, old(Rest())), t)
    {
      hide Tokens, Next, Rest, Valid, DurationAt;
      HeadIsCur();
      if cur.kind == TokString {
        var lit := cur.lit;
        ghost var at := Some(|Rest()|);
        Advance();
        if !env.time(lit) {
          SetLeft(at);
          return None;
        }
        return Some(Timestamp(lit));
      }
      var now := CurIsKeyword("now");
      if !now {
        ErrorHere();
        return None;
      }
      Advance();
      HeadIsCur();
      if cur.kind != TokMinus {
        return Some(Now);
      }
      Advance();
      var d := ParseDuration();
      if d.None? {
        return None;
      }
      t := Some(NowMinus(d.value));
    }

    method ParseBetween() returns (r: Option<RangeLiteral>)
      requires Valid()
      modifies this, lex
      ensures Valid() && Agrees(BetweenAt(env, old(Rest())), r)
    {
      hide Tokens, Next, Rest, Valid, TimeAt;
      var paren := Expect(TokLParen);
      if paren.None? {
        return None;
      }
      var from := ParseTime();
      if from.None? {
        return None;
      }
      var comma := Expect(TokComma);
      if comma.None? {
        return None;
      }
      var to := ParseTime();
      if to.None? {
        return None;
      }
      var close := Expect(TokRParen);
      if close.None? {
        return None;
      }
      r := Some(Between(from.value, to.value));
    }

    method ParseTimeRange() returns (r: Option<RangeLiteral>)
      requires Valid()
      modifies this, lex
      ensures Valid() && Agrees(RangeAt(env, old(Rest())), r)
    {
      hide Tokens, Next, Rest, Valid, DurationAt, BetweenAt;
      var since := CurIsKeyword("since");
      var range := CurIsKeyword("range");
      if since {
        Advance();
        var d := ParseDuration();
        if d.None? {
          return None;
        }
        return Some(Since(d.value));
      }
      if !range {
        return Some(LastHour);
      }
      Advance();
      r := ParseBetween();
    }

    method ParseNumericFilter() returns (s: Option<StageText>)
      requires Valid()
      modifies this, lex
      ensures Valid() && Agrees(FilterAt(env, old(Rest())), s)
    {
      hide Tokens, Next, Rest, Valid, NumberOf, UnitOf;
      HeadIsCur();
      var field := cur.lit;
      Advance();
      HeadIsCur();
      var op := CmpOpOf(cur.kind);
      if op.None? {
        ErrorHere();
        return None;
      }
      Advance();
      ghost var at := Some(|Rest()|);
      var num := Expect(TokNumber);
      if num.None? {
        return None;
      }
      var lit := num.value.lit;
      if !env.float(NumberOf(lit)) {
        SetLeft(at);
        return None;
      }
      s := Some(FilterText(field, op.value, NumberOf(lit), UnitOf(lit)));
    }

    method ParseAggExpr() returns (e: Option<AggExpr>)
      requires Valid()
      modifies this, lex
      ensures Valid() && Agrees(AggExprAt(old(Rest())), e)
    {
      hide Tokens, Next, Rest, Valid, AggFuncAt;
      HeadIsCur();
      var f := AggFuncAt(cur);
      Advance();
      HeadIsCur();
      if f == Count && cur.kind != TokLParen {
        return Some(AggExpr(f, ""));
      }
      var paren := Expect(TokLParen);
      if paren.None? {
        return None;
      }
      var field := Expect(TokIdent);
      if field.None? {
        return None;
      }
      var close := Expect(TokRParen);
      if close.None? {
        return None;
      }
      e := Some(AggExpr(f, field.value.lit));
    }

    method ParseAggExprs() returns (es: Option<seq<AggExpr>>)
      requires Valid()
      modifies this, lex
      ensures Valid() && Agrees(ListOf(AggExprAt, old(Rest())), es)
    {
      hide Tokens, Next, Rest, Valid, AggExprAt, ListOf;
      var xs: seq<AggExpr> := [];
      ghost var start := ListOf(AggExprAt, Rest());
      PrependNone(start);
      while true
        invariant Valid() && start == Prepend(xs, ListOf(AggExprAt, Rest()))
        decreases |Rest()|
      {
        ghost var here := Rest();
        AggExprTakes(here);
        ListBad(AggExprAt, here);
        var e := ParseAggExpr();
        if e.None? {
          return None;
        }
        ListStep(AggExprAt, here, xs);
        xs := xs + [e.value];
        HeadIsCur();
        if cur.kind != TokComma {
          return Some(xs);
        }
        Advance();
      }
    }

    method ParseFields() returns (fs: Option<seq<string>>)
      requires Valid()
      modifies this, lex
      ensures Valid() && Agrees(ListOf(FieldAt, old(Rest())), fs)
    {
      hide Tokens, Next, Rest, Valid, ListOf;
      var xs: seq<string> := [];
      ghost var start := ListOf(FieldAt, Rest());
      PrependNone(start);
      while true
        invariant Valid() && start == Prepend(xs, ListOf(FieldAt, Rest()))
        decreases |Rest()|
      {
        ghost var here := Rest();
        FieldTakes(here);
        ListBad(FieldAt, here);
        var f := Expect(TokIdent);
        if f.None? {
          return None;
        }
        ListStep(FieldAt, here, xs);
        xs := xs + [f.value.lit];
        HeadIsCur();
        if cur.kind != TokComma {
          return Some(xs);
        }
        Advance();
      }
    }

    method ParseSortField() returns (f: Option<SortField>)
      requires Valid()
      modifies this, lex
      ensures Valid() && Agrees(SortFieldAt(old(Rest())), f)
    {
      hide Tokens, Next, Rest, Valid, Lower;
      var field := Expect(TokIdent);
      if field.None? {
        return None;
      }
      var asc := CurIsKeyword("asc");
      var desc := CurIsKeyword("desc");
      if asc || desc {
        Advance();
      }
      f := Some(SortField(field.value.lit, !asc && desc));
    }

    method ParseSortFields() returns (fs: Option<seq<SortField>>)
      requires Valid()
      modifies this, lex
      ensures Valid() && Agrees(ListOf(SortFieldAt, old(Rest())), fs)
    {
      hide Tokens, Next, Rest, Valid, SortFieldAt, ListOf;
      var xs: seq<SortField> := [];
      ghost var start := ListOf(SortFieldAt, Rest());
      PrependNone(start);
      while true
        invariant Valid() && start == Prepend(xs, ListOf(SortFieldAt, Rest()))
        decreases |Rest()|
      {
        ghost var here := Rest();
        SortFieldTakes(here);
        ListBad(SortFieldAt, here);
        var f := ParseSortField();
        if f.None? {
          return None;
        }
        ListStep(SortFieldAt, here, xs);
        xs := xs + [f.value];
        HeadIsCur();
        if cur.kind != TokComma {
          return Some(xs);
        }
        Advance();
      }
    }

    method ParseAggregation() returns (s: Option<StageText>)
      requires Valid()
      modifies this, lex
      ensures Valid() && Agrees(AggregationAt(old(Rest())), s)
    {
      hide Tokens, Next, Rest, Valid, AggExprAt, FieldAt, ListOf;
      var exprs := ParseAggExprs();
      if exprs.None? {
        return None;
      }
      var grouped := CurIsKeyword("by");
      if !grouped {
        return Some(AggregationText(exprs.value, []));
      }
      Advance();
      var paren := Expect(TokLParen);
      if paren.None? {
        return None;
      }
      var fields := ParseFields();
      if fields.None? {
        return None;
      }
      var close := Expect(TokRParen);
      if close.None? {
        return None;
      }
      s := Some(AggregationText(exprs.value, fields.value));
    }

    method ParseSort() returns (s: Option<StageText>)
      requires Valid()
      modifies this, lex
      ensures Valid() && Agrees(SortAt(old(Rest())), s)
    {
      hide Tokens, Next, Rest, Valid, SortFieldAt, ListOf;
      Advance();
      var by_ := CurIsKeyword("by");
      if !by_ {
        ErrorHere();
        return None;
      }
      Advance();
      var paren := Expect(TokLParen);
      if paren.None? {
        return None;
      }
      var fields := ParseSortFields();
      if fields.None? {
        return None;
      }
      var close := Expect(TokRParen);
      if close.None? {
        return None;
      }
      s := Some(SortText(fields.value));
    }

    method ParseLimit() returns (s: Option<StageText>)
      requires Valid()
      modifies this, lex
      ensures Valid() && Agrees(LimitAt(old(Rest())), s)
    {
      hide Tokens, Next, Rest, Valid, Atoi;
      Advance();
      ghost var at := Some(|Rest()|);
      var num := Expect(TokNumber);
      if num.None? {
        return None;
      }
      var n := Atoi(num.value.lit);
      if n.None? {
        SetLeft(at);
        return None;
      }
      s := Some(LimitText(n.value));
    }

    method ParseStage() returns (s: Option<StageText>)
      requires Valid()
      modifies this, lex
      ensures Valid() && Agrees(StageAt(env, old(Rest())), s)
    {
      hide Tokens, Next, Rest, Valid, AggregationAt, SortAt, LimitAt, FilterAt;
      HeadIsCur();
      var sort := CurIsKeyword("sort");
      var limit := CurIsKeyword("limit");
      if IsAggKeyword(cur) {
        s := ParseAggregation();
      } else if sort {
        s := ParseSort();
      } else if limit {
        s := ParseLimit();
      } else if cur.kind == TokIdent {
        s := ParseNumericFilter();
      } else {
        ErrorHere();
        return None;
      }
    }

    /** The stage loop of parseSelectQuery. */
    method ParseStages() returns (stages: Option<seq<StageText>>)
      requires Valid()
      modifies this, lex
      ensures Valid() && Agrees(StagesAt(env, old(Rest())), stages)
    {
      hide Tokens, Next, Rest, Valid, StageAt;
      var xs: seq<StageText> := [];
      ghost var start := StagesAt(env, Rest());
      PrependNone(start);
      HeadIsCur();
      while cur.kind == TokPipe
        invariant Valid() && start == Prepend(xs, StagesAt(env, Rest())) && Head(Rest()) == cur
        decreases |Rest()|
      {
        ghost var here := Rest();
        StageTakes(env, Tail(here));
        Advance();
        var stage := ParseStage();
        if stage.None? {
          return None;
        }
        StagesStep(env, here, xs);
        xs := xs + [stage.value];
        HeadIsCur();
      }
      assert xs + [] == xs;
      stages := Some(xs);
    }

    method ParseTraceQuery() returns (q: Option<QueryText>)
      requires Valid()
      modifies this, lex
      ensures Valid() && Agrees(TraceAt(old(Rest())), q)
    {
      hide Tokens, Next, Rest, Valid;
      Advance();
      var paren := Expect(TokLParen);
      if paren.None? {
        return None;
      }
      ghost var at := Some(|Rest()|);
      var id := Expect(TokString);
      if id.None? {
        return None;
      }
      var close := Expect(TokRParen);
      if close.None? {
        return None;
      }
      if id.value.lit == "" {
        SetLeft(at);
        return None;
      }
      q := Some(TraceText(id.value.lit));
    }

    method ParseSelectQuery() returns (q: Option<QueryText>)
      requires Valid()
      modifies this, lex
      ensures Valid() && Agrees(SelectAt(env, old(Rest())), q)
    {
      hide Tokens, Next, Rest, Valid, SelectorAt, RangeAt, StagesAt;
      var selector := ParseSelector();
      if selector.None? {
        return None;
      }
      var range := ParseTimeRange();
      if range.None? {
        return None;
      }
      if !env.ordered(range.value) {
        SetLeft(None);
        return None;
      }
      var stages := ParseStages();
      if stages.None? {
        return None;
      }
      q := Some(SelectText(selector.value, range.value, stages.value));
    }

    /** Parse: the whole input is one query, or an error at a token. */
    method Parse() returns (q: Option<QueryText>)
      requires Valid()
      modifies this, lex
      ensures Valid() && Agrees(QueryOf(env, old(Rest())), q)
    {
      hide Tokens, Next, Rest, Valid, TraceAt, SelectAt;
      HeadIsCur();
      if cur.kind == TokIllegal {
        ErrorHere();
        return None;
      }
      var trace := CurIsKeyword("trace");
      if trace {
        q := ParseTraceQuery();
      } else {
        q := ParseSelectQuery();
      }
      if q.None? {
        return None;
      }
      HeadIsCur();
      if cur.kind != TokEOF {
        ErrorHere();
        return None;
      }
    }
  }

  lemma PrependNone<T>(p: Parsed<seq<T>>)
    ensures Prepend([], p) == p
  {
    if p.Good? {
      assert [] + p.value == p.value;
    }
  }

  lemma ListBad<T>(item: seq<Token> -> Parsed<T>, q: seq<Token>)
    ensures item(q).Bad? ==> ListOf(item, q) == Bad(item(q).left)
  {
  }

  /** Every stage takes a token, so the loop over stages ends. */
  lemma StageTakes(env: Literals, q: seq<Token>)
    ensures StageAt(env, q).Good? ==> |StageAt(env, q).rest| < |q|
  {
    hide ListOf, AggExprAt, SortFieldAt, FieldAt, Lower, AggOf, Atoi, NumberOf, UnitOf;
    forall p: seq<Token> ensures Takes(AggExprAt, p) {
      AggExprTakes(p);
    }
    forall p: seq<Token> ensures Takes(FieldAt, p) {
      FieldTakes(p);
    }
    forall p: seq<Token> ensures Takes(SortFieldAt, p) {
      SortFieldTakes(p);
    }
    ListTakes(AggExprAt, q);
    var grouped := ListOf(AggExprAt, q);
    if grouped.Good? {
      ListTakes(FieldAt, Tail(Tail(grouped.rest)));
    }
    ListTakes(SortFieldAt, Tail(Tail(Tail(q))));
  }

  lemma StagesStep(env: Literals, q: seq<Token>, xs: seq<StageText>)
    requires Head(q).kind == TokPipe && StageAt(env, Tail(q)).Good? && |StageAt(env, Tail(q)).rest| < |Tail(q)|
    ensures Prepend(xs, StagesAt(env, q)) == Prepend(xs + [StageAt(env, Tail(q)).value], StagesAt(env, StageAt(env, Tail(q)).rest))
  {
    hide StageAt;
    var stage, r := StageAt(env, Tail(q)).value, StageAt(env, Tail(q)).rest;
    if StagesAt(env, r).Good? {
      assert xs + ([stage] + StagesAt(env, r).value) == xs + [stage] + StagesAt(env, r).value;
    }
  }

  /** Tokens one at a time; at the end of input the scanner stays there. */
  lemma TokensStep(s: string)
    ensures Next(s).tok.kind != TokEOF ==> Tokens(s) == [Next(s).tok] + Tokens(s[Next(s).len..])
    ensures Next(s).tok.kind == TokEOF ==> Next(s).tok == EOF && Tokens(s) == [] && Tokens(s[Next(s).len..]) == []
  {
    NextAdvances(s);
    if Next(s).tok.kind == TokEOF {
      assert s[Next(s).len..] == "";
      NothingScanned();
    }
  }
}
