/** From the text of a query to the rows its SQL returns and to the text EXPLAIN shows. */
module TextToSql {
  import opened Expressions
  import opened Options
  import opened Plans
  import opened Passes
  import opened Sql
  import opened PhysicalPlanner
  import opened QueryCompiler
  import opened SqlMeaning
  import opened Optimizer
  import opened ExplainText
  import opened ParsedQueries
  import opened QueryMeaning
  import opened SqlTextBack
  import opened CompiledText
  import G = Grammar
  import L = Lexer

  lemma NameIsFixed(s: string)
    requires L.IsName(s)
    ensures Fixed(s) && Quotable(s)
  {
  }

  lemma AliasIsFixedName(e: AggExpr)
    requires AggFine(e)
    ensures Fixed(Alias(e)) && Quotable(Alias(e))
  {
    hide L.IsName;
    if e.field != "" {
      NameIsFixed(e.field);
    }
  }

  ghost predicate StageNamesFixed(s: Stage) {
    match s
    case Aggregation(exprs, groupBy) =>
      (forall f | f in groupBy :: Fixed(f)) && (forall e | e in exprs :: Fixed(Alias(e))) && NamesQuotable(exprs, groupBy)
    case SortStage(fields) => forall f | f in fields :: Fixed(f.field)
    case _ => true
  }

  lemma FineStageNames(c: Conversion, s: G.StageText)
    requires StageFine(s)
    ensures StageNamesFixed(StageOf(c, s))
  {
    hide L.IsName, AggFine, Fixed, Alias, Quotable;
    match s {
      case FilterText(_, _, _, _) =>
      case AggregationText(exprs, groupBy) =>
        forall f | f in groupBy ensures Fixed(f) && Quotable(f) {
          NameIsFixed(f);
        }
        forall e | e in exprs ensures Fixed(Alias(e)) && Quotable(Alias(e)) {
          AliasIsFixedName(e);
        }
      case SortText(fields) =>
        forall f | f in fields ensures Fixed(f.field) {
          NameIsFixed(f.field);
        }
      case LimitText(_) =>
    }
  }

  lemma {:induction false} PartsKeepNames(ms: seq<Matcher>, stages: seq<Stage>)
    requires forall s | s in stages :: StageNamesFixed(s)
    ensures PartsTyped(PartsOf(ms, stages)) && PartNamesFixed(PartsOf(ms, stages))
    ensures var agg := PartsOf(ms, stages).agg; agg.Some? ==> NamesQuotable(agg.value.exprs, agg.value.groupBy)
  {
    hide Fixed, Alias, Quotable;
    if stages != [] {
      PartsKeepNames(ms, stages[..|stages| - 1]);
      assert StageNamesFixed(stages[|stages| - 1]);
    }
  }

  lemma ParsedNamesFixed(env: G.Literals, c: Conversion, src: string)
    requires G.QueryOf(env, L.Tokens(src)).Good? && G.QueryOf(env, L.Tokens(src)).value.SelectText?
    ensures var q := SelectOf(c, G.QueryOf(env, L.Tokens(src)).value);
            PartsTyped(QueryParts(q)) && PartNamesFixed(QueryParts(q)) && QueryQuotable(q)
  {
    hide G.SelectAt, L.Tokens, StageFine, StageNamesFixed, StageOf, G.Lower, PartNamesFixed, NamesQuotable;
    var toks := L.Tokens(src);
    ScannedNames(src);
    SelectKeeps(env, toks);
    var text := G.QueryOf(env, toks).value;
    var q := SelectOf(c, text);
    forall s | s in q.stages ensures StageNamesFixed(s) {
      var i :| 0 <= i < |q.stages| && q.stages[i] == s;
      assert text.stages[i] in text.stages;
      FineStageNames(c, text.stages[i]);
    }
    PartsKeepNames(q.selector, q.stages);
  }

  /** The plan's text with its arguments answers the query, and EXPLAIN shows it with each literal in its place. */
  ghost predicate AnswersAndShows(env: Env, pr: Printer, p: Plan, q: SelectQuery, table: seq<Row>) {
    && Compile(p).Ok?
    && var c := Compile(p).value;
       var text := SqlText(pr, c.sql);
       && RunText(env, text, c.args, table) == Some(Answer(env, q, table))
       && |c.args| == Holes(c.sql)
       && Takes(pr, text, c.args, SqlText(pr, Fill(c.sql, c.args)))
  }

  // Any text that parses to a select query over known columns and compiles: the text sent to the database returns, with its
  // arguments, exactly the rows the query asks for, on every table; and EXPLAIN shows that text with each literal in its place.
  lemma TextRunsAndExplains(
    lits: G.Literals, c: Conversion, env: Env, pr: Printer, src: string, skip: set<string>, table: seq<Row>)
    requires G.QueryOf(lits, L.Tokens(src)).Good? && G.QueryOf(lits, L.Tokens(src)).value.SelectText?
    requires KnownFields(SelectOf(c, G.QueryOf(lits, L.Tokens(src)).value))
    requires SoundSkips(skip) && "partition_pruning" !in skip
    requires Compile(OptimizeExcept(env, Build(SelectOf(c, G.QueryOf(lits, L.Tokens(src)).value)), skip)).Ok?
    ensures var q := SelectOf(c, G.QueryOf(lits, L.Tokens(src)).value);
            AnswersAndShows(env, pr, OptimizeExcept(env, Build(q), skip), q, table)
  {
    hide G.QueryOf, L.Tokens, SelectOf, KnownFields, WellFormedQuery, Compile, OptimizeExcept, Build, Answer, RunText, Takes,
         SqlText, PartNamesFixed, Fill, QueryParts, Full, QueryQuotable;
    var q := SelectOf(c, G.QueryOf(lits, L.Tokens(src)).value);
    ParsedIsWellFormed(lits, c, src);
    ParsedNamesFixed(lits, c, src);
    TextAnswers(env, pr, q, skip, table);
    ExplainedQuery(env, pr, q, skip);
    AlignedExactly(env, q, skip);
    FullHasNoHole(OptimizeExcept(env, Build(q), skip));
    FillErased(Full(OptimizeExcept(env, Build(q), skip)));
  }
}
