/** Writing a query as canonical text and scanning and parsing that text gives the query back. */
module RoundTrip {
  import opened Grammar
  import opened Lexer
  import opened Numerals
  import opened Options
  import opened Plans

  // ---- Writing ----

  /** Ways to spell a query: words as values without quotes, "asc" written out, and keywords in capitals. */
  datatype Style = Style(bare: bool, asc: bool, word: string -> string)

  const WORDS := [
    "asc", "desc", "by", "sort", "limit", "now", "since", "range", "trace", "count", "sum", "avg", "min", "max", "p50", "p95", "p99"]

  /** The same letters, each small or capital. */
  ghost predicate SpelledAs(s: string, word: string) {
    |s| == |word| && forall i | 0 <= i < |s| :: s[i] == word[i] || ('a' <= word[i] <= 'z' && s[i] as int == word[i] as int - 32)
  }

  ghost predicate StyleFine(st: Style) {
    forall w | w in WORDS :: SpelledAs(st.word(w), w)
  }

  function Word(st: Style, w: string): Token {
    Name(st.word(w))
  }

  function Mark(k: Kind): Token {
    Token(k, Punctuation(k))
  }

  function Name(s: string): Token {
    Token(TokIdent, s)
  }

  function Numeral(s: string): Token {
    Token(TokNumber, s)
  }

  function Commas<T>(write: T -> seq<Token>, xs: seq<T>): seq<Token> {
    if xs == [] then []
    else if |xs| == 1 then write(xs[0])
    else write(xs[0]) + [Mark(TokComma)] + Commas(write, xs[1..])
  }

  function LabelOpKind(op: LabelOp): Kind {
    match op
    case OpEq => TokEq
    case OpNeq => TokNeq
    case OpRegexMatch => TokRegexEq
    case OpRegexNotMatch => TokRegexNeq
  }

  function CmpOpKind(op: CmpOp): Kind {
    match op
    case CmpGT => TokGT
    case CmpGTE => TokGTE
    case CmpLT => TokLT
    case CmpLTE => TokLTE
    case CmpEQ => TokEqEq
    case CmpNEQ => TokNeq
  }

  function ValueToken(st: Style, value: string): Token {
    if st.bare && IsName(value) then Token(TokIdent, value) else Token(TokString, value)
  }

  function WriteMatcher(st: Style, m: Matcher): seq<Token> {
    [Name(m.name), Mark(LabelOpKind(m.op)), ValueToken(st, m.value)]
  }

  function WriteSelector(st: Style, ms: seq<Matcher>): seq<Token> {
    [Mark(TokLBrace)] + Commas(MatcherWriter(st), ms) + [Mark(TokRBrace)]
  }

  function WriteTime(st: Style, t: TimeLiteral): seq<Token> {
    match t
    case Timestamp(text) => [Token(TokString, text)]
    case Now => [Word(st, "now")]
    case NowMinus(d) => [Word(st, "now"), Mark(TokMinus), Numeral(d)]
  }

  function WriteRange(st: Style, r: RangeLiteral): seq<Token> {
    match r
    case LastHour => []
    case Since(d) => [Word(st, "since"), Numeral(d)]
    case Between(from, to) =>
      [Word(st, "range"), Mark(TokLParen)] + WriteTime(st, from) + [Mark(TokComma)] + WriteTime(st, to) + [Mark(TokRParen)]
  }

  function WriteAgg(st: Style, e: AggExpr): seq<Token> {
    if e.field == "" then [Word(st, FuncText(e.func))]
    else [Word(st, FuncText(e.func)), Mark(TokLParen), Name(e.field), Mark(TokRParen)]
  }

  function WriteField(f: string): seq<Token> {
    [Name(f)]
  }

  function WriteSortField(st: Style, f: SortField): seq<Token> {
    if f.desc then [Name(f.field), Word(st, "desc")]
    else if st.asc then [Name(f.field), Word(st, "asc")] else [Name(f.field)]
  }

  function MatcherWriter(st: Style): Matcher -> seq<Token> {
    (m: Matcher) => WriteMatcher(st, m)
  }

  function AggWriter(st: Style): AggExpr -> seq<Token> {
    (e: AggExpr) => WriteAgg(st, e)
  }

  function SortWriter(st: Style): SortField -> seq<Token> {
    (f: SortField) => WriteSortField(st, f)
  }

  function WriteParens(inner: seq<Token>): seq<Token> {
    [Mark(TokLParen)] + inner + [Mark(TokRParen)]
  }

  function WriteStage(st: Style, s: StageText): seq<Token> {
    match s
    case FilterText(field, op, number, unit) => [Name(field), Mark(CmpOpKind(op)), Numeral(number + unit)]
    case AggregationText(exprs, groupBy) =>
      Commas(AggWriter(st), exprs) + (if groupBy == [] then [] else [Word(st, "by")] + WriteParens(Commas(WriteField, groupBy)))
    case SortText(fields) => [Word(st, "sort"), Word(st, "by")] + WriteParens(Commas(SortWriter(st), fields))
    case LimitText(n) => [Word(st, "limit"), Numeral(Itoa(n))]
  }

  function WriteStages(st: Style, stages: seq<StageText>): seq<Token> {
    if stages == [] then [] else [Mark(TokPipe)] + WriteStage(st, stages[0]) + WriteStages(st, stages[1..])
  }

  function WriteQuery(st: Style, q: QueryText): seq<Token> {
    match q
    case TraceText(id) => [Word(st, "trace"), Mark(TokLParen), Token(TokString, id), Mark(TokRParen)]
    case SelectText(selector, range, stages) => WriteSelector(st, selector) + WriteRange(st, range) + WriteStages(st, stages)
  }

  // ---- Which queries have canonical text ----

  /** A number of digits and points, then a unit that begins with neither. */
  ghost predicate SplitsAs(lit: string, number: string, unit: string) {
    && lit == number + unit && (forall c | c in number :: c in "0123456789.")
    && (unit == "" || unit[0] !in "0123456789.")
  }

  ghost predicate GoodDuration(env: Literals, d: string) {
    IsNumeral(d) && env.duration(d) && exists number, unit :: SplitsAs(d, number, unit) && unit != "" && env.float(number)
  }

  ghost predicate GoodTime(env: Literals, t: TimeLiteral) {
    match t
    case Timestamp(text) => env.time(text)
    case Now => true
    case NowMinus(d) => GoodDuration(env, d)
  }

  ghost predicate GoodRange(env: Literals, r: RangeLiteral) {
    && env.ordered(r)
    && match r
       case LastHour => true
       case Since(d) => GoodDuration(env, d)
       case Between(from, to) => GoodTime(env, from) && GoodTime(env, to)
  }

  /** A field name a filter may start with: not a stage keyword in any case. */
  predicate PlainField(f: string) {
    IsName(f) && AggOf(Lower(f)).None? && Lower(f) != "sort" && Lower(f) != "limit"
  }

  predicate GoodAgg(e: AggExpr) {
    !e.func.Unsupported? && (IsName(e.field) || (e.field == "" && e.func == Count))
  }

  ghost predicate GoodStage(env: Literals, s: StageText) {
    match s
    case FilterText(field, op, number, unit) =>
      PlainField(field) && IsNumeral(number + unit) && SplitsAs(number + unit, number, unit) && env.float(number)
    case AggregationText(exprs, groupBy) =>
      exprs != [] && (forall e | e in exprs :: GoodAgg(e)) && forall f | f in groupBy :: IsName(f)
    case SortText(fields) => fields != [] && forall f | f in fields :: IsName(f.field)
    case LimitText(n) => n <= MAX_INT
  }

  ghost predicate Canonical(env: Literals, q: QueryText) {
    match q
    case TraceText(id) => id != ""
    case SelectText(selector, range, stages) =>
      && (forall m | m in selector :: IsName(m.name))
      && GoodRange(env, range)
      && forall s | s in stages :: GoodStage(env, s)
  }

  // ---- Lists ----

  /** What may stand behind a list or one of its items. */
  predicate Closes(t: Token) {
    t.kind == TokRBrace || t.kind == TokRParen || t.kind == TokPipe || t.kind == TokEOF || IsKeyword(t, "by")
  }

  predicate EndsItem(t: Token) {
    t.kind == TokComma || Closes(t)
  }

  /** item reads x back whatever follows. */
  ghost predicate ReadsItem<T(!new)>(item: seq<Token> -> Parsed<T>, write: T -> seq<Token>, x: T) {
    forall p: seq<Token> | EndsItem(Head(p)) :: item(write(x) + p) == Good(x, p)
  }

  lemma {:induction false} ListBack<T(!new)>(item: seq<Token> -> Parsed<T>, write: T -> seq<Token>, xs: seq<T>, post: seq<Token>)
    requires xs != [] && (forall x | x in xs :: ReadsItem(item, write, x)) && Closes(Head(post))
    ensures ListOf(item, Commas(write, xs) + post) == Good(xs, post)
    decreases |xs|
  {
    assert ReadsItem(item, write, xs[0]);
    if |xs| == 1 {
      assert item(write(xs[0]) + post) == Good(xs[0], post);
      assert xs == [xs[0]];
    } else {
      var more := [Mark(TokComma)] + (Commas(write, xs[1..]) + post);
      assert Commas(write, xs) + post == write(xs[0]) + more;
      assert item(write(xs[0]) + more) == Good(xs[0], more);
      assert Tail(more) == Commas(write, xs[1..]) + post;
      assert forall x | x in xs[1..] :: x in xs;
      ListBack(item, write, xs[1..], post);
      assert [xs[0]] + xs[1..] == xs;
    }
  }

  lemma OneToken(t: Token, q: seq<Token>)
    ensures Head([t] + q) == t && Tail([t] + q) == q
  {
  }

  lemma MatcherReads(st: Style, m: Matcher, p: seq<Token>)
    ensures MatcherAt(WriteMatcher(st, m) + p) == Good(m, p)
  {
    hide Head, Tail;
    var op, v := Mark(LabelOpKind(m.op)), ValueToken(st, m.value);
    assert WriteMatcher(st, m) + p == [Name(m.name)] + ([op] + ([v] + p));
    OneToken(Name(m.name), [op] + ([v] + p));
    OneToken(op, [v] + p);
    OneToken(v, p);
  }

  lemma MatcherBack(st: Style, m: Matcher)
    ensures ReadsItem(MatcherAt, MatcherWriter(st), m)
  {
    hide MatcherAt, WriteMatcher;
    forall p: seq<Token> | EndsItem(Head(p)) ensures MatcherAt(WriteMatcher(st, m) + p) == Good(m, p) {
      MatcherReads(st, m, p);
    }
  }

  lemma FieldBack(f: string)
    ensures ReadsItem(FieldAt, WriteField, f)
  {
    forall p: seq<Token> | EndsItem(Head(p)) ensures FieldAt(WriteField(f) + p) == Good(f, p) {
      assert Tail(WriteField(f) + p) == p;
    }
  }

  predicate NoCapitals(w: string) {
    forall c | c in w :: !('A' <= c <= 'Z')
  }

  lemma SpelledLowers(s: string, w: string)
    requires SpelledAs(s, w) && NoCapitals(w)
    ensures Lower(s) == w
  {
    forall i | 0 <= i < |s| ensures LowerChar(s[i]) == w[i] {
      assert w[i] in w;
    }
  }

  lemma WordsAreSmall()
    ensures forall w | w in WORDS :: NoCapitals(w) && IsName(w)
  {
  }

  lemma SpelledIsName(s: string, w: string)
    requires SpelledAs(s, w) && IsName(w)
    ensures IsName(s)
  {
    forall c | c in s ensures IsIdentPart(c) {
      var i :| 0 <= i < |s| && s[i] == c;
      assert w[i] in w;
    }
  }

  lemma WordLowers(st: Style, w: string)
    requires StyleFine(st) && w in WORDS
    ensures Lower(st.word(w)) == w && IsName(st.word(w))
  {
    hide SpelledAs, NoCapitals, IsName, Lower;
    WordsAreSmall();
    SpelledLowers(st.word(w), w);
    SpelledIsName(st.word(w), w);
  }

  lemma LowerWords(st: Style)
    requires StyleFine(st)
    ensures Lower(st.word("asc")) == "asc" && Lower(st.word("desc")) == "desc" && Lower(st.word("by")) == "by"
    ensures Lower(st.word("sort")) == "sort" && Lower(st.word("limit")) == "limit" && Lower(st.word("now")) == "now"
    ensures Lower(st.word("since")) == "since" && Lower(st.word("range")) == "range" && Lower(st.word("trace")) == "trace"
  {
    hide StyleFine, Lower, IsName;
    WordLowers(st, "asc");
    WordLowers(st, "desc");
    WordLowers(st, "by");
    WordLowers(st, "sort");
    WordLowers(st, "limit");
    WordLowers(st, "now");
    WordLowers(st, "since");
    WordLowers(st, "range");
    WordLowers(st, "trace");
  }

  lemma SortFieldBack(st: Style, f: SortField)
    requires StyleFine(st)
    ensures ReadsItem(SortFieldAt, SortWriter(st), f)
  {
    hide StyleFine, Lower;
    LowerWords(st);
    forall p: seq<Token> | EndsItem(Head(p)) ensures SortFieldAt(WriteSortField(st, f) + p) == Good(f, p) {
      var q := WriteSortField(st, f) + p;
      if f.desc {
        assert Tail(q) == [Word(st, "desc")] + p;
        assert Tail(Tail(q)) == p;
      } else if st.asc {
        assert Tail(q) == [Word(st, "asc")] + p;
        assert Tail(Tail(q)) == p;
      } else {
        assert Tail(q) == p;
      }
    }
  }

  lemma FuncBack(st: Style, f: AggFunc)
    requires !f.Unsupported? && StyleFine(st)
    ensures AggOf(Lower(st.word(FuncText(f)))) == Some(f) && IsName(st.word(FuncText(f)))
  {
    hide Lower, StyleFine, IsName;
    assert FuncText(f) in WORDS;
    WordLowers(st, FuncText(f));
  }

  lemma AggReads(st: Style, e: AggExpr, p: seq<Token>)
    requires StyleFine(st)
    requires GoodAgg(e) && EndsItem(Head(p))
    ensures AggExprAt(WriteAgg(st, e) + p) == Good(e, p)
  {
    hide Tail, AggOf, Lower, FuncText, StyleFine;
    FuncBack(st, e.func);
    var f := Word(st, FuncText(e.func));
    if e.field == "" {
      assert WriteAgg(st, e) + p == [f] + p;
      OneToken(f, p);
    } else {
      var open_, field, close := Mark(TokLParen), Name(e.field), Mark(TokRParen);
      assert WriteAgg(st, e) + p == [f] + ([open_] + ([field] + ([close] + p)));
      OneToken(f, [open_] + ([field] + ([close] + p)));
      OneToken(open_, [field] + ([close] + p));
      OneToken(field, [close] + p);
      OneToken(close, p);
    }
  }

  lemma AggBack(st: Style, e: AggExpr)
    requires StyleFine(st)
    requires GoodAgg(e)
    ensures ReadsItem(AggExprAt, AggWriter(st), e)
  {
    hide AggExprAt, WriteAgg, StyleFine;
    forall p: seq<Token> | EndsItem(Head(p)) ensures AggExprAt(WriteAgg(st, e) + p) == Good(e, p) {
      AggReads(st, e, p);
    }
  }

  lemma ParensBack<T(!new)>(item: seq<Token> -> Parsed<T>, write: T -> seq<Token>, xs: seq<T>, post: seq<Token>)
    requires xs != [] && forall x | x in xs :: ReadsItem(item, write, x)
    ensures ParensAt(item, WriteParens(Commas(write, xs)) + post) == Good(xs, post)
  {
    hide ReadsItem, ListOf, Commas;
    var q := WriteParens(Commas(write, xs)) + post;
    var close := [Mark(TokRParen)] + post;
    assert Tail(q) == Commas(write, xs) + close;
    ListBack(item, write, xs, close);
    assert Tail(close) == post;
  }

  // ---- Ranges ----

  lemma NumberSplits(number: string, unit: string)
    requires SplitsAs(number + unit, number, unit)
    ensures NumberOf(number + unit) == number && UnitOf(number + unit) == unit
  {
    var lit, digits := number + unit, "0123456789.";
    assert forall c: char :: c in digits <==> NumberPart(c);
    var n := Run(lit, NumberPart);
    assert forall i | 0 <= i < |number| :: lit[i] == number[i] && number[i] in number;
    assert unit != "" ==> lit[|number|] == unit[0];
    assert lit[..|number|] == number && lit[|number|..] == unit;
  }

  lemma SplitJoins(lit: string, number: string, unit: string)
    requires SplitsAs(lit, number, unit)
    ensures lit == number + unit
  {
  }

  lemma DurationBack(env: Literals, d: string, post: seq<Token>)
    requires GoodDuration(env, d)
    ensures DurationAt(env, [Numeral(d)] + post) == Good(d, post)
  {
    hide NumberOf, UnitOf, SplitsAs;
    assert Tail([Numeral(d)] + post) == post;
    var number, unit :| SplitsAs(d, number, unit) && unit != "" && env.float(number);
    SplitJoins(d, number, unit);
    NumberSplits(number, unit);
  }

  lemma TimeBack(st: Style, env: Literals, t: TimeLiteral, post: seq<Token>)
    requires StyleFine(st)
    requires GoodTime(env, t) && Head(post).kind != TokMinus
    ensures TimeAt(env, WriteTime(st, t) + post) == Good(t, post)
  {
    hide DurationAt, GoodDuration, StyleFine, Lower;
    LowerWords(st);
    var q := WriteTime(st, t) + post;
    match t {
      case Timestamp(_) => assert Tail(q) == post;
      case Now => assert Tail(q) == post;
      case NowMinus(d) =>
        assert Tail(q) == [Mark(TokMinus), Numeral(d)] + post;
        assert Tail(Tail(q)) == [Numeral(d)] + post;
        DurationBack(env, d, post);
    }
  }

  lemma BetweenBack(st: Style, env: Literals, from: TimeLiteral, to: TimeLiteral, post: seq<Token>)
    requires StyleFine(st)
    requires GoodTime(env, from) && GoodTime(env, to)
    ensures var q := [Mark(TokLParen)] + WriteTime(st, from) + [Mark(TokComma)] + WriteTime(st, to) + [Mark(TokRParen)] + post;
            BetweenAt(env, q) == Good(Between(from, to), post)
  {
    hide TimeAt, GoodTime, WriteTime, StyleFine;
    var q := [Mark(TokLParen)] + WriteTime(st, from) + [Mark(TokComma)] + WriteTime(st, to) + [Mark(TokRParen)] + post;
    var u := [Mark(TokRParen)] + post;
    var t := WriteTime(st, to) + u;
    var s := [Mark(TokComma)] + t;
    assert Tail(q) == WriteTime(st, from) + s;
    TimeBack(st, env, from, s);
    assert Tail(s) == t;
    TimeBack(st, env, to, u);
    assert Tail(u) == post;
  }

  lemma RangeBack(st: Style, env: Literals, r: RangeLiteral, post: seq<Token>)
    requires StyleFine(st)
    requires GoodRange(env, r) && (Head(post).kind == TokPipe || Head(post).kind == TokEOF)
    ensures RangeAt(env, WriteRange(st, r) + post) == Good(r, post)
  {
    hide DurationAt, GoodDuration, BetweenAt, WriteTime, GoodTime, StyleFine, Lower;
    LowerWords(st);
    var q := WriteRange(st, r) + post;
    match r {
      case LastHour => assert q == post;
      case Since(d) =>
        assert Tail(q) == [Numeral(d)] + post;
        DurationBack(env, d, post);
      case Between(from, to) =>
        assert Tail(q) == [Mark(TokLParen)] + WriteTime(st, from) + [Mark(TokComma)] + WriteTime(st, to) + [Mark(TokRParen)] + post;
        BetweenBack(st, env, from, to, post);
    }
  }

  // ---- Stages ----

  lemma FilterReads(st: Style, env: Literals, s: StageText, post: seq<Token>)
    requires s.FilterText? && GoodStage(env, s)
    ensures FilterAt(env, WriteStage(st, s) + post) == Good(s, post)
    ensures Head(WriteStage(st, s) + post) == Name(s.field)
  {
    hide Head, Tail, NumberOf, UnitOf, IsNumeral, PlainField, SplitsAs;
    var op, lit := Mark(CmpOpKind(s.op)), Numeral(s.number + s.unit);
    NumberSplits(s.number, s.unit);
    assert WriteStage(st, s) + post == [Name(s.field)] + ([op] + ([lit] + post));
    OneToken(Name(s.field), [op] + ([lit] + post));
    OneToken(op, [lit] + post);
    OneToken(lit, post);
  }

  lemma FilterBack(st: Style, env: Literals, s: StageText, post: seq<Token>)
    requires StyleFine(st)
    requires s.FilterText? && GoodStage(env, s)
    ensures StageAt(env, WriteStage(st, s) + post) == Good(s, post)
  {
    hide FilterAt, WriteStage, AggOf, Lower, NumberOf, StyleFine;
    FilterReads(st, env, s, post);
  }

  lemma AggListBack(st: Style, exprs: seq<AggExpr>, post: seq<Token>)
    requires StyleFine(st)
    requires exprs != [] && (forall e | e in exprs :: GoodAgg(e)) && Closes(Head(post))
    ensures ListOf(AggExprAt, Commas(AggWriter(st), exprs) + post) == Good(exprs, post)
    ensures IsAggKeyword(Head(Commas(AggWriter(st), exprs) + post))
  {
    hide AggExprAt, ReadsItem, ListOf, AggOf, Lower, StyleFine;
    forall e | e in exprs ensures ReadsItem(AggExprAt, AggWriter(st), e) {
      AggBack(st, e);
    }
    ListBack(AggExprAt, AggWriter(st), exprs, post);
    assert GoodAgg(exprs[0]);
    FuncBack(st, exprs[0].func);
  }

  lemma AggregationBack(st: Style, env: Literals, s: StageText, post: seq<Token>)
    requires StyleFine(st)
    requires s.AggregationText? && GoodStage(env, s) && (Head(post).kind == TokPipe || Head(post).kind == TokEOF)
    ensures StageAt(env, WriteStage(st, s) + post) == Good(s, post)
  {
    hide AggExprAt, FieldAt, ListOf, ParensAt, Commas, IsAggKeyword, WriteParens, GoodAgg, Lower, StyleFine;
    LowerWords(st);
    var q := WriteStage(st, s) + post;
    if s.groupBy == [] {
      assert q == Commas(AggWriter(st), s.exprs) + post;
      AggListBack(st, s.exprs, post);
    } else {
      var group := WriteParens(Commas(WriteField, s.groupBy)) + post;
      var more := [Word(st, "by")] + group;
      assert q == Commas(AggWriter(st), s.exprs) + more;
      AggListBack(st, s.exprs, more);
      assert Tail(more) == group;
      forall f | f in s.groupBy ensures ReadsItem(FieldAt, WriteField, f) {
        FieldBack(f);
      }
      ParensBack(FieldAt, WriteField, s.groupBy, post);
    }
  }

  lemma SortBack(st: Style, env: Literals, s: StageText, post: seq<Token>)
    requires StyleFine(st)
    requires s.SortText? && GoodStage(env, s)
    ensures StageAt(env, WriteStage(st, s) + post) == Good(s, post)
  {
    hide SortFieldAt, ListOf, ParensAt, Commas, WriteParens, Lower, StyleFine;
    LowerWords(st);
    var q := WriteStage(st, s) + post;
    var fields := WriteParens(Commas(SortWriter(st), s.fields)) + post;
    assert Tail(q) == [Word(st, "by")] + fields;
    assert Tail(Tail(q)) == fields;
    forall f | f in s.fields ensures ReadsItem(SortFieldAt, SortWriter(st), f) {
      SortFieldBack(st, f);
    }
    ParensBack(SortFieldAt, SortWriter(st), s.fields, post);
  }

  lemma LimitBack(st: Style, env: Literals, s: StageText, post: seq<Token>)
    requires StyleFine(st)
    requires s.LimitText? && GoodStage(env, s)
    ensures StageAt(env, WriteStage(st, s) + post) == Good(s, post)
  {
    hide Lower, Itoa, DigitsValue, StyleFine;
    LowerWords(st);
    ItoaUndone(s.n);
    var q := WriteStage(st, s) + post;
    assert Tail(q) == [Numeral(Itoa(s.n))] + post;
    assert Tail(Tail(q)) == post;
  }

  /** A limit reads back exactly if it fits a signed 64-bit integer. */
  lemma AtoiExactly(n: nat)
    ensures Atoi(Itoa(n)) == if n <= 9223372036854775807 then Some(n) else None
  {
    hide Itoa, DigitsValue;
    ItoaUndone(n);
  }

  lemma StageBack(st: Style, env: Literals, s: StageText, post: seq<Token>)
    requires StyleFine(st)
    requires GoodStage(env, s) && (Head(post).kind == TokPipe || Head(post).kind == TokEOF)
    ensures StageAt(env, WriteStage(st, s) + post) == Good(s, post)
  {
    hide StageAt, WriteStage, GoodStage, StyleFine;
    match s {
      case FilterText(_, _, _, _) => FilterBack(st, env, s, post);
      case AggregationText(_, _) => AggregationBack(st, env, s, post);
      case SortText(_) => SortBack(st, env, s, post);
      case LimitText(_) => LimitBack(st, env, s, post);
    }
  }

  lemma {:induction false} StagesBack(st: Style, env: Literals, stages: seq<StageText>)
    requires StyleFine(st)
    requires forall s | s in stages :: GoodStage(env, s)
    ensures StagesAt(env, WriteStages(st, stages)) == Good(stages, [])
    ensures Head(WriteStages(st, stages)).kind == TokPipe || Head(WriteStages(st, stages)).kind == TokEOF
  {
    hide StageAt, WriteStage, GoodStage, StyleFine;
    if stages != [] {
      var more := WriteStages(st, stages[1..]);
      var q := WriteStages(st, stages);
      assert q == [Mark(TokPipe)] + (WriteStage(st, stages[0]) + more);
      assert Tail(q) == WriteStage(st, stages[0]) + more;
      StagesBack(st, env, stages[1..]);
      StageBack(st, env, stages[0], more);
      assert [stages[0]] + stages[1..] == stages;
    }
  }

  // ---- Queries ----

  lemma SelectorBack(st: Style, ms: seq<Matcher>, post: seq<Token>)
    ensures SelectorAt(WriteSelector(st, ms) + post) == Good(ms, post)
  {
    hide MatcherAt, ListOf, ReadsItem;
    var q := WriteSelector(st, ms) + post;
    var close := [Mark(TokRBrace)] + post;
    assert Tail(q) == Commas(MatcherWriter(st), ms) + close;
    assert Tail(close) == post;
    if ms == [] {
      assert Tail(q) == close;
    } else {
      forall m | m in ms ensures ReadsItem(MatcherAt, MatcherWriter(st), m) {
        MatcherBack(st, m);
      }
      ListBack(MatcherAt, MatcherWriter(st), ms, close);
      assert Head(Tail(q)) == Name(ms[0].name);
    }
  }

  lemma SelectBack(st: Style, env: Literals, q: QueryText)
    requires StyleFine(st)
    requires q.SelectText? && Canonical(env, q)
    ensures SelectAt(env, WriteQuery(st, q)) == Good(q, [])
    ensures Head(WriteQuery(st, q)).kind == TokLBrace
  {
    hide SelectorAt, RangeAt, StagesAt, Commas, WriteRange, WriteStages, GoodStage, StyleFine;
    var stages := WriteStages(st, q.stages);
    var range := WriteRange(st, q.range) + stages;
    assert WriteQuery(st, q) == WriteSelector(st, q.selector) + range;
    StagesBack(st, env, q.stages);
    RangeBack(st, env, q.range, stages);
    SelectorBack(st, q.selector, range);
  }

  lemma TraceBack(st: Style, env: Literals, id: string)
    requires StyleFine(st)
    requires id != ""
    ensures TraceAt(WriteQuery(st, TraceText(id))) == Good(TraceText(id), [])
  {
    hide StyleFine, Lower;
    var q := WriteQuery(st, TraceText(id));
    assert Tail(q) == [Mark(TokLParen), Token(TokString, id), Mark(TokRParen)];
    assert Tail(Tail(q)) == [Token(TokString, id), Mark(TokRParen)];
    assert Tail(Tail(Tail(q))) == [Mark(TokRParen)];
  }

  /** Parsing a canonical query's tokens, in any style, gives the query. */
  lemma ParsingUndone(st: Style, env: Literals, q: QueryText)
    requires StyleFine(st)
    requires Canonical(env, q)
    ensures QueryOf(env, WriteQuery(st, q)) == Good(q, [])
  {
    hide SelectAt, TraceAt, Lower, WriteSelector, WriteRange, WriteStages, GoodStage, GoodRange, StyleFine;
    LowerWords(st);
    match q {
      case TraceText(id) => TraceBack(st, env, id);
      case SelectText(_, _, _) => SelectBack(st, env, q);
    }
  }

  // ---- The text ----

  ghost predicate AllWritable(q: seq<Token>) {
    forall t | t in q :: Writable(t)
  }

  lemma {:induction false} CommasWritable<T>(write: T -> seq<Token>, xs: seq<T>)
    requires forall x | x in xs :: AllWritable(write(x))
    ensures AllWritable(Commas(write, xs))
    decreases |xs|
  {
    if xs != [] {
      CommasWritable(write, xs[1..]);
    }
  }

  lemma {:induction false} ItoaIsNumeral(n: nat)
    ensures IsNumeral(Itoa(n))
  {
    hide Run, Itoa;
    ItoaUndone(n);
    AllDigitsRun(Itoa(n));
  }

  lemma {:induction false} AllDigitsRun(s: string)
    requires AllDigits(s) && s != ""
    ensures IsNumeral(s)
  {
    RunAll(s);
    assert s[|s|..] == "";
    assert Run("", IsUnitLetter) == 0;
  }

  lemma {:induction false} RunAll(s: string)
    requires AllDigits(s)
    ensures Run(s, IsDigit) == |s|
  {
    if s != "" {
      RunAll(s[1..]);
    }
  }

  lemma WordsAreNames(st: Style)
    requires StyleFine(st)
    ensures IsName(st.word("by")) && IsName(st.word("sort")) && IsName(st.word("limit")) && IsName(st.word("now"))
    ensures IsName(st.word("since")) && IsName(st.word("range")) && IsName(st.word("trace")) && IsName(st.word("desc"))
    ensures IsName(st.word("asc"))
  {
    hide StyleFine, Lower, IsName;
    WordLowers(st, "by");
    WordLowers(st, "sort");
    WordLowers(st, "limit");
    WordLowers(st, "now");
    WordLowers(st, "since");
    WordLowers(st, "range");
    WordLowers(st, "trace");
    WordLowers(st, "desc");
    WordLowers(st, "asc");
  }

  lemma TimeWritable(st: Style, env: Literals, t: TimeLiteral)
    requires StyleFine(st)
    requires GoodTime(env, t)
    ensures AllWritable(WriteTime(st, t))
  {
    hide IsName, IsNumeral, StyleFine, Lower;
    WordsAreNames(st);
  }

  lemma RangeWritable(st: Style, env: Literals, r: RangeLiteral)
    requires StyleFine(st)
    requires GoodRange(env, r)
    ensures AllWritable(WriteRange(st, r))
  {
    hide IsName, IsNumeral, WriteTime, StyleFine, Lower;
    WordsAreNames(st);
    if r.Between? {
      TimeWritable(st, env, r.from);
      TimeWritable(st, env, r.to);
    }
  }

  lemma SortsWritable(st: Style, fields: seq<SortField>)
    requires StyleFine(st) && forall f | f in fields :: IsName(f.field)
    ensures AllWritable(Commas(SortWriter(st), fields))
  {
    hide IsName, Commas, StyleFine;
    WordsAreNames(st);
    CommasWritable(SortWriter(st), fields);
  }

  lemma ParensWritable(inner: seq<Token>)
    requires AllWritable(inner)
    ensures AllWritable(WriteParens(inner))
  {
  }

  lemma FilterWritable(st: Style, env: Literals, s: StageText)
    requires s.FilterText? && GoodStage(env, s)
    ensures AllWritable(WriteStage(st, s))
  {
    hide IsName, IsNumeral, AggOf, Lower, SplitsAs;
  }

  lemma StageWritable(st: Style, env: Literals, s: StageText)
    requires StyleFine(st)
    requires GoodStage(env, s)
    ensures AllWritable(WriteStage(st, s))
  {
    hide IsName, IsNumeral, Commas, NumberOf, AggOf, Lower, Itoa, StyleFine, WriteParens, SplitsAs;
    WordsAreNames(st);
    match s {
      case FilterText(_, _, _, _) => FilterWritable(st, env, s);
      case LimitText(n) => ItoaIsNumeral(n);
      case SortText(fields) =>
        SortsWritable(st, fields);
        ParensWritable(Commas(SortWriter(st), fields));
      case AggregationText(exprs, groupBy) =>
        AggsWritable(st, exprs);
        CommasWritable(WriteField, groupBy);
        ParensWritable(Commas(WriteField, groupBy));
    }
  }

  lemma AggsWritable(st: Style, exprs: seq<AggExpr>)
    requires StyleFine(st)
    requires forall e | e in exprs :: GoodAgg(e)
    ensures AllWritable(Commas(AggWriter(st), exprs))
  {
    hide IsName, Commas, FuncText, StyleFine;
    forall e | e in exprs ensures AllWritable(WriteAgg(st, e)) {
      FuncBack(st, e.func);
    }
    CommasWritable(AggWriter(st), exprs);
  }

  lemma {:induction false} StagesWritable(st: Style, env: Literals, stages: seq<StageText>)
    requires StyleFine(st)
    requires forall s | s in stages :: GoodStage(env, s)
    ensures AllWritable(WriteStages(st, stages))
  {
    hide GoodStage, WriteStage, StyleFine;
    if stages != [] {
      StageWritable(st, env, stages[0]);
      StagesWritable(st, env, stages[1..]);
    }
  }

  lemma SelectorWritable(st: Style, ms: seq<Matcher>)
    requires forall m | m in ms :: IsName(m.name)
    ensures AllWritable(WriteSelector(st, ms))
  {
    hide IsName, Commas;
    CommasWritable(MatcherWriter(st), ms);
  }

  lemma QueryWritable(st: Style, env: Literals, q: QueryText)
    requires StyleFine(st)
    requires Canonical(env, q)
    ensures AllWritable(WriteQuery(st, q))
  {
    hide IsName, IsNumeral, WriteSelector, WriteStages, WriteRange, GoodStage, GoodRange, StyleFine;
    WordsAreNames(st);
    if q.SelectText? {
      SelectorWritable(st, q.selector);
      RangeWritable(st, env, q.range);
      StagesWritable(st, env, q.stages);
    }
  }

  /** Scanning and parsing a canonical query's text, in any style, gives the query back, whatever its strings contain. */
  lemma TextRoundTrip(st: Style, env: Literals, q: QueryText)
    requires StyleFine(st)
    requires Canonical(env, q)
    ensures QueryOf(env, Tokens(Written(WriteQuery(st, q)))) == Good(q, [])
  {
    hide Canonical, QueryOf, WriteQuery, Tokens, Written, StyleFine;
    QueryWritable(st, env, q);
    ScanningUndone(WriteQuery(st, q));
    ParsingUndone(st, env, q);
  }
}
