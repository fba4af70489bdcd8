/** The query grammar as functions on token sequences, and the proof that parsing undoes writing. */
module Grammar {
  import opened Lexer
  import opened Numerals
  import opened Options
  import opened Plans

  /** Numbers, durations and times stay in their literal form; converting them is not modelled. */
  datatype TimeLiteral = Timestamp(text: string) | Now | NowMinus(duration: string)

  datatype RangeLiteral = LastHour | Since(duration: string) | Between(from: TimeLiteral, to: TimeLiteral)

  datatype StageText =
    | FilterText(field: string, op: CmpOp, number: string, unit: string)
    | AggregationText(exprs: seq<AggExpr>, groupBy: seq<string>)
    | SortText(fields: seq<SortField>)
    | LimitText(n: nat)

  datatype QueryText =
    | TraceText(id: string)
    | SelectText(selector: seq<Matcher>, range: RangeLiteral, stages: seq<StageText>)

  /** Which literals strconv.ParseFloat, time.ParseDuration and time.Parse accept, and whether a range starts before it ends. */
  datatype Literals = Literals(
    float: string -> bool, duration: string -> bool, time: string -> bool, ordered: RangeLiteral -> bool)

  const MAX_INT := 0x7FFF_FFFF_FFFF_FFFF

  /** left is how many tokens were unread at the offending one; None for a range that ends before it starts. */
  datatype Parsed<T> = Good(value: T, rest: seq<Token>) | Bad(left: Option<nat>)

  // ---- Reading tokens ----

  function Head(q: seq<Token>): Token {
    if q == [] then EOF else q[0]
  }

  function Tail(q: seq<Token>): seq<Token> {
    if q == [] then [] else q[1..]
  }

  function Expect(q: seq<Token>, kind: Kind): Parsed<Token> {
    if Head(q).kind == kind then Good(Head(q), Tail(q)) else Bad(Some(|q|))
  }

  function LowerChar(c: char): char {
    if 'A' <= c <= 'Z' then (c as int + 32) as char else c
  }

  function Lower(s: string): string {
    seq(|s|, i requires 0 <= i < |s| => LowerChar(s[i]))
  }

  predicate IsKeyword(t: Token, kw: string) {
    t.kind == TokIdent && Lower(t.lit) == kw
  }

  /** One item, then more behind commas. */
  function ListOf<T>(item: seq<Token> -> Parsed<T>, q: seq<Token>): Parsed<seq<T>>
    decreases |q|
  {
    match item(q)
    case Bad(left) => Bad(left)
    case Good(x, rest) =>
      if Head(rest).kind == TokComma && |rest| <= |q| then
        match ListOf(item, Tail(rest))
        case Bad(left) => Bad(left)
        case Good(xs, r) => Good([x] + xs, r)
      else Good([x], rest)
  }

  // ---- Selector ----

  function LabelOpOf(kind: Kind): Option<LabelOp> {
    match kind
    case TokEq => Some(OpEq)
    case TokNeq => Some(OpNeq)
    case TokRegexEq => Some(OpRegexMatch)
    case TokRegexNeq => Some(OpRegexNotMatch)
    case _ => None
  }

  function MatcherAt(q: seq<Token>): Parsed<Matcher> {
    match Expect(q, TokIdent)
    case Bad(left) => Bad(left)
    case Good(name, r) =>
      match LabelOpOf(Head(r).kind)
      case None => Bad(Some(|r|))
      case Some(op) =>
        var v := Tail(r);
        if Head(v).kind == TokString || Head(v).kind == TokIdent then Good(Matcher(name.lit, op, Head(v).lit), Tail(v))
        else Bad(Some(|v|))
  }

  function SelectorAt(q: seq<Token>): Parsed<seq<Matcher>> {
    match Expect(q, TokLBrace)
    case Bad(left) => Bad(left)
    case Good(_, r) =>
      if Head(r).kind == TokRBrace then Good([], Tail(r))
      else
        match ListOf(MatcherAt, r)
        case Bad(left) => Bad(left)
        case Good(ms, s) => if Head(s).kind == TokRBrace then Good(ms, Tail(s)) else Bad(Some(|s|))
  }

  // ---- Time range ----

  predicate NumberPart(c: char) {
    IsDigit(c) || c == '.'
  }

  /** splitNumberUnit */
  function NumberOf(lit: string): string {
    lit[..Run(lit, NumberPart)]
  }

  function UnitOf(lit: string): string {
    lit[Run(lit, NumberPart)..]
  }

  function DurationAt(env: Literals, q: seq<Token>): Parsed<string> {
    match Expect(q, TokNumber)
    case Bad(left) => Bad(left)
    case Good(t, r) =>
      if env.float(NumberOf(t.lit)) && UnitOf(t.lit) != "" && env.duration(t.lit) then Good(t.lit, r) else Bad(Some(|q|))
  }

  function TimeAt(env: Literals, q: seq<Token>): Parsed<TimeLiteral> {
    if Head(q).kind == TokString then
      if env.time(Head(q).lit) then Good(Timestamp(Head(q).lit), Tail(q)) else Bad(Some(|q|))
    else if IsKeyword(Head(q), "now") then
      var r := Tail(q);
      if Head(r).kind == TokMinus then
        match DurationAt(env, Tail(r))
        case Bad(left) => Bad(left)
        case Good(d, s) => Good(NowMinus(d), s)
      else Good(Now, r)
    else Bad(Some(|q|))
  }

  function BetweenAt(env: Literals, q: seq<Token>): Parsed<RangeLiteral> {
    match Expect(q, TokLParen)
    case Bad(left) => Bad(left)
    case Good(_, r) =>
      match TimeAt(env, r)
      case Bad(left) => Bad(left)
      case Good(from, s) =>
        match Expect(s, TokComma)
        case Bad(left) => Bad(left)
        case Good(_, t) =>
          match TimeAt(env, t)
          case Bad(left) => Bad(left)
          case Good(to, u) =>
            match Expect(u, TokRParen)
            case Bad(left) => Bad(left)
            case Good(_, v) => Good(Between(from, to), v)
  }

  function RangeAt(env: Literals, q: seq<Token>): Parsed<RangeLiteral> {
    if IsKeyword(Head(q), "since") then
      match DurationAt(env, Tail(q))
      case Bad(left) => Bad(left)
      case Good(d, r) => Good(Since(d), r)
    else if IsKeyword(Head(q), "range") then BetweenAt(env, Tail(q))
    else Good(LastHour, q)
  }

  // ---- Stages ----

  function CmpOpOf(kind: Kind): Option<CmpOp> {
    match kind
    case TokGT => Some(CmpGT)
    case TokGTE => Some(CmpGTE)
    case TokLT => Some(CmpLT)
    case TokLTE => Some(CmpLTE)
    case TokEqEq => Some(CmpEQ)
    case TokNeq => Some(CmpNEQ)
    case _ => None
  }

  function FilterAt(env: Literals, q: seq<Token>): Parsed<StageText> {
    var r := Tail(q);
    match CmpOpOf(Head(r).kind)
    case None => Bad(Some(|r|))
    case Some(op) =>
      match Expect(Tail(r), TokNumber)
      case Bad(left) => Bad(left)
      case Good(t, s) =>
        if env.float(NumberOf(t.lit)) then Good(FilterText(Head(q).lit, op, NumberOf(t.lit), UnitOf(t.lit)), s)
        else Bad(Some(|Tail(r)|))
  }

  function AggOf(name: string): Option<AggFunc> {
    if name == "count" then Some(Count)
    else if name == "sum" then Some(Sum)
    else if name == "avg" then Some(Avg)
    else if name == "min" then Some(Min)
    else if name == "max" then Some(Max)
    else if name == "p50" then Some(P50)
    else if name == "p95" then Some(P95)
    else if name == "p99" then Some(P99)
    else None
  }

  /** An unknown function behind a comma reads as the empty function name. */
  function AggFuncAt(t: Token): AggFunc {
    match AggOf(Lower(t.lit))
    case Some(f) => f
    case None => Unsupported("")
  }

  function AggExprAt(q: seq<Token>): Parsed<AggExpr> {
    var f, r := AggFuncAt(Head(q)), Tail(q);
    if f == Count && Head(r).kind != TokLParen then Good(AggExpr(f, ""), r)
    else
      match Expect(r, TokLParen)
      case Bad(left) => Bad(left)
      case Good(_, s) =>
        match Expect(s, TokIdent)
        case Bad(left) => Bad(left)
        case Good(field, t) =>
          match Expect(t, TokRParen)
          case Bad(left) => Bad(left)
          case Good(_, u) => Good(AggExpr(f, field.lit), u)
  }

  function FieldAt(q: seq<Token>): Parsed<string> {
    match Expect(q, TokIdent)
    case Bad(left) => Bad(left)
    case Good(t, r) => Good(t.lit, r)
  }

  /** ( item, ... ) */
  function ParensAt<T>(item: seq<Token> -> Parsed<T>, q: seq<Token>): Parsed<seq<T>> {
    match Expect(q, TokLParen)
    case Bad(left) => Bad(left)
    case Good(_, r) =>
      match ListOf(item, r)
      case Bad(left) => Bad(left)
      case Good(xs, s) =>
        match Expect(s, TokRParen)
        case Bad(left) => Bad(left)
        case Good(_, t) => Good(xs, t)
  }

  function AggregationAt(q: seq<Token>): Parsed<StageText> {
    match ListOf(AggExprAt, q)
    case Bad(left) => Bad(left)
    case Good(exprs, r) =>
      if IsKeyword(Head(r), "by") then
        match ParensAt(FieldAt, Tail(r))
        case Bad(left) => Bad(left)
        case Good(fields, s) => Good(AggregationText(exprs, fields), s)
      else Good(AggregationText(exprs, []), r)
  }

  function SortFieldAt(q: seq<Token>): Parsed<SortField> {
    match Expect(q, TokIdent)
    case Bad(left) => Bad(left)
    case Good(t, r) =>
      if IsKeyword(Head(r), "asc") then Good(SortField(t.lit, false), Tail(r))
      else if IsKeyword(Head(r), "desc") then Good(SortField(t.lit, true), Tail(r))
      else Good(SortField(t.lit, false), r)
  }

  function SortAt(q: seq<Token>): Parsed<StageText> {
    var r := Tail(q);
    if !IsKeyword(Head(r), "by") then Bad(Some(|r|))
    else
      match ParensAt(SortFieldAt, Tail(r))
      case Bad(left) => Bad(left)
      case Good(fields, s) => Good(SortText(fields), s)
  }

  /** strconv.Atoi on an unsigned literal: None when it is not a number of the width. */
  function Atoi(s: string): Option<nat> {
    if s == "" || !AllDigits(s) then None
    else if DigitsValue(s) > MAX_INT then None else Some(DigitsValue(s))
  }

  function LimitAt(q: seq<Token>): Parsed<StageText> {
    match Expect(Tail(q), TokNumber)
    case Bad(left) => Bad(left)
    case Good(t, r) =>
      match Atoi(t.lit)
      case None => Bad(Some(|Tail(q)|))
      case Some(n) => Good(LimitText(n), r)
  }

  predicate IsAggKeyword(t: Token) {
    t.kind == TokIdent && AggOf(Lower(t.lit)).Some?
  }

  function StageAt(env: Literals, q: seq<Token>): Parsed<StageText> {
    if IsAggKeyword(Head(q)) then AggregationAt(q)
    else if IsKeyword(Head(q), "sort") then SortAt(q)
    else if IsKeyword(Head(q), "limit") then LimitAt(q)
    else if Head(q).kind == TokIdent then FilterAt(env, q)
    else Bad(Some(|q|))
  }

  function StagesAt(env: Literals, q: seq<Token>): Parsed<seq<StageText>>
    decreases |q|
  {
    if Head(q).kind != TokPipe then Good([], q)
    else
      match StageAt(env, Tail(q))
      case Bad(left) => Bad(left)
      case Good(stage, r) =>
        if |r| >= |q| then Bad(Some(|q|))
        else
          match StagesAt(env, r)
          case Bad(left) => Bad(left)
          case Good(stages, s) => Good([stage] + stages, s)
  }

  // ---- Queries ----

  function TraceAt(q: seq<Token>): Parsed<QueryText> {
    match Expect(Tail(q), TokLParen)
    case Bad(left) => Bad(left)
    case Good(_, r) =>
      match Expect(r, TokString)
      case Bad(left) => Bad(left)
      case Good(id, s) =>
        match Expect(s, TokRParen)
        case Bad(left) => Bad(left)
        case Good(_, t) => if id.lit == "" then Bad(Some(|r|)) else Good(TraceText(id.lit), t)
  }

  function SelectAt(env: Literals, q: seq<Token>): Parsed<QueryText> {
    match SelectorAt(q)
    case Bad(left) => Bad(left)
    case Good(selector, r) =>
      match RangeAt(env, r)
      case Bad(left) => Bad(left)
      case Good(range, s) =>
        if !env.ordered(range) then Bad(None)
        else
          match StagesAt(env, s)
          case Bad(left) => Bad(left)
          case Good(stages, t) => Good(SelectText(selector, range, stages), t)
  }

  /** Parse: one whole query, nothing behind it. */
  function QueryOf(env: Literals, q: seq<Token>): Parsed<QueryText> {
    if Head(q).kind == TokIllegal then Bad(Some(|q|))
    else
      match (if IsKeyword(Head(q), "trace") then TraceAt(q) else SelectAt(env, q))
      case Bad(left) => Bad(left)
      case Good(query, rest) => if Head(rest).kind == TokEOF then Good(query, rest) else Bad(Some(|rest|))
  }
}
