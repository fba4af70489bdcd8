/** The query language's scanner: what it reads from a text, that it always gets further, and that it undoes quoting. */
module Lexer {

  datatype Kind =
    | TokEOF | TokIllegal
    | TokLBrace | TokRBrace | TokLParen | TokRParen | TokComma | TokPipe | TokMinus
    | TokEq | TokNeq | TokRegexEq | TokRegexNeq | TokEqEq | TokGT | TokGTE | TokLT | TokLTE
    | TokIdent | TokString | TokNumber

  datatype Token = Token(kind: Kind, lit: string)

  const EOF := Token(TokEOF, "")

  // ---- Character classes ----

  predicate IsDigit(b: char) {
    '0' <= b <= '9'
  }

  predicate IsUnitLetter(b: char) {
    'a' <= b <= 'z' || 'A' <= b <= 'Z'
  }

  predicate IsIdentStart(b: char) {
    IsUnitLetter(b) || b == '_'
  }

  predicate IsIdentPart(b: char) {
    IsIdentStart(b) || IsDigit(b) || b == '.'
  }

  predicate IsSpace(b: char) {
    b == ' ' || b == '\t' || b == '\r' || b == '\n'
  }

  // ---- What a scan takes from the front of a text ----

  /** How many leading characters satisfy a test. */
  function Run(s: string, test: char -> bool): (n: nat)
    ensures n <= |s| && forall i | 0 <= i < n :: test(s[i])
    ensures n < |s| ==> !test(s[n])
  {
    if s == [] || !test(s[0]) then 0 else 1 + Run(s[1..], test)
  }

  function Spaces(s: string): (n: nat)
    ensures n <= |s|
  {
    Run(s, IsSpace)
  }

  /** scanDigitRun: digits, and a fraction if a digit follows the point. */
  function DigitRun(s: string): (n: nat)
    ensures n <= |s|
  {
    var d := Run(s, IsDigit);
    if d + 1 < |s| && s[d] == '.' && IsDigit(s[d + 1]) then d + 1 + Run(s[d + 1..], IsDigit) else d
  }

  function Unit(s: string): (n: nat)
    ensures DigitRun(s) + n <= |s|
  {
    Run(s[DigitRun(s)..], IsUnitLetter)
  }

  /** A digit follows the unit with no gap. */
  predicate Compound(s: string) {
    var n := DigitRun(s) + Unit(s);
    Unit(s) > 0 && n < |s| && IsDigit(s[n])
  }

  /** scanNumber: digit runs with units, as long as a digit follows a unit with no gap. */
  function NumberRun(s: string): (n: nat)
    ensures n <= |s|
    decreases |s|
  {
    var n := DigitRun(s) + Unit(s);
    if Compound(s) then n + NumberRun(s[n..]) else n
  }

  datatype Scanned = Scanned(tok: Token, len: nat)

  /** scanString after the opening quote, with what was unescaped so far; len counts from here. */
  function StringRun(s: string, done: string): (r: Scanned)
    ensures r.len <= |s|
    decreases |s|
  {
    if s == [] then Scanned(Token(TokIllegal, "unterminated string literal"), 0)
    else if s[0] == '"' then Scanned(Token(TokString, done), 1)
    else if s[0] == '\\' then
      if |s| == 1 then Scanned(Token(TokIllegal, "unterminated escape in string literal"), 1)
      else
        var r := StringRun(s[2..], done + [Unescaped(s[1])]);
        Scanned(r.tok, r.len + 2)
    else
      var r := StringRun(s[1..], done + [s[0]]);
      Scanned(r.tok, r.len + 1)
  }

  function Unescaped(c: char): char {
    if c == 'n' then '\n' else if c == 't' then '\t' else c
  }

  predicate NextIs(s: string, c: char) {
    |s| > 1 && s[1] == c
  }

  /** Next on a text that starts with no white space. */
  function TokenAt(s: string): (r: Scanned)
    requires s != []
    ensures r.len <= |s|
  {
    var b := s[0];
    if b == '{' then Scanned(Token(TokLBrace, "{"), 1)
    else if b == '}' then Scanned(Token(TokRBrace, "}"), 1)
    else if b == '(' then Scanned(Token(TokLParen, "("), 1)
    else if b == ')' then Scanned(Token(TokRParen, ")"), 1)
    else if b == ',' then Scanned(Token(TokComma, ","), 1)
    else if b == '|' then Scanned(Token(TokPipe, "|"), 1)
    else if b == '-' then Scanned(Token(TokMinus, "-"), 1)
    else if b == '=' then
      if NextIs(s, '~') then Scanned(Token(TokRegexEq, "=~"), 2)
      else if NextIs(s, '=') then Scanned(Token(TokEqEq, "=="), 2)
      else Scanned(Token(TokEq, "="), 1)
    else if b == '!' then
      if NextIs(s, '=') then Scanned(Token(TokNeq, "!="), 2)
      else if NextIs(s, '~') then Scanned(Token(TokRegexNeq, "!~"), 2)
      else Scanned(Token(TokIllegal, "unexpected '!': expected '!=' or '!~'"), 1)
    else if b == '>' then
      if NextIs(s, '=') then Scanned(Token(TokGTE, ">="), 2) else Scanned(Token(TokGT, ">"), 1)
    else if b == '<' then
      if NextIs(s, '=') then Scanned(Token(TokLTE, "<="), 2) else Scanned(Token(TokLT, "<"), 1)
    else if b == '"' then
      var r := StringRun(s[1..], "");
      Scanned(r.tok, r.len + 1)
    else if IsDigit(b) then Scanned(Token(TokNumber, s[..NumberRun(s)]), NumberRun(s))
    else if IsIdentStart(b) then Scanned(Token(TokIdent, s[..Run(s, IsIdentPart)]), Run(s, IsIdentPart))
    else Scanned(Token(TokIllegal, "unexpected character"), 1)
  }

  /** Next: the token and how much of the text it took, white space included. */
  function Next(s: string): (r: Scanned)
    ensures r.len <= |s|
  {
    var w := Spaces(s);
    if w == |s| then Scanned(EOF, w)
    else
      var r := TokenAt(s[w..]);
      Scanned(r.tok, w + r.len)
  }

  /** Before the end of input every token takes at least one character; only the end of input gives EOF. */
  lemma NextAdvances(s: string)
    ensures Next(s).tok.kind == TokEOF <==> Spaces(s) == |s|
    ensures Next(s).tok.kind != TokEOF ==> Next(s).len > Spaces(s)
  {
    var w := Spaces(s);
    if w < |s| {
      TokenTakes(s[w..]);
    }
  }

  lemma TokenTakes(s: string)
    requires s != []
    ensures TokenAt(s).len > 0 && TokenAt(s).tok.kind != TokEOF
  {
    StringKind(s[1..], "");
    if IsDigit(s[0]) {
      assert Run(s, IsDigit) > 0;
    }
  }

  lemma {:induction false} StringKind(s: string, done: string)
    ensures StringRun(s, done).tok.kind == TokString || StringRun(s, done).tok.kind == TokIllegal
    decreases |s|
  {
    if s != [] && s[0] == '\\' && |s| > 1 {
      StringKind(s[2..], done + [Unescaped(s[1])]);
    } else if s != [] && s[0] != '"' && s[0] != '\\' {
      StringKind(s[1..], done + [s[0]]);
    }
  }

  /** All tokens of a text before its end. */
  function Tokens(s: string): seq<Token>
    decreases |s|
  {
    NextAdvances(s);
    if Next(s).tok.kind == TokEOF then [] else [Next(s).tok] + Tokens(s[Next(s).len..])
  }

  // ---- Canonical text ----

  function Quoted(c: char): string {
    if c == '"' then "\\\"" else if c == '\\' then "\\\\" else if c == '\n' then "\\n" else if c == '\t' then "\\t" else [c]
  }

  function QuotedAll(s: string): string {
    if s == [] then [] else Quoted(s[0]) + QuotedAll(s[1..])
  }

  lemma QuotedCharUndone(c: char, done: string, more: string)
    ensures var r := StringRun(more, done + [c]);
            StringRun(Quoted(c) + more, done) == Scanned(r.tok, r.len + |Quoted(c)|)
  {
    var text := Quoted(c) + more;
    assert if |Quoted(c)| == 2 then text[2..] == more && text[0] == '\\' && Unescaped(text[1]) == c else text[1..] == more;
  }

  lemma EndOfString(done: string, rest: string)
    ensures StringRun("\"" + rest, done) == Scanned(Token(TokString, done), 1)
  {
  }

  /** scanString undoes quoting, for every string. */
  lemma {:induction false} QuotingUndone(s: string, done: string, rest: string)
    ensures StringRun(QuotedAll(s) + "\"" + rest, done) == Scanned(Token(TokString, done + s), |QuotedAll(s)| + 1)
    decreases |s|
  {
    hide StringRun, Quoted;
    if s == [] {
      assert QuotedAll(s) + "\"" + rest == "\"" + rest;
      assert done + s == done;
      EndOfString(done, rest);
    } else {
      var c, more := s[0], QuotedAll(s[1..]) + "\"" + rest;
      assert QuotedAll(s) + "\"" + rest == Quoted(c) + more;
      QuotedCharUndone(c, done, more);
      QuotingUndone(s[1..], done + [c], rest);
      assert done + [c] + s[1..] == done + s;
    }
  }

  /** A name the scanner reads as one identifier. */
  predicate IsName(s: string) {
    s != [] && IsIdentStart(s[0]) && forall c | c in s :: IsIdentPart(c)
  }

  /** A literal the scanner reads as one number. */
  predicate IsNumeral(s: string) {
    s != [] && IsDigit(s[0]) && NumberRun(s) == |s|
  }

  function Punctuation(k: Kind): string {
    match k
    case TokLBrace => "{" case TokRBrace => "}" case TokLParen => "(" case TokRParen => ")"
    case TokComma => "," case TokPipe => "|" case TokMinus => "-"
    case TokEq => "=" case TokNeq => "!=" case TokRegexEq => "=~" case TokRegexNeq => "!~"
    case TokEqEq => "==" case TokGT => ">" case TokGTE => ">=" case TokLT => "<" case TokLTE => "<="
    case _ => ""
  }

  /** A token some text stands for. */
  predicate Writable(t: Token) {
    match t.kind
    case TokEOF => false
    case TokIllegal => false
    case TokIdent => IsName(t.lit)
    case TokNumber => IsNumeral(t.lit)
    case TokString => true
    case _ => t.lit == Punctuation(t.kind)
  }

  function TextOf(t: Token): string {
    if t.kind == TokString then "\"" + QuotedAll(t.lit) + "\"" else t.lit
  }

  /** Each token followed by one space. */
  function Written(toks: seq<Token>): string {
    if toks == [] then "" else TextOf(toks[0]) + " " + Written(toks[1..])
  }

  lemma {:induction false} RunStops(s: string, test: char -> bool, rest: string)
    requires (forall c | c in s :: test(c)) && !test(' ')
    ensures Run(s + " " + rest, test) == |s|
  {
    var text := s + " " + rest;
    if s != [] {
      assert text[1..] == s[1..] + " " + rest;
      RunStops(s[1..], test, rest);
    }
  }

  /** Scanning looks no further than the space behind a number. */
  lemma RunSame(s: string, test: char -> bool, rest: string)
    requires !test(' ')
    ensures Run(s + " " + rest, test) == Run(s, test)
    decreases |s|
  {
    var text := s + " " + rest;
    if s != [] && test(s[0]) {
      assert text[1..] == s[1..] + " " + rest;
      RunSame(s[1..], test, rest);
    }
  }

  lemma DigitRunSame(s: string, rest: string)
    ensures DigitRun(s + " " + rest) == DigitRun(s)
  {
    hide Run;
    var text := s + " " + rest;
    RunSame(s, IsDigit, rest);
    var d := Run(s, IsDigit);
    if d + 1 <= |s| {
      assert text[d + 1..] == s[d + 1..] + " " + rest;
      RunSame(s[d + 1..], IsDigit, rest);
    }
  }

  lemma UnitSame(s: string, rest: string)
    ensures Unit(s + " " + rest) == Unit(s) && (Compound(s + " " + rest) <==> Compound(s))
  {
    hide Run, DigitRun;
    DigitRunSame(s, rest);
    var d := DigitRun(s);
    assert (s + " " + rest)[d..] == s[d..] + " " + rest;
    RunSame(s[d..], IsUnitLetter, rest);
  }

  lemma {:induction false} NumberRunSame(s: string, rest: string)
    ensures NumberRun(s + " " + rest) == NumberRun(s)
    decreases |s|
  {
    hide Unit, DigitRun;
    var text := s + " " + rest;
    DigitRunSame(s, rest);
    UnitSame(s, rest);
    var n := DigitRun(s) + Unit(s);
    if Compound(s) {
      assert text[n..] == s[n..] + " " + rest;
      NumberRunSame(s[n..], rest);
    }
  }

  lemma ReadsString(lit: string, rest: string)
    ensures TokenAt("\"" + QuotedAll(lit) + "\"" + " " + rest) == Scanned(Token(TokString, lit), |QuotedAll(lit)| + 2)
  {
    hide QuotedAll, StringRun, NumberRun, Run;
    var text := "\"" + QuotedAll(lit) + "\"" + " " + rest;
    QuotingUndone(lit, "", " " + rest);
    assert text[1..] == QuotedAll(lit) + "\"" + (" " + rest);
    assert "" + lit == lit;
  }

  lemma ReadsNumber(lit: string, rest: string)
    requires IsNumeral(lit)
    ensures TokenAt(lit + " " + rest) == Scanned(Token(TokNumber, lit), |lit|)
  {
    hide StringRun, NumberRun, Run;
    NumberRunSame(lit, rest);
    assert (lit + " " + rest)[..|lit|] == lit;
  }

  lemma ReadsName(lit: string, rest: string)
    requires IsName(lit)
    ensures TokenAt(lit + " " + rest) == Scanned(Token(TokIdent, lit), |lit|)
  {
    hide StringRun, NumberRun, Run;
    RunStops(lit, IsIdentPart, rest);
    assert (lit + " " + rest)[..|lit|] == lit;
  }

  lemma ReadsPunctuation(t: Token, rest: string)
    requires Writable(t) && t.kind != TokString && t.kind != TokNumber && t.kind != TokIdent
    ensures TokenAt(t.lit + " " + rest) == Scanned(t, |t.lit|) && t.lit != [] && !IsSpace(t.lit[0])
  {
    hide StringRun, NumberRun, Run;
  }

  /** Reading a written token gives it back and stops right behind it. */
  lemma ReadsBack(t: Token, rest: string)
    requires Writable(t)
    ensures TextOf(t) != [] && !IsSpace(TextOf(t)[0])
    ensures TokenAt(TextOf(t) + " " + rest) == Scanned(t, |TextOf(t)|)
  {
    hide TokenAt, StringRun, NumberRun, Run, QuotedAll;
    match t.kind {
      case TokString => ReadsString(t.lit, rest);
      case TokNumber => ReadsNumber(t.lit, rest);
      case TokIdent => ReadsName(t.lit, rest);
      case _ => ReadsPunctuation(t, rest);
    }
  }

  lemma SpaceFirst(rest: string)
    ensures Spaces(" " + rest) == 1 + Spaces(rest)
  {
    assert (" " + rest)[1..] == rest;
  }

  lemma {:induction false} LeadingSpace(rest: string)
    ensures Tokens(" " + rest) == Tokens(rest)
  {
    var text := " " + rest;
    SpaceFirst(rest);
    var w := Spaces(rest);
    assert text[1 + w..] == rest[w..];
    if w < |rest| {
      assert Next(text) == Scanned(Next(rest).tok, Next(rest).len + 1);
      assert text[Next(text).len..] == rest[Next(rest).len..];
    }
    NextAdvances(text);
    NextAdvances(rest);
  }

  lemma NextOfWritten(t: Token, rest: string)
    requires Writable(t)
    ensures Next(TextOf(t) + " " + rest) == Scanned(t, |TextOf(t)|)
  {
    hide TokenAt, TextOf, Writable, Run;
    ReadsBack(t, rest);
    var text := TextOf(t) + " " + rest;
    NoLeadingSpace(text);
    assert text[0..] == text;
  }

  lemma NoLeadingSpace(text: string)
    requires text != [] && !IsSpace(text[0])
    ensures Spaces(text) == 0
  {
  }

  /** Scanning the canonical text of tokens gives those tokens. */
  lemma {:induction false} ScanningUndone(toks: seq<Token>)
    requires forall t | t in toks :: Writable(t)
    ensures Tokens(Written(toks)) == toks
  {
    hide Next, TextOf, Writable;
    if toks == [] {
      NothingScanned();
    } else {
      var t, more := toks[0], Written(toks[1..]);
      var text := Written(toks);
      assert text == TextOf(t) + " " + more;
      NextOfWritten(t, more);
      WritableIsToken(t);
      ScanningUndone(toks[1..]);
      assert text[|TextOf(t)|..] == " " + more;
      LeadingSpace(more);
    }
  }

  lemma WritableIsToken(t: Token)
    requires Writable(t)
    ensures t.kind != TokEOF
  {
  }

  lemma NothingScanned()
    ensures Tokens("") == []
  {
    NextAdvances("");
  }

  // ---- Names and blanks ----

  /** A name holds letters, digits, underscores and points only, and begins with no digit and no point. */
  lemma NameExactly(s: string)
    ensures IsName(s) <==>
            && s != "" && s[0] != '.' && !('0' <= s[0] <= '9')
            && forall i | 0 <= i < |s| ::
                 'a' <= s[i] <= 'z' || 'A' <= s[i] <= 'Z' || '0' <= s[i] <= '9' || s[i] == '_' || s[i] == '.'
  {
    if s != "" {
      assert (forall c | c in s :: IsIdentPart(c)) <==> forall i | 0 <= i < |s| :: IsIdentPart(s[i]);
    }
  }

  lemma {:induction false} BlankRun(w: string, s: string)
    requires forall c | c in w :: c in " \t\r\n"
    ensures Spaces(w + s) == |w| + Spaces(s)
  {
    if w == "" {
      assert w + s == s;
    } else {
      assert (w + s)[1..] == w[1..] + s && (w + s)[0] == w[0] && w[0] in w;
      BlankRun(w[1..], s);
    }
  }

  /** Blanks, tabs and line ends in front of a token count for nothing. */
  lemma BlanksSkipped(w: string, s: string)
    requires forall c | c in w :: c in " \t\r\n"
    ensures Next(w + s).tok == Next(s).tok && Next(w + s).len == |w| + Next(s).len
    ensures Tokens(w + s) == Tokens(s)
  {
    hide Spaces, TokenAt;
    BlankRun(w, s);
    assert (w + s)[|w| + Spaces(s)..] == s[Spaces(s)..];
    NextAdvances(s);
    NextAdvances(w + s);
    var n := Next(s).len;
    assert (w + s)[|w| + n..] == s[n..];
  }

  // ---- The scanner object ----

  /** Line and column of a byte offset, both from 1. */
  function LineAt(src: string, pos: nat): nat
    requires pos <= |src|
  {
    if pos == 0 then 1 else LineAt(src, pos - 1) + (if src[pos - 1] == '\n' then 1 else 0)
  }

  function ColAt(src: string, pos: nat): nat
    requires pos <= |src|
  {
    if pos == 0 then 1 else if src[pos - 1] == '\n' then 1 else ColAt(src, pos - 1) + 1
  }

  lemma RunTail(s: string, test: char -> bool, n: nat)
    requires n <= Run(s, test)
    ensures Run(s, test) == n + Run(s[n..], test)
  {
    if n > 0 {
      RunTail(s[1..], test, n - 1);
      assert s[1..][n - 1..] == s[n..];
    }
  }

  lemma CompoundAdvances(s: string)
    ensures Compound(s) ==> DigitRun(s) + Unit(s) > 0
  {
  }

  class Scanner {
    const src: string
    var pos: nat
    var line: nat
    var col: nat
    var tokenLine: nat
    var tokenCol: nat

    ghost predicate Valid()
      reads this
    {
      pos <= |src| && line == LineAt(src, pos) && col == ColAt(src, pos)
    }

    ghost function Rest(): string
      requires Valid()
      reads this
    {
      src[pos..]
    }

    constructor (src: string)
      ensures Valid() && Rest() == src
    {
      this.src, pos, line, col, tokenLine, tokenCol := src, 0, 1, 1, 1, 1;
    }

    method Advance() returns (b: char)
      requires Valid() && pos < |src|
      modifies this`pos, this`line, this`col
      ensures Valid() && pos == old(pos) + 1 && b == old(Rest())[0]
    {
      b := src[pos];
      pos := pos + 1;
      if b == '\n' {
        line := line + 1;
        col := 1;
      } else {
        col := col + 1;
      }
    }

    /** The loops over one class of characters. */
    method AdvanceWhile(test: char -> bool)
      requires Valid()
      modifies this`pos, this`line, this`col
      ensures Valid() && pos == old(pos) + Run(old(Rest()), test)
    {
      hide LineAt, ColAt;
      ghost var rest := Rest();
      while pos < |src| && test(src[pos])
        invariant Valid() && old(pos) <= pos && pos - old(pos) <= Run(rest, test)
        invariant Run(rest, test) == pos - old(pos) + Run(Rest(), test)
        decreases |src| - pos
      {
        assert Rest()[1..] == src[pos + 1..];
        var _ := Advance();
      }
    }

    method ScanDigitRun()
      requires Valid()
      modifies this`pos, this`line, this`col
      ensures Valid() && pos == old(pos) + DigitRun(old(Rest()))
    {
      hide LineAt, ColAt, Run;
      ghost var rest := Rest();
      AdvanceWhile(IsDigit);
      ghost var d := Run(rest, IsDigit);
      assert Rest() == rest[d..];
      if pos + 1 < |src| && src[pos] == '.' && IsDigit(src[pos + 1]) {
        var _ := Advance();
        assert Rest() == rest[d + 1..];
        AdvanceWhile(IsDigit);
      }
    }

    /** One digit run with its unit; whether a digit follows the unit. */
    method ScanPart() returns (more: bool)
      requires Valid()
      modifies this`pos, this`line, this`col
      ensures Valid() && pos == old(pos) + DigitRun(old(Rest())) + Unit(old(Rest()))
      ensures more <==> Compound(old(Rest()))
    {
      hide LineAt, ColAt, Run, DigitRun;
      ghost var here := Rest();
      ScanDigitRun();
      assert Rest() == here[DigitRun(here)..];
      var unitStart := pos;
      AdvanceWhile(IsUnitLetter);
      assert Rest() == here[DigitRun(here) + Unit(here)..];
      more := pos != unitStart && pos != |src| && IsDigit(src[pos]);
    }

    method ScanNumber()
      requires Valid()
      modifies this`pos, this`line, this`col
      ensures Valid() && pos == old(pos) + NumberRun(old(Rest()))
    {
      hide LineAt, ColAt, Run, DigitRun, Unit;
      ghost var rest := Rest();
      var more := true;
      while more
        invariant Valid() && old(pos) <= pos
        invariant NumberRun(rest) == pos - old(pos) + if more then NumberRun(Rest()) else 0
        decreases more, |src| - pos
      {
        ghost var here := Rest();
        more := ScanPart();
        CompoundAdvances(here);
        assert Rest() == here[DigitRun(here) + Unit(here)..];
      }
    }

    /** scanString, behind the opening quote. */
    method ScanString() returns (tok: Token)
      requires Valid()
      modifies this`pos, this`line, this`col
      ensures Valid() && old(pos) <= pos && Scanned(tok, pos - old(pos)) == StringRun(old(Rest()), "")
    {
      hide LineAt, ColAt;
      ghost var rest := Rest();
      var sb := "";
      while true
        invariant Valid() && old(pos) <= pos
        invariant var r := StringRun(Rest(), sb); StringRun(rest, "") == Scanned(r.tok, pos - old(pos) + r.len)
        decreases |src| - pos
      {
        if pos >= |src| {
          return Token(TokIllegal, "unterminated string literal");
        }
        ghost var here := Rest();
        var b := Advance();
        assert Rest() == here[1..];
        if b == '"' {
          return Token(TokString, sb);
        }
        if b == '\\' {
          if pos >= |src| {
            return Token(TokIllegal, "unterminated escape in string literal");
          }
          var esc := Advance();
          assert Rest() == here[2..] && esc == here[1];
          sb := sb + [if esc == 'n' then '\n' else if esc == 't' then '\t' else esc];
        } else {
          sb := sb + [b];
        }
      }
    }

    /** Next: the token, with the line and column it starts at. */
    method NextToken() returns (tok: Token)
      requires Valid()
      modifies this
      ensures Valid() && old(pos) <= pos && Scanned(tok, pos - old(pos)) == Next(old(Rest()))
      ensures var start := old(pos) + Spaces(old(Rest())); tokenLine == LineAt(src, start) && tokenCol == ColAt(src, start)
    {
      hide LineAt, ColAt, Run, TokenAt;
      ghost var rest := Rest();
      AdvanceWhile(IsSpace);
      assert Rest() == rest[Spaces(rest)..];
      tokenLine, tokenCol := line, col;
      if pos >= |src| {
        return EOF;
      }
      tok := Scan();
    }

    method Scan() returns (tok: Token)
      requires Valid() && pos < |src|
      modifies this`pos, this`line, this`col
      ensures Valid() && old(pos) <= pos && Scanned(tok, pos - old(pos)) == TokenAt(old(Rest()))
    {
      hide LineAt, ColAt, Run, NumberRun, StringRun;
      var start := pos;
      ghost var rest := Rest();
      var b := src[pos];
      if b == '"' {
        var _ := Advance();
        assert Rest() == rest[1..];
        tok := ScanString();
      } else if IsDigit(b) {
        ScanNumber();
        assert src[start..pos] == rest[..pos - start];
        tok := Token(TokNumber, src[start..pos]);
      } else if IsIdentStart(b) {
        AdvanceWhile(IsIdentPart);
        assert src[start..pos] == rest[..pos - start];
        tok := Token(TokIdent, src[start..pos]);
      } else {
        tok := ScanPunctuation();
      }
    }

    method ScanPunctuation() returns (tok: Token)
      requires Valid() && pos < |src|
      requires var b := src[pos]; b != '"' && !IsDigit(b) && !IsIdentStart(b)
      modifies this`pos, this`line, this`col
      ensures Valid() && old(pos) <= pos && Scanned(tok, pos - old(pos)) == TokenAt(old(Rest()))
    {
      hide LineAt, ColAt, Run, NumberRun, StringRun;
      var b := Advance();
      var next := if pos < |src| then src[pos] else ' ';
      var two := (b == '=' && (next == '~' || next == '=')) || (b == '!' && (next == '=' || next == '~'))
                 || ((b == '>' || b == '<') && next == '=');
      if two {
        var _ := Advance();
      }
      match b
      case '{' => tok := Token(TokLBrace, "{");
      case '}' => tok := Token(TokRBrace, "}");
      case '(' => tok := Token(TokLParen, "(");
      case ')' => tok := Token(TokRParen, ")");
      case ',' => tok := Token(TokComma, ",");
      case '|' => tok := Token(TokPipe, "|");
      case '-' => tok := Token(TokMinus, "-");
      case '=' => tok := if !two then Token(TokEq, "=") else if next == '~' then Token(TokRegexEq, "=~") else Token(TokEqEq, "==");
      case '!' =>
        tok := if !two then Token(TokIllegal, "unexpected '!': expected '!=' or '!~'")
               else if next == '=' then Token(TokNeq, "!=") else Token(TokRegexNeq, "!~");
      case '>' => tok := if two then Token(TokGTE, ">=") else Token(TokGT, ">");
      case '<' => tok := if two then Token(TokLTE, "<=") else Token(TokLT, "<");
      case _ => tok := Token(TokIllegal, "unexpected character");
    }
  }
}
