/** The scanner (src/lexer.ts, and the later revision in web/bundle.js): source text to
    tokens. A cursor walks the text; whitespace is skipped before each token; a fixed
    budget of raw tokens guards against runaway input. */
module Lexer {

  import opened Wrappers
  import opened Revisions
  import opened Tokens

  datatype LexError =
    | UnexpectedCharacter(ch: char, line: int, column: int)
    | UnterminatedString(line: int, column: int)
    | TooManyTokens(count: nat)

  /** The most raw tokens (comments and the final EOF included) one input may produce. */
  const MaxRawTokens: nat := 1000

  /** The scanner's position: an index into the text, and the 1-based line and column
      it reports. */
  datatype Cursor = Cursor(pos: nat, line: int, column: int)

  const Start := Cursor(0, 1, 1)

  /** Which character the scanning loops test, relative to the cursor: the src revision
      tests the character after it (`peek`), the bundle the one at it (`current`). */
  function Lookahead(rev: Revision): nat {
    if rev == Src then 1 else 0
  }

  /** The character at an index, or NUL past the end of the text. */
  function CharAt(input: string, i: nat): char {
    if i < |input| then input[i] else '\0'
  }

  /** The character a scanning loop tests when its cursor is at `pos`. */
  function Tested(input: string, pos: nat, k: nat): char {
    CharAt(input, pos + k)
  }

  predicate IsDigit(c: char) { '0' <= c <= '9' }

  predicate IsAlpha(c: char) { ('a' <= c <= 'z') || ('A' <= c <= 'Z') }

  predicate IsAlphaNumeric(c: char) { IsAlpha(c) || IsDigit(c) }

  predicate IsWhitespace(c: char) { c == ' ' || c == '\r' || c == '\t' || c == '\n' }

  predicate NotNewline(c: char) { c != '\n' }

  predicate NotQuote(c: char) { c != '"' }

  function Advance(c: Cursor): Cursor {
    Cursor(c.pos + 1, c.line, c.column + 1)
  }

  /** One iteration of a scanning loop: a tested newline moves to the next line and
      resets the column to 1, then the character at the cursor is consumed. */
  function Step(input: string, c: Cursor, k: nat): Cursor {
    if Tested(input, c.pos, k) == '\n' then Cursor(c.pos + 1, c.line + 1, 2) else Advance(c)
  }

  /** A scanning loop: advance while the cursor is inside the text and the tested
      character satisfies `more`. It stops at the first position that fails the test. */
  function Walk(input: string, c: Cursor, k: nat, more: char -> bool): (e: Cursor)
    requires c.pos <= |input|
    ensures c.pos <= e.pos <= |input|
    ensures forall j :: c.pos <= j < e.pos ==> more(Tested(input, j, k))
    ensures !(e.pos < |input| && more(Tested(input, e.pos, k)))
    decreases |input| - c.pos
  {
    if c.pos < |input| && more(Tested(input, c.pos, k)) then Walk(input, Step(input, c, k), k, more) else c
  }

  /** The kinds spelled by one character that needs no lookahead. */
  function SingleKind(ch: char): Option<Kind> {
    match ch
    case '*' => Some(Asterisk)
    case '@' => Some(At)
    case '&' => Some(Ampersand)
    case '~' => Some(Tilde)
    case ':' => Some(Colon)
    case '^' => Some(Caret)
    case '_' => Some(Underscore)
    case '+' => Some(Plus)
    case '-' => Some(Dash)
    case '%' => Some(Percent)
    case _ => None
  }

  /** Each one-character kind is spelled by exactly that character. */
  lemma SingleKindSpelled(ch: char)
    requires SingleKind(ch).Some?
    ensures FixedText(SingleKind(ch).value) == Some([ch])
  {
  }

  /** A token that carries its fixed text and a scanner position after it. */
  predicate Scanned(input: string, c: Cursor, r: Result<(Token, Cursor), LexError>) {
    r.Success? ==>
      && c.pos < r.value.1.pos <= |input|
      && r.value.0.kind != EOF
      && WellSpelled(r.value.0)
  }

  /** The spelling facts every scanned token satisfies in both revisions: symbol,
      operator and keyword kinds carry their fixed text, identifiers are never reserved
      words, and a number starts with a digit. (Only the bundle guarantees that a number
      is all digits: see `LexerProps.BundleNumberIsMaximalRun`.) */
  predicate WellSpelled(t: Token) {
    && (FixedText(t.kind).Some? ==> t.text == FixedText(t.kind).value)
    && (t.kind == Identifier ==> t.text !in KeywordTexts)
    && (t.kind == Number ==> |t.text| > 0 && IsDigit(t.text[0]))
  }

  function One(kind: Kind, ch: char, c: Cursor): (Token, Cursor) {
    (Token(kind, [ch], c.line, c.column), Advance(c))
  }

  function Two(kind: Kind, text: string, c: Cursor): (Token, Cursor) {
    (Token(kind, text, c.line, c.column), Cursor(c.pos + 2, c.line, c.column + 2))
  }

  /** The characters that begin a symbol or an operator other than `/`. */
  predicate StartsSymbol(ch: char) {
    SingleKind(ch).Some? || ch == '!' || ch == '=' || ch == '>' || ch == '<'
  }

  /** `scanToken`: the token starting at the (non-blank) character under the cursor. */
  function ScanToken(rev: Revision, input: string, c: Cursor): (r: Result<(Token, Cursor), LexError>)
    requires c.pos < |input|
    ensures Scanned(input, c, r)
  {
    var ch := input[c.pos];
    if StartsSymbol(ch) then ScanSymbol(input, c)
    else if ch == '/' then
      (if c.pos + 1 < |input| && input[c.pos + 1] == '/' then Success(ScanComment(rev, input, c)) else Success(One(Slash, ch, c)))
    else if ch == '"' then ScanString(rev, input, c)
    else if IsDigit(ch) then Success(ScanNumber(rev, input, c))
    else if IsAlpha(ch) then Success(ScanWord(rev, input, c))
    else Failure(UnexpectedCharacter(ch, c.line, c.column))
  }

  /** The symbol and operator cases of `scanToken`. `!`, `>` and `<` look one
      character ahead for `=`; a lone `=` is not a token. */
  function ScanSymbol(input: string, c: Cursor): (r: Result<(Token, Cursor), LexError>)
    requires c.pos < |input| && StartsSymbol(input[c.pos])
    ensures Scanned(input, c, r)
  {
    var ch := input[c.pos];
    var eq := CharAt(input, c.pos + 1) == '=';
    if SingleKind(ch).Some? then
      SingleKindSpelled(ch);
      Success(One(SingleKind(ch).value, ch, c))
    else if ch == '!' then Success(if eq then Two(BangEqual, "!=", c) else One(Bang, ch, c))
    else if ch == '=' then (if eq then Success(Two(EqualEqual, "==", c)) else Failure(UnexpectedCharacter(ch, c.line, c.column)))
    else if ch == '>' then Success(if eq then Two(GreaterEqual, ">=", c) else One(Greater, ch, c))
    else Success(if eq then Two(LessEqual, "<=", c) else One(Less, ch, c))
  }

  /** `comment`: entered on `//`, runs to (not including) the end of the line. */
  function ScanComment(rev: Revision, input: string, c: Cursor): (r: (Token, Cursor))
    requires c.pos + 1 < |input|
    ensures c.pos < r.1.pos <= |input|
    ensures r.0.kind == Comment
  {
    var c1 := Advance(c);
    var e := Walk(input, c1, Lookahead(rev), NotNewline);
    var from := if c.pos >= 1 then c.pos - 1 else 0;
    (Token(Comment, input[from..e.pos], e.line, c.column - 1), e)
  }

  /** `string`: the text between the quotes, newlines included; the closing quote must
      come before the end of the text. */
  function ScanString(rev: Revision, input: string, c: Cursor): (r: Result<(Token, Cursor), LexError>)
    requires c.pos < |input|
    ensures r.Success? ==> c.pos < r.value.1.pos <= |input| && r.value.0.kind == String
    ensures input[c.pos] == '"' && (forall j :: c.pos < j < |input| ==> input[j] != '"')
      ==> r.Failure? && r.error.UnterminatedString? && r.error.column == c.column
  {
    var c1 := Advance(c);
    var e := Walk(input, c1, Lookahead(rev), NotQuote);
    if e.pos >= |input| then Failure(UnterminatedString(e.line, c.column))
    else Success((Token(String, input[c1.pos..e.pos], e.line, c.column), Advance(e)))
  }

  /** `number`: a run of digits starting at the cursor. */
  function ScanNumber(rev: Revision, input: string, c: Cursor): (r: (Token, Cursor))
    requires c.pos < |input| && IsDigit(input[c.pos])
    ensures c.pos < r.1.pos <= |input|
    ensures r.0.kind == Number && WellSpelled(r.0)
  {
    var e := Walk(input, Advance(c), Lookahead(rev), IsDigit);
    var text := input[c.pos..e.pos];
    (Token(Number, text, e.line, e.column - |text|), e)
  }

  /** `identifier`: a letter followed by letters and digits; a reserved word gets its
      keyword kind, any other word is an Identifier. */
  function ScanWord(rev: Revision, input: string, c: Cursor): (r: (Token, Cursor))
    requires c.pos < |input| && IsAlpha(input[c.pos])
    ensures c.pos < r.1.pos <= |input|
    ensures r.0.kind == Identifier || IsKeyword(r.0.kind)
    ensures WellSpelled(r.0)
  {
    var e := Walk(input, Advance(c), Lookahead(rev), IsAlphaNumeric);
    var text := input[c.pos..e.pos];
    var kind := match KeywordKind(text) case Some(kw) => kw case None => Identifier;
    (Token(kind, text, e.line, e.column - |text|), e)
  }

  /** `nextToken`: skip blanks, then EOF at the end of the text or the next token. */
  function NextToken(rev: Revision, input: string, c: Cursor): (r: Result<(Token, Cursor), LexError>)
    requires c.pos <= |input|
    ensures r.Success? ==> c.pos <= r.value.1.pos <= |input| && WellSpelled(r.value.0)
    ensures r.Success? && r.value.0.kind != EOF ==> c.pos < r.value.1.pos
    ensures r.Success? && r.value.0.kind == EOF ==> r.value.1.pos == |input|
  {
    var c1 := Walk(input, c, Lookahead(rev), IsWhitespace);
    if c1.pos >= |input| then Success((Token(EOF, "", c1.line, c1.column), c1))
    else ScanToken(rev, input, c1)
  }

  /** The list the parser consumes: exactly one EOF, at the end, and no comments. */
  predicate EofTerminated(ts: seq<Token>) {
    && |ts| > 0
    && ts[|ts| - 1].kind == EOF
    && forall i :: 0 <= i < |ts| - 1 ==> ts[i].kind != EOF
  }

  predicate NoComments(ts: seq<Token>) {
    forall i :: 0 <= i < |ts| ==> ts[i].kind != Comment
  }

  predicate AllWellSpelled(ts: seq<Token>) {
    forall i :: 0 <= i < |ts| ==> WellSpelled(ts[i])
  }

  /** A scanning step over one text: from any cursor inside it, either an error or a
      well-spelled token and a cursor further on (strictly, unless the token is EOF,
      which only the end of the text yields). */
  type Scanner = Cursor --> Result<(Token, Cursor), LexError>

  ghost predicate Progressive(input: string, next: Scanner) {
    forall c: Cursor :: c.pos <= |input| ==> next.requires(c) && Advances(input, c, next(c))
  }

  predicate Advances(input: string, c: Cursor, r: Result<(Token, Cursor), LexError>) {
    r.Success? ==>
      && c.pos <= r.value.1.pos <= |input|
      && WellSpelled(r.value.0)
      && (r.value.0.kind != EOF ==> c.pos < r.value.1.pos)
      && (r.value.0.kind == EOF ==> r.value.1.pos == |input|)
  }

  /** `nextToken` on a fixed text and revision. */
  function NextStep(rev: Revision, input: string): (next: Scanner)
    ensures Progressive(input, next)
  {
    (c: Cursor) requires c.pos <= |input| => NextToken(rev, input, c)
  }

  /** `tokenize`: scan to EOF, dropping comments but counting them; the 1001st raw
      token aborts the scan. */
  function Tokenize(rev: Revision, input: string): (r: Result<seq<Token>, LexError>)
    ensures r.Success? ==> EofTerminated(r.value) && NoComments(r.value) && AllWellSpelled(r.value)
  {
    TokenizeFrom(input, NextStep(rev, input), Start, 0, [])
  }

  /** The loop of `tokenize`, from cursor `c` with `count` raw tokens already produced
      and the kept tokens `acc`, written once over its scanning step. */
  function TokenizeFrom(input: string, next: Scanner, c: Cursor, count: nat, acc: seq<Token>): (r: Result<seq<Token>, LexError>)
    requires c.pos <= |input| && Progressive(input, next)
    requires forall i :: 0 <= i < |acc| ==> acc[i].kind != EOF && acc[i].kind != Comment
    requires AllWellSpelled(acc)
    ensures r.Success? ==> EofTerminated(r.value) && NoComments(r.value) && AllWellSpelled(r.value)
    decreases |input| - c.pos
  {
    match next(c)
    case Failure(e) => Failure(e)
    case Success((t, c1)) =>
      var acc1 := if t.kind == Comment then acc else acc + [t];
      if count + 1 > MaxRawTokens then Failure(TooManyTokens(count + 1))
      else if t.kind == EOF then Success(acc1)
      else TokenizeFrom(input, next, c1, count + 1, acc1)
  }
}
