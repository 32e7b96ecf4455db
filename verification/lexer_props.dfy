/** Properties of the scanner: its relation to an unbudgeted reference scan, the
    token budget, the operator lookahead rules, and the maximal-munch behaviour of
    the bundle revision (which the src revision's off-by-one lookahead breaks). */
module LexerProps {

  import opened Wrappers
  import opened Revisions
  import opened Tokens
  import opened Lexer

  /** The raw token stream with no budget: every token the step returns, comments
      and the final EOF included, and the error that cuts it short, if any. */
  datatype Raw = Raw(tokens: seq<Token>, error: Option<LexError>)

  function RawFrom(input: string, next: Scanner, c: Cursor): (r: Raw)
    requires c.pos <= |input| && Progressive(input, next)
    decreases |input| - c.pos
  {
    match next(c)
    case Failure(e) => Raw([], Some(e))
    case Success((t, c1)) =>
      if t.kind == EOF then Raw([t], None)
      else
        var rest := RawFrom(input, next, c1);
        Raw([t] + rest.tokens, rest.error)
  }

  function NonComments(ts: seq<Token>): seq<Token> {
    if |ts| == 0 then []
    else (if ts[0].kind == Comment then [] else [ts[0]]) + NonComments(ts[1..])
  }

  /** What `tokenize` returns, stated through the reference scan: the budget error as
      soon as more than 1000 raw tokens would be produced, otherwise the scan's own
      error, otherwise its tokens minus the comments. */
  function Expected(raw: Raw, count: nat, acc: seq<Token>): Result<seq<Token>, LexError> {
    if count + |raw.tokens| > MaxRawTokens then Failure(TooManyTokens(MaxRawTokens + 1))
    else if raw.error.Some? then Failure(raw.error.value)
    else Success(acc + NonComments(raw.tokens))
  }

  lemma {:induction false} TokenizeFromMatchesRaw(input: string, next: Scanner, c: Cursor, count: nat, acc: seq<Token>)
    requires c.pos <= |input| && Progressive(input, next) && count <= MaxRawTokens
    requires forall i :: 0 <= i < |acc| ==> acc[i].kind != EOF && acc[i].kind != Comment
    requires AllWellSpelled(acc)
    ensures TokenizeFrom(input, next, c, count, acc) == Expected(RawFrom(input, next, c), count, acc)
    decreases |input| - c.pos
  {
    hide TokenizeFrom, RawFrom, Expected;
    var r := next(c);
    if r.Success? && r.value.0.kind != EOF && count + 1 <= MaxRawTokens {
      var t, c1 := r.value.0, r.value.1;
      TokenizeFromMatchesRaw(input, next, c1, count + 1, if t.kind == Comment then acc else acc + [t]);
    }
    LoopStep(input, next, c, count, acc);
  }

  /** One turn of the loop agrees with the reference scan, given that the rest of the
      loop does. */
  lemma LoopStep(input: string, next: Scanner, c: Cursor, count: nat, acc: seq<Token>)
    requires c.pos <= |input| && Progressive(input, next) && count <= MaxRawTokens
    requires forall i :: 0 <= i < |acc| ==> acc[i].kind != EOF && acc[i].kind != Comment
    requires AllWellSpelled(acc)
    requires var r := next(c);
      r.Success? && r.value.0.kind != EOF && count + 1 <= MaxRawTokens ==>
        var t, c1 := r.value.0, r.value.1;
        var acc1 := if t.kind == Comment then acc else acc + [t];
        TokenizeFrom(input, next, c1, count + 1, acc1) == Expected(RawFrom(input, next, c1), count + 1, acc1)
    ensures TokenizeFrom(input, next, c, count, acc) == Expected(RawFrom(input, next, c), count, acc)
  {
    hide TokenizeFrom, RawFrom;
    match next(c)
    case Failure(e) =>
      UnfoldFailure(input, next, c, count, acc, e);
    case Success((t, c1)) =>
      UnfoldSuccess(input, next, c, count, acc, t, c1);
      if t.kind == EOF {
        NonCommentsCons(t, []);
        assert [t] + [] == [t];
      } else if count + 1 <= MaxRawTokens {
        LoopStepOn(input, next, c, count, acc, t, c1);
      }
  }

  /** The step case of `LoopStep`: a token other than EOF within the budget. */
  lemma LoopStepOn(input: string, next: Scanner, c: Cursor, count: nat, acc: seq<Token>, t: Token, c1: Cursor)
    requires c.pos <= |input| && Progressive(input, next) && count + 1 <= MaxRawTokens
    requires forall i :: 0 <= i < |acc| ==> acc[i].kind != EOF && acc[i].kind != Comment
    requires AllWellSpelled(acc)
    requires next(c) == Success((t, c1)) && t.kind != EOF
    requires var acc1 := if t.kind == Comment then acc else acc + [t];
      c1.pos <= |input| && WellSpelled(t) &&
      TokenizeFrom(input, next, c1, count + 1, acc1) == Expected(RawFrom(input, next, c1), count + 1, acc1)
    ensures TokenizeFrom(input, next, c, count, acc) == Expected(RawFrom(input, next, c), count, acc)
  {
    hide TokenizeFrom, RawFrom, NonComments;
    UnfoldSuccess(input, next, c, count, acc, t, c1);
    var rest := RawFrom(input, next, c1);
    NonCommentsCons(t, rest.tokens);
    if t.kind == Comment {
      assert acc + NonComments(rest.tokens) == acc + NonComments([t] + rest.tokens);
    } else {
      assert (acc + [t]) + NonComments(rest.tokens) == acc + ([t] + NonComments(rest.tokens));
    }
  }

  /** A failing step ends both the loop and the reference scan with its error. */
  lemma UnfoldFailure(input: string, next: Scanner, c: Cursor, count: nat, acc: seq<Token>, e: LexError)
    requires c.pos <= |input| && Progressive(input, next)
    requires forall i :: 0 <= i < |acc| ==> acc[i].kind != EOF && acc[i].kind != Comment
    requires AllWellSpelled(acc)
    requires next(c) == Failure(e)
    ensures TokenizeFrom(input, next, c, count, acc) == Failure(e)
    ensures RawFrom(input, next, c) == Raw([], Some(e))
  {
  }

  /** A successful step: the loop either stops (budget, EOF) or goes on from the new
      cursor, and the reference scan puts the token in front of the rest. */
  lemma UnfoldSuccess(input: string, next: Scanner, c: Cursor, count: nat, acc: seq<Token>, t: Token, c1: Cursor)
    requires c.pos <= |input| && Progressive(input, next)
    requires forall i :: 0 <= i < |acc| ==> acc[i].kind != EOF && acc[i].kind != Comment
    requires AllWellSpelled(acc)
    requires next(c) == Success((t, c1))
    ensures c1.pos <= |input| && WellSpelled(t)
    ensures var acc1 := if t.kind == Comment then acc else acc + [t];
      TokenizeFrom(input, next, c, count, acc) ==
        if count + 1 > MaxRawTokens then Failure(TooManyTokens(count + 1))
        else if t.kind == EOF then Success(acc1)
        else TokenizeFrom(input, next, c1, count + 1, acc1)
    ensures RawFrom(input, next, c) ==
      if t.kind == EOF then Raw([t], None)
      else Raw([t] + RawFrom(input, next, c1).tokens, RawFrom(input, next, c1).error)
  {
    assert Advances(input, c, next(c));
  }

  lemma NonCommentsCons(t: Token, ts: seq<Token>)
    ensures NonComments([t] + ts) == (if t.kind == Comment then [] else [t]) + NonComments(ts)
  {
    assert ([t] + ts)[1..] == ts;
  }

  /** The bundle's loops test the character under the cursor: a walk covers exactly
      the characters that pass the test and stops at the first that fails. */
  lemma BundleWalk(input: string, c: Cursor, more: char -> bool)
    requires c.pos <= |input|
    ensures var e := Walk(input, c, 0, more);
      && (forall j :: c.pos <= j < e.pos ==> more(input[j]))
      && (e.pos < |input| ==> !more(input[e.pos]))
  {
    var e := Walk(input, c, 0, more);
    forall j | c.pos <= j < e.pos ensures more(input[j]) {
      assert Tested(input, j, 0) == input[j];
    }
    if e.pos < |input| {
      assert Tested(input, e.pos, 0) == input[e.pos];
    }
  }

  /** The token budget: `tokenize` succeeds exactly when the unbudgeted scan reaches
      EOF within 1000 raw tokens (comments count), and then returns that scan's tokens
      with the comments removed; a longer scan aborts with the budget error rather
      than being truncated. */
  lemma TokenizeIsBudgetedRawScan(rev: Revision, input: string)
    ensures var raw := RawFrom(input, NextStep(rev, input), Start);
      && Tokenize(rev, input) == Expected(raw, 0, [])
      && (Tokenize(rev, input).Success? <==> raw.error.None? && |raw.tokens| <= MaxRawTokens)
  {
    TokenizeFromMatchesRaw(input, NextStep(rev, input), Start, 0, []);
  }

  /** `!`, `>` and `<` take a following `=` into a two-character operator and are
      single-character tokens otherwise; `==` needs both characters, and a lone `=`
      is an unexpected character. The lookahead is the same in both revisions. */
  lemma EqualsLookahead(rev: Revision, input: string, c: Cursor)
    requires c.pos < |input| && input[c.pos] in {'!', '>', '<', '='}
    ensures var r := ScanToken(rev, input, c);
      var eq := c.pos + 1 < |input| && input[c.pos + 1] == '=';
      && (r.Success? <==> eq || input[c.pos] != '=')
      && (r.Failure? ==> r.error == UnexpectedCharacter('=', c.line, c.column))
      && (r.Success? ==> r.value.1.pos == c.pos + (if eq then 2 else 1))
      && (r.Success? ==> r.value.0.text == [input[c.pos]] + (if eq then "=" else ""))
  {
  }

  /** `//` starts a comment and a `/` followed by anything else is the Slash operator.
      In the bundle the comment runs exactly to the end of its line. */
  lemma SlashOrComment(rev: Revision, input: string, c: Cursor)
    requires c.pos < |input| && input[c.pos] == '/'
    ensures var r := ScanToken(rev, input, c);
      && r.Success?
      && (r.value.0.kind == Comment <==> c.pos + 1 < |input| && input[c.pos + 1] == '/')
      && (r.value.0.kind != Comment ==> r.value.0 == Token(Slash, "/", c.line, c.column))
      && (rev == Bundle && r.value.0.kind == Comment ==>
            var e := r.value.1;
            && (forall j :: c.pos + 1 <= j < e.pos ==> input[j] != '\n')
            && (e.pos == |input| || input[e.pos] == '\n'))
  {
    hide ScanSymbol, ScanString, ScanNumber, ScanWord;
    if rev == Bundle && c.pos + 1 < |input| && input[c.pos + 1] == '/' {
      BundleWalk(input, Advance(c), NotNewline);
    }
  }

  /** A word gets a keyword kind exactly when its text is one of the four reserved
      words, and otherwise is an Identifier. */
  lemma KeywordIffReserved(rev: Revision, input: string, c: Cursor)
    requires c.pos < |input| && IsAlpha(input[c.pos])
    ensures var (t, _) := ScanWord(rev, input, c);
      && (IsKeyword(t.kind) <==> t.text in KeywordTexts)
      && (t.kind == Identifier <==> t.text !in KeywordTexts)
  {
  }

  /** Bundle numbers are maximal runs of digits. */
  lemma BundleNumberIsMaximalRun(input: string, c: Cursor)
    requires c.pos < |input| && IsDigit(input[c.pos])
    ensures var (t, e) := ScanNumber(Bundle, input, c);
      && t.text == input[c.pos..e.pos]
      && (forall i :: 0 <= i < |t.text| ==> IsDigit(t.text[i]))
      && (e.pos == |input| || !IsDigit(input[e.pos]))
  {
    BundleWalk(input, Advance(c), IsDigit);
    var (t, e) := ScanNumber(Bundle, input, c);
    assert forall i :: 0 <= i < |t.text| ==> t.text[i] == input[c.pos + i];
  }

  /** Bundle words are maximal runs: a letter, then letters and digits. */
  lemma BundleWordIsMaximalRun(input: string, c: Cursor)
    requires c.pos < |input| && IsAlpha(input[c.pos])
    ensures var (t, e) := ScanWord(Bundle, input, c);
      && t.text == input[c.pos..e.pos]
      && IsAlpha(t.text[0])
      && (forall i :: 0 <= i < |t.text| ==> IsAlphaNumeric(t.text[i]))
      && (e.pos == |input| || !IsAlphaNumeric(input[e.pos]))
  {
    BundleWalk(input, Advance(c), IsAlphaNumeric);
    var (t, e) := ScanWord(Bundle, input, c);
    assert forall i :: 0 <= i < |t.text| ==> t.text[i] == input[c.pos + i];
  }

  /** A bundle string is everything between its quotes, newlines included, and is
      unterminated exactly when no closing quote follows the opening one. */
  lemma BundleStringBetweenQuotes(input: string, c: Cursor)
    requires c.pos < |input| && input[c.pos] == '"'
    ensures var r := ScanString(Bundle, input, c);
      && (r.Failure? <==> forall j :: c.pos < j < |input| ==> input[j] != '"')
      && (r.Failure? ==> r.error.UnterminatedString? && r.error.column == c.column)
      && (r.Success? ==>
            var e := r.value.1;
            && c.pos + 2 <= e.pos
            && input[e.pos - 1] == '"'
            && r.value.0.text == input[c.pos + 1..e.pos - 1]
            && (forall j :: c.pos < j < e.pos - 1 ==> input[j] != '"'))
  {
    BundleWalk(input, Advance(c), NotQuote);
  }

  /** Any character `scanToken` has no case for is an unexpected character. */
  lemma UnhandledIsUnexpected(rev: Revision, input: string, c: Cursor)
    requires c.pos < |input|
    requires var ch := input[c.pos];
      SingleKind(ch).None? && ch !in {'!', '=', '>', '<', '/', '"'} && !IsDigit(ch) && !IsAlpha(ch)
    ensures ScanToken(rev, input, c) == Failure(UnexpectedCharacter(input[c.pos], c.line, c.column))
  {
  }

  /** Blanks before a token produce nothing: skipping them again changes nothing, so
      the token found is the one at the first non-blank character. */
  lemma BlanksProduceNoTokens(rev: Revision, input: string, c: Cursor)
    requires c.pos <= |input|
    ensures var c1 := Walk(input, c, Lookahead(rev), IsWhitespace);
      NextToken(rev, input, c) == NextToken(rev, input, c1)
  {
    var k := Lookahead(rev);
    var c1 := Walk(input, c, k, IsWhitespace);
    assert Walk(input, c1, k, IsWhitespace) == c1;
  }

  /** The src revision's scanning loops test the character after the cursor, so a
      number followed directly by another digit stops one character early: "12"
      scans as the number "1", with the digit "2" left for the next token. */
  lemma SrcNumberStopsEarly(input: string, c: Cursor)
    requires c.pos + 1 < |input| && IsDigit(input[c.pos]) && IsDigit(input[c.pos + 1])
    requires !IsDigit(CharAt(input, c.pos + 2))
    ensures var (t, e) := ScanNumber(Src, input, c);
      t.text == [input[c.pos]] && e.pos < |input| && IsDigit(input[e.pos])
  {
    assert Walk(input, Advance(c), 1, IsDigit) == Advance(c);
  }

  /** The same early stop for a blank after a one-character token: in src, the
      whitespace loop consumes the character before a blank instead of the blank, so
      in "*5 @x" the "5" is swallowed and the blank itself reaches `scanToken`. */
  lemma SrcBlankReachesScanner(input: string, c: Cursor)
    requires c.pos + 2 < |input| && !IsWhitespace(input[c.pos]) && input[c.pos + 1] == ' '
    requires !IsWhitespace(input[c.pos + 2])
    ensures NextToken(Src, input, c) == Failure(UnexpectedCharacter(' ', c.line, c.column + 1))
  {
    var c1 := Walk(input, c, 1, IsWhitespace);
    assert Step(input, c, 1) == Cursor(c.pos + 1, c.line, c.column + 1);
    assert Walk(input, Cursor(c.pos + 1, c.line, c.column + 1), 1, IsWhitespace) == Cursor(c.pos + 1, c.line, c.column + 1);
  }
}
