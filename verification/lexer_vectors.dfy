/** Concrete tokenizations, stepped one token at a time.
  *   A: bundle, `*5 @x`  -> `*`, `5`, `@`, `x`, EOF (the blank is skipped).
  *   B: src,    `*5@x`   -> the same kinds, columns shifted by the missing blank.
  *   C: src,    `*5 @x`  -> the whitespace loop tests the character after the blank, so
  *      the blank itself reaches the scanner and is reported at line 1, column 3.
  *   D: bundle, a comment line then `*1 @x` -> the comment token is dropped, and the
  *      first token of line 2 is at column 2 (the newline resets the column to 1 and
  *      the ordinary advance past it adds one more).
  * Each `N` lemma fixes one `NextToken` result (the `W` lemmas fix the walks it runs);
  * `RunSteps` follows the tokenize loop along any scanner run of kept tokens. */
module LexerVectors {
  import opened Wrappers
  import opened Revisions
  import opened Tokens
  import opened Lexer

  /** Applying the packaged step function is calling `NextToken`. */
  lemma NextStepIsNextToken(rev: Revision, input: string, c: Cursor)
    requires c.pos <= |input|
    ensures NextStep(rev, input)(c) == NextToken(rev, input, c)
  {
  }

  /** One iteration of the tokenize loop, for each shape of scanner result. */
  lemma LoopEnd(input: string, next: Scanner, c: Cursor, count: nat, acc: seq<Token>, t: Token, c1: Cursor)
    requires c.pos <= |input| && Progressive(input, next) && count < MaxRawTokens
    requires Kept(acc)
    requires next(c) == Success((t, c1)) && t.kind == EOF
    ensures TokenizeFrom(input, next, c, count, acc) == Success(acc + [t])
  {
  }

  lemma LoopOn(input: string, next: Scanner, c: Cursor, count: nat, acc: seq<Token>, t: Token, c1: Cursor)
    requires c.pos <= |input| && Progressive(input, next) && count < MaxRawTokens
    requires Kept(acc)
    requires next(c) == Success((t, c1)) && t.kind != EOF && t.kind != Comment
    ensures c1.pos <= |input| && Kept(acc + [t])
    ensures TokenizeFrom(input, next, c, count, acc) == TokenizeFrom(input, next, c1, count + 1, acc + [t])
  {
  }

  lemma LoopSkip(input: string, next: Scanner, c: Cursor, count: nat, acc: seq<Token>, t: Token, c1: Cursor)
    requires c.pos <= |input| && Progressive(input, next) && count < MaxRawTokens
    requires Kept(acc)
    requires next(c) == Success((t, c1)) && t.kind == Comment
    ensures c1.pos <= |input|
    ensures TokenizeFrom(input, next, c, count, acc) == TokenizeFrom(input, next, c1, count + 1, acc)
  {
  }

  lemma LoopFail(input: string, next: Scanner, c: Cursor, count: nat, acc: seq<Token>, e: LexError)
    requires c.pos <= |input| && Progressive(input, next)
    requires Kept(acc)
    requires next(c) == Failure(e)
    ensures TokenizeFrom(input, next, c, count, acc) == Failure(e)
  {
  }

  /** The kept tokens so far, as the tokenize loop requires them: no EOF, no comment,
      every one spelled as its kind demands. */
  predicate Kept(acc: seq<Token>) {
    && (forall i :: 0 <= i < |acc| ==> acc[i].kind != EOF && acc[i].kind != Comment)
    && AllWellSpelled(acc)
  }

  /** `next` steps from `cs[i]` to `cs[i + 1]` producing `ts[i]`, a token the loop keeps
      and continues after. */
  ghost predicate Steps(input: string, next: Scanner, cs: seq<Cursor>, ts: seq<Token>)
    requires Progressive(input, next)
  {
    && |cs| == |ts| + 1
    && (forall i :: 0 <= i < |cs| ==> cs[i].pos <= |input|)
    && (forall i :: 0 <= i < |ts| ==> next(cs[i]) == Success((ts[i], cs[i + 1])))
    && (forall i :: 0 <= i < |ts| ==> ts[i].kind != EOF && ts[i].kind != Comment)
  }

  /** The first of a run of steps, and the run after it. */
  lemma StepsTail(input: string, next: Scanner, cs: seq<Cursor>, ts: seq<Token>)
    requires Progressive(input, next) && Steps(input, next, cs, ts) && |ts| > 0
    ensures cs[0].pos <= |input| && next(cs[0]) == Success((ts[0], cs[1]))
    ensures ts[0].kind != EOF && ts[0].kind != Comment
    ensures Steps(input, next, cs[1..], ts[1..])
  {
    forall i | 0 <= i < |ts| - 1
      ensures next(cs[1..][i]) == Success((ts[1..][i], cs[1..][i + 1]))
    {
      assert next(cs[i + 1]) == Success((ts[i + 1], cs[i + 2]));
    }
  }

  /** A run of such steps appends its tokens and leaves the loop at the last cursor. */
  lemma {:induction false} RunSteps(input: string, next: Scanner, cs: seq<Cursor>, ts: seq<Token>, count: nat, acc: seq<Token>)
    requires Progressive(input, next) && Steps(input, next, cs, ts)
    requires Kept(acc) && count + |ts| <= MaxRawTokens
    ensures cs[0].pos <= |input| && cs[|ts|].pos <= |input| && Kept(acc + ts)
    ensures TokenizeFrom(input, next, cs[0], count, acc) == TokenizeFrom(input, next, cs[|ts|], count + |ts|, acc + ts)
    decreases |ts|
  {
    hide TokenizeFrom, Kept, Advances, WellSpelled;
    if |ts| == 0 {
      assert acc + ts == acc;
    } else {
      hide Steps;
      StepsTail(input, next, cs, ts);
      LoopOn(input, next, cs[0], count, acc, ts[0], cs[1]);
      RunSteps(input, next, cs[1..], ts[1..], count + 1, acc + [ts[0]]);
      assert (acc + [ts[0]]) + ts[1..] == acc + ts;
      assert cs[1..][|ts[1..]|] == cs[|ts|];
    }
  }

  /** Steps ending at EOF: the loop returns the kept tokens and the EOF token. */
  lemma RunToEnd(input: string, next: Scanner, cs: seq<Cursor>, ts: seq<Token>, count: nat, eof: Token, c: Cursor)
    requires Progressive(input, next) && Steps(input, next, cs, ts) && count + |ts| < MaxRawTokens
    requires next(cs[|ts|]) == Success((eof, c)) && eof.kind == EOF
    ensures cs[0].pos <= |input|
    ensures TokenizeFrom(input, next, cs[0], count, []) == Success(ts + [eof])
  {
    hide TokenizeFrom, Advances, WellSpelled;
    RunSteps(input, next, cs, ts, count, []);
    assert [] + ts == ts;
    LoopEnd(input, next, cs[|ts|], count + |ts|, ts, eof, c);
  }

  /** Steps ending at a scanning error: the loop returns that error. */
  lemma RunToFailure(input: string, next: Scanner, cs: seq<Cursor>, ts: seq<Token>, count: nat, e: LexError)
    requires Progressive(input, next) && Steps(input, next, cs, ts) && count + |ts| <= MaxRawTokens
    requires next(cs[|ts|]) == Failure(e)
    ensures cs[0].pos <= |input|
    ensures TokenizeFrom(input, next, cs[0], count, []) == Failure(e)
  {
    hide TokenizeFrom, Advances, WellSpelled;
    RunSteps(input, next, cs, ts, count, []);
    assert [] + ts == ts;
    LoopFail(input, next, cs[|ts|], count + |ts|, ts, e);
  }

  const AText := "*5 @x"

  lemma AW0_0()
    ensures Walk(AText, Cursor(0, 1, 1), 0, IsWhitespace) == Cursor(0, 1, 1)
  {
  }

  lemma AN0()
    ensures NextToken(Bundle, AText, Cursor(0, 1, 1)) == Success((Token(Asterisk, "*", 1, 1), Cursor(1, 1, 2)))
  {
    AW0_0();
  }

  lemma AW1_0()
    ensures Walk(AText, Cursor(1, 1, 2), 0, IsWhitespace) == Cursor(1, 1, 2)
  {
  }

  lemma AW1_1()
    ensures Walk(AText, Cursor(2, 1, 3), 0, IsDigit) == Cursor(2, 1, 3)
  {
  }

  lemma AN1()
    ensures NextToken(Bundle, AText, Cursor(1, 1, 2)) == Success((Token(Number, "5", 1, 2), Cursor(2, 1, 3)))
  {
    AW1_0();
    AW1_1();
    assert AText[1..2] == "5";
  }

  lemma AW2_0()
    ensures Walk(AText, Cursor(2, 1, 3), 0, IsWhitespace) == Cursor(3, 1, 4)
  {
  }

  lemma AN2()
    ensures NextToken(Bundle, AText, Cursor(2, 1, 3)) == Success((Token(At, "@", 1, 4), Cursor(4, 1, 5)))
  {
    AW2_0();
  }

  lemma AW3_0()
    ensures Walk(AText, Cursor(4, 1, 5), 0, IsWhitespace) == Cursor(4, 1, 5)
  {
  }

  lemma AW3_1()
    ensures Walk(AText, Cursor(5, 1, 6), 0, IsAlphaNumeric) == Cursor(5, 1, 6)
  {
  }

  lemma AN3()
    ensures NextToken(Bundle, AText, Cursor(4, 1, 5)) == Success((Token(Identifier, "x", 1, 5), Cursor(5, 1, 6)))
  {
    AW3_0();
    AW3_1();
    assert AText[4..5] == "x";
  }

  lemma AW4_0()
    ensures Walk(AText, Cursor(5, 1, 6), 0, IsWhitespace) == Cursor(5, 1, 6)
  {
  }

  lemma AN4()
    ensures NextToken(Bundle, AText, Cursor(5, 1, 6)) == Success((Token(EOF, "", 1, 6), Cursor(5, 1, 6)))
  {
    AW4_0();
  }

  const ACursors := [Cursor(0, 1, 1), Cursor(1, 1, 2), Cursor(2, 1, 3), Cursor(4, 1, 5), Cursor(5, 1, 6)]
  const AKept := [Token(Asterisk, "*", 1, 1), Token(Number, "5", 1, 2), Token(At, "@", 1, 4), Token(Identifier, "x", 1, 5)]

  /** Step `i` of the scanner's run over `AText`. */
  lemma AStep(i: nat)
    requires i < 4
    ensures ACursors[i].pos <= |AText|
    ensures NextToken(Bundle, AText, ACursors[i]) == Success((AKept[i], ACursors[i + 1]))
  {
    hide NextToken;
    if i == 0 { AN0(); } else if i == 1 { AN1(); } else if i == 2 { AN2(); } else { AN3(); }
  }

  /** The scanner's first steps over `AText`, as a run. */
  lemma ASteps()
    ensures Steps(AText, NextStep(Bundle, AText), ACursors, AKept)
  {
    hide NextToken, Advances, WellSpelled;
    AMoves();
  }

  /** Each step of the run starts inside the text and yields the expected token. */
  lemma AMoves()
    ensures forall i :: 0 <= i < 4 ==> ACursors[i].pos <= |AText|
    ensures forall i :: 0 <= i < 4 ==> NextStep(Bundle, AText)(ACursors[i]) == Success((AKept[i], ACursors[i + 1]))
  {
    hide NextToken, Advances, WellSpelled;
    forall i | 0 <= i < 4
      ensures ACursors[i].pos <= |AText|
      ensures NextStep(Bundle, AText)(ACursors[i]) == Success((AKept[i], ACursors[i + 1]))
    {
      AStep(i);
      NextStepIsNextToken(Bundle, AText, ACursors[i]);
    }
  }

  lemma BundleSkipsBlank()
    ensures Tokenize(Bundle, AText) == Success([Token(Asterisk, "*", 1, 1), Token(Number, "5", 1, 2), Token(At, "@", 1, 4), Token(Identifier, "x", 1, 5), Token(EOF, "", 1, 6)])
  {
    hide NextToken, TokenizeFrom, Advances, WellSpelled;
    ASteps();
    NextStepIsNextToken(Bundle, AText, Cursor(5, 1, 6));
    AN4();
    RunToEnd(AText, NextStep(Bundle, AText), ACursors, AKept, 0, Token(EOF, "", 1, 6), Cursor(5, 1, 6));
    assert AKept + [Token(EOF, "", 1, 6)] == [Token(Asterisk, "*", 1, 1), Token(Number, "5", 1, 2), Token(At, "@", 1, 4), Token(Identifier, "x", 1, 5), Token(EOF, "", 1, 6)];
  }

  const BText := "*5@x"

  lemma BW0_0()
    ensures Walk(BText, Cursor(0, 1, 1), 1, IsWhitespace) == Cursor(0, 1, 1)
  {
  }

  lemma BN0()
    ensures NextToken(Src, BText, Cursor(0, 1, 1)) == Success((Token(Asterisk, "*", 1, 1), Cursor(1, 1, 2)))
  {
    BW0_0();
  }

  lemma BW1_0()
    ensures Walk(BText, Cursor(1, 1, 2), 1, IsWhitespace) == Cursor(1, 1, 2)
  {
  }

  lemma BW1_1()
    ensures Walk(BText, Cursor(2, 1, 3), 1, IsDigit) == Cursor(2, 1, 3)
  {
  }

  lemma BN1()
    ensures NextToken(Src, BText, Cursor(1, 1, 2)) == Success((Token(Number, "5", 1, 2), Cursor(2, 1, 3)))
  {
    BW1_0();
    BW1_1();
    assert BText[1..2] == "5";
  }

  lemma BW2_0()
    ensures Walk(BText, Cursor(2, 1, 3), 1, IsWhitespace) == Cursor(2, 1, 3)
  {
  }

  lemma BN2()
    ensures NextToken(Src, BText, Cursor(2, 1, 3)) == Success((Token(At, "@", 1, 3), Cursor(3, 1, 4)))
  {
    BW2_0();
  }

  lemma BW3_0()
    ensures Walk(BText, Cursor(3, 1, 4), 1, IsWhitespace) == Cursor(3, 1, 4)
  {
  }

  lemma BW3_1()
    ensures Walk(BText, Cursor(4, 1, 5), 1, IsAlphaNumeric) == Cursor(4, 1, 5)
  {
  }

  lemma BN3()
    ensures NextToken(Src, BText, Cursor(3, 1, 4)) == Success((Token(Identifier, "x", 1, 4), Cursor(4, 1, 5)))
  {
    BW3_0();
    BW3_1();
    assert BText[3..4] == "x";
  }

  lemma BW4_0()
    ensures Walk(BText, Cursor(4, 1, 5), 1, IsWhitespace) == Cursor(4, 1, 5)
  {
  }

  lemma BN4()
    ensures NextToken(Src, BText, Cursor(4, 1, 5)) == Success((Token(EOF, "", 1, 5), Cursor(4, 1, 5)))
  {
    BW4_0();
  }

  const BCursors := [Cursor(0, 1, 1), Cursor(1, 1, 2), Cursor(2, 1, 3), Cursor(3, 1, 4), Cursor(4, 1, 5)]
  const BKept := [Token(Asterisk, "*", 1, 1), Token(Number, "5", 1, 2), Token(At, "@", 1, 3), Token(Identifier, "x", 1, 4)]

  /** Step `i` of the scanner's run over `BText`. */
  lemma BStep(i: nat)
    requires i < 4
    ensures BCursors[i].pos <= |BText|
    ensures NextToken(Src, BText, BCursors[i]) == Success((BKept[i], BCursors[i + 1]))
  {
    hide NextToken;
    if i == 0 { BN0(); } else if i == 1 { BN1(); } else if i == 2 { BN2(); } else { BN3(); }
  }

  /** The scanner's first steps over `BText`, as a run. */
  lemma BSteps()
    ensures Steps(BText, NextStep(Src, BText), BCursors, BKept)
  {
    hide NextToken, Advances, WellSpelled;
    BMoves();
  }

  /** Each step of the run starts inside the text and yields the expected token. */
  lemma BMoves()
    ensures forall i :: 0 <= i < 4 ==> BCursors[i].pos <= |BText|
    ensures forall i :: 0 <= i < 4 ==> NextStep(Src, BText)(BCursors[i]) == Success((BKept[i], BCursors[i + 1]))
  {
    hide NextToken, Advances, WellSpelled;
    forall i | 0 <= i < 4
      ensures BCursors[i].pos <= |BText|
      ensures NextStep(Src, BText)(BCursors[i]) == Success((BKept[i], BCursors[i + 1]))
    {
      BStep(i);
      NextStepIsNextToken(Src, BText, BCursors[i]);
    }
  }

  lemma SrcWithoutBlank()
    ensures Tokenize(Src, BText) == Success([Token(Asterisk, "*", 1, 1), Token(Number, "5", 1, 2), Token(At, "@", 1, 3), Token(Identifier, "x", 1, 4), Token(EOF, "", 1, 5)])
  {
    hide NextToken, TokenizeFrom, Advances, WellSpelled;
    BSteps();
    NextStepIsNextToken(Src, BText, Cursor(4, 1, 5));
    BN4();
    RunToEnd(BText, NextStep(Src, BText), BCursors, BKept, 0, Token(EOF, "", 1, 5), Cursor(4, 1, 5));
    assert BKept + [Token(EOF, "", 1, 5)] == [Token(Asterisk, "*", 1, 1), Token(Number, "5", 1, 2), Token(At, "@", 1, 3), Token(Identifier, "x", 1, 4), Token(EOF, "", 1, 5)];
  }

  const CText := "*5 @x"

  lemma CW0_0()
    ensures Walk(CText, Cursor(0, 1, 1), 1, IsWhitespace) == Cursor(0, 1, 1)
  {
  }

  lemma CN0()
    ensures NextToken(Src, CText, Cursor(0, 1, 1)) == Success((Token(Asterisk, "*", 1, 1), Cursor(1, 1, 2)))
  {
    CW0_0();
  }

  lemma CW1_0()
    ensures Walk(CText, Cursor(1, 1, 2), 1, IsWhitespace) == Cursor(2, 1, 3)
  {
  }

  lemma CN1()
    ensures NextToken(Src, CText, Cursor(1, 1, 2)) == Failure(UnexpectedCharacter(' ', 1, 3))
  {
    CW1_0();
  }

  lemma SrcBlankIsUnexpected()
    ensures Tokenize(Src, CText) == Failure(UnexpectedCharacter(' ', 1, 3))
  {
    hide NextToken, TokenizeFrom, Advances, WellSpelled;
    NextStepIsNextToken(Src, CText, Cursor(0, 1, 1));
    CN0();
    NextStepIsNextToken(Src, CText, Cursor(1, 1, 2));
    CN1();
    RunToFailure(CText, NextStep(Src, CText),
      [Cursor(0, 1, 1), Cursor(1, 1, 2)], [Token(Asterisk, "*", 1, 1)],
      0, UnexpectedCharacter(' ', 1, 3));
  }

  const DText := "// hi\n*1 @x"

  lemma DW0_0()
    ensures Walk(DText, Cursor(0, 1, 1), 0, IsWhitespace) == Cursor(0, 1, 1)
  {
  }

  lemma DW0_1()
    ensures Walk(DText, Cursor(1, 1, 2), 0, NotNewline) == Cursor(5, 1, 6)
  {
  }

  lemma DN0()
    ensures NextToken(Bundle, DText, Cursor(0, 1, 1)) == Success((Token(Comment, "// hi", 1, 0), Cursor(5, 1, 6)))
  {
    DW0_0();
    DW0_1();
    assert DText[0..5] == "// hi";
  }

  lemma DW1_0()
    ensures Walk(DText, Cursor(5, 1, 6), 0, IsWhitespace) == Cursor(6, 2, 2)
  {
  }

  lemma DN1()
    ensures NextToken(Bundle, DText, Cursor(5, 1, 6)) == Success((Token(Asterisk, "*", 2, 2), Cursor(7, 2, 3)))
  {
    DW1_0();
  }

  lemma DW2_0()
    ensures Walk(DText, Cursor(7, 2, 3), 0, IsWhitespace) == Cursor(7, 2, 3)
  {
  }

  lemma DW2_1()
    ensures Walk(DText, Cursor(8, 2, 4), 0, IsDigit) == Cursor(8, 2, 4)
  {
  }

  lemma DN2()
    ensures NextToken(Bundle, DText, Cursor(7, 2, 3)) == Success((Token(Number, "1", 2, 3), Cursor(8, 2, 4)))
  {
    DW2_0();
    DW2_1();
    assert DText[7..8] == "1";
  }

  lemma DW3_0()
    ensures Walk(DText, Cursor(8, 2, 4), 0, IsWhitespace) == Cursor(9, 2, 5)
  {
  }

  lemma DN3()
    ensures NextToken(Bundle, DText, Cursor(8, 2, 4)) == Success((Token(At, "@", 2, 5), Cursor(10, 2, 6)))
  {
    DW3_0();
  }

  lemma DW4_0()
    ensures Walk(DText, Cursor(10, 2, 6), 0, IsWhitespace) == Cursor(10, 2, 6)
  {
  }

  lemma DW4_1()
    ensures Walk(DText, Cursor(11, 2, 7), 0, IsAlphaNumeric) == Cursor(11, 2, 7)
  {
  }

  lemma DN4()
    ensures NextToken(Bundle, DText, Cursor(10, 2, 6)) == Success((Token(Identifier, "x", 2, 6), Cursor(11, 2, 7)))
  {
    DW4_0();
    DW4_1();
    assert DText[10..11] == "x";
  }

  lemma DW5_0()
    ensures Walk(DText, Cursor(11, 2, 7), 0, IsWhitespace) == Cursor(11, 2, 7)
  {
  }

  lemma DN5()
    ensures NextToken(Bundle, DText, Cursor(11, 2, 7)) == Success((Token(EOF, "", 2, 7), Cursor(11, 2, 7)))
  {
    DW5_0();
  }

  const DCursors := [Cursor(5, 1, 6), Cursor(7, 2, 3), Cursor(8, 2, 4), Cursor(10, 2, 6), Cursor(11, 2, 7)]
  const DKept := [Token(Asterisk, "*", 2, 2), Token(Number, "1", 2, 3), Token(At, "@", 2, 5), Token(Identifier, "x", 2, 6)]

  /** Step `i` of the scanner's run over `DText`. */
  lemma DStep(i: nat)
    requires i < 4
    ensures DCursors[i].pos <= |DText|
    ensures NextToken(Bundle, DText, DCursors[i]) == Success((DKept[i], DCursors[i + 1]))
  {
    hide NextToken;
    if i == 0 { DN1(); } else if i == 1 { DN2(); } else if i == 2 { DN3(); } else { DN4(); }
  }

  /** The scanner's first steps over `DText`, as a run. */
  lemma DSteps()
    ensures Steps(DText, NextStep(Bundle, DText), DCursors, DKept)
  {
    hide NextToken, Advances, WellSpelled;
    DMoves();
  }

  /** Each step of the run starts inside the text and yields the expected token. */
  lemma DMoves()
    ensures forall i :: 0 <= i < 4 ==> DCursors[i].pos <= |DText|
    ensures forall i :: 0 <= i < 4 ==> NextStep(Bundle, DText)(DCursors[i]) == Success((DKept[i], DCursors[i + 1]))
  {
    hide NextToken, Advances, WellSpelled;
    forall i | 0 <= i < 4
      ensures DCursors[i].pos <= |DText|
      ensures NextStep(Bundle, DText)(DCursors[i]) == Success((DKept[i], DCursors[i + 1]))
    {
      DStep(i);
      NextStepIsNextToken(Bundle, DText, DCursors[i]);
    }
  }

  /** After the comment line, the run to EOF. */
  lemma DAfterComment()
    ensures TokenizeFrom(DText, NextStep(Bundle, DText), Cursor(5, 1, 6), 1, []) == Success(DKept + [Token(EOF, "", 2, 7)])
  {
    hide NextToken, TokenizeFrom, Advances, WellSpelled;
    DSteps();
    NextStepIsNextToken(Bundle, DText, Cursor(11, 2, 7));
    DN5();
    RunToEnd(DText, NextStep(Bundle, DText), DCursors, DKept, 1, Token(EOF, "", 2, 7), Cursor(11, 2, 7));
  }

  lemma BundleDropsCommentLine()
    ensures Tokenize(Bundle, DText) == Success([Token(Asterisk, "*", 2, 2), Token(Number, "1", 2, 3), Token(At, "@", 2, 5), Token(Identifier, "x", 2, 6), Token(EOF, "", 2, 7)])
  {
    hide NextToken, TokenizeFrom, Advances, WellSpelled;
    NextStepIsNextToken(Bundle, DText, Start);
    DN0();
    LoopSkip(DText, NextStep(Bundle, DText), Start, 0, [], Token(Comment, "// hi", 1, 0), Cursor(5, 1, 6));
    DAfterComment();
    assert DKept + [Token(EOF, "", 2, 7)] == [Token(Asterisk, "*", 2, 2), Token(Number, "1", 2, 3), Token(At, "@", 2, 5), Token(Identifier, "x", 2, 6), Token(EOF, "", 2, 7)];
  }
}
