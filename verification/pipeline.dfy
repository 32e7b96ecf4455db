/** The three stages in sequence: the scanner's output is always a list the parser
    accepts, the parser's output is always a program the evaluator runs without an
    internal error, so only a scanning error or a BombLang explosion can stop a run. */
module Pipeline {

  import opened Wrappers
  import opened Revisions
  import opened Ast
  import T = Tokens
  import Lexer
  import Parser
  import JsNum
  import ParserProps
  import LexerVectors
  import opened Interpreter

  datatype RunResult =
    | LexFailed(error: Lexer.LexError)
    | Ran(program: Program, run: Interpreter.Run)

  /** What the scanner guarantees is what the parser asks for. */
  lemma ScannedTokensAreParseable(ts: seq<T.Token>)
    requires Lexer.EofTerminated(ts) && Lexer.AllWellSpelled(ts)
    ensures Parser.ValidTokens(ts) && Parser.Consistent(ts)
  {
    forall i | 0 <= i < |ts|
      ensures Parser.ConsistentToken(ts[i])
    {
      assert Lexer.WellSpelled(ts[i]);
    }
  }

  /** Tokenize, parse and interpret a source text. */
  function RunSource(cfg: Config, fuel: nat, source: string): (r: RunResult)
    ensures r.LexFailed? <==> Lexer.Tokenize(cfg.rev, source).Failure?
    ensures r.LexFailed? ==> r.error == Lexer.Tokenize(cfg.rev, source).error
    ensures r.Ran? ==> WellFormedStmts(r.program.stmts) && !r.run.report.UnexpectedExplosion?
    ensures r.Ran? ==> r.run.final.stack == [] && r.run.output == r.run.final.output
  {
    match Lexer.Tokenize(cfg.rev, source)
    case Failure(e) => LexFailed(e)
    case Success(ts) =>
      ScannedTokensAreParseable(ts);
      var prog := Parser.Parse(cfg.rev, ts);
      Ran(prog, Interpret(cfg, fuel, prog))
  }

  /** A scanned text runs the program its tokens parse to. */
  lemma RunOfTokens(cfg: Config, fuel: nat, source: string, ts: seq<T.Token>)
    requires Lexer.Tokenize(cfg.rev, source) == Success(ts)
    ensures Parser.ValidTokens(ts)
    ensures RunSource(cfg, fuel, source) == Ran(Parser.Parse(cfg.rev, ts), Interpret(cfg, fuel, Parser.Parse(cfg.rev, ts)))
  {
    ScannedTokensAreParseable(ts);
  }

  /** A lone assignment of a number to a variable at the top level sets that global. */
  lemma InterpretNumberAssignment(cfg: Config, fuel: nat, n: int, x: string)
    ensures Interpret(cfg, fuel, Program([AssignmentStmt(LiteralExpr(Num(n)), x)]))
      == Run([], Finished, Initial.(globals := map[x := Num(n)]))
  {
    var a := AssignmentStmt(LiteralExpr(Num(n)), x);
    var s1 := Initial.(globals := map[x := Num(n)]);
    assert Exec(cfg, fuel, Initial, a) == Normal(s1);
    assert ExecStmts(cfg, fuel, Initial, Block([a]), 0) == Normal(s1);
  }

  const SpacedTokens := [T.Token(T.Asterisk, "*", 1, 1), T.Token(T.Number, "5", 1, 2), T.Token(T.At, "@", 1, 4),
    T.Token(T.Identifier, "x", 1, 5), T.Token(T.EOF, "", 1, 6)]

  lemma SpacedTokensParse(rev: Revision)
    ensures Parser.ValidTokens(SpacedTokens)
    ensures Parser.Parse(rev, SpacedTokens) == Program([AssignmentStmt(LiteralExpr(Num(5)), "x")])
  {
    assert ParserProps.Kinds(SpacedTokens, [T.Asterisk, T.Number, T.At, T.Identifier, T.EOF]);
    ParserProps.SingleAssignment(rev, SpacedTokens);
    assert JsNum.ParseDecimal("5") == 5;
  }

  /** `*5 @x` end to end: the bundle binds the global `x` to 5; src stops at the blank. */
  lemma BundleRunsSpacedAssignment(toNumber: string -> int, fuel: nat)
    ensures RunSource(Config(Bundle, toNumber), fuel, LexerVectors.AText)
      == Ran(Program([AssignmentStmt(LiteralExpr(Num(5)), "x")]),
             Run([], Finished, Initial.(globals := map["x" := Num(5)])))
  {
    var cfg := Config(Bundle, toNumber);
    LexerVectors.BundleSkipsBlank();
    RunOfTokens(cfg, fuel, LexerVectors.AText, SpacedTokens);
    SpacedTokensParse(Bundle);
    InterpretNumberAssignment(cfg, fuel, 5, "x");
  }

  lemma SrcStopsAtBlank(cfg: Config, fuel: nat)
    requires cfg.rev == Src
    ensures RunSource(cfg, fuel, LexerVectors.CText) == LexFailed(Lexer.UnexpectedCharacter(' ', 1, 3))
  {
    LexerVectors.SrcBlankIsUnexpected();
  }
}
