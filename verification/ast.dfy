/** The syntax tree (src/ast.ts): the parser's output and the evaluator's input.
    The source has one node class per kind (4 expressions, 8 statements, Program) and a
    visitor with one method per class; here the kinds are closed datatypes, so every
    walk over them is an exhaustive `match`. The source types every child as a plain
    node; the model types expression positions as `Expr` and statement positions as
    `Stmt`, which is the only way the parser ever fills them. */
module Ast {

  import opened Wrappers

  /** A runtime value, and the payload of a literal: a number or a text, nothing else. */
  datatype Value = Num(n: int) | Text(s: string)

  datatype Expr =
    | LiteralExpr(value: Value)
    | IdentifierExpr(name: string)
      /** The operator is kept as raw text, so an unknown operator is representable. */
    | BinaryExpr(left: Expr, operator: string, right: Expr)
      /** A flat list meant to alternate operand, operator literal, operand, ...; the type
          itself admits any list, `WellFormedChain` says which ones the parser builds. */
    | ChainExpr(items: seq<Expr>)

  datatype Stmt =
    | AssignmentStmt(expression: Expr, variable: string)
    | FunctionDefStmt(name: string, params: seq<string>, body: Block)
    | FunctionCallStmt(callee: string, args: seq<Expr>, resultVar: Option<string>)
    | ReturnStmt(value: Expr)
    | AlertStmt(args: seq<Expr>)
    | IfStmt(condition: Expr, thenBranch: Block, elseBranch: Option<Block>)
    | TryStmt(labelText: string, tryBlock: Block, catchBlock: Block)
    | BlockStmt(block: Block)

  /** A block: its statements in execution order. Function bodies, both branches of a
      conditional and both halves of a try/catch are blocks by type. */
  datatype Block = Block(stmts: seq<Stmt>)

  datatype Program = Program(stmts: seq<Stmt>)

  /** The eleven operator spellings a chain can carry. */
  const ChainOperators: set<string> := {"+", "-", "*", "/", "%", "==", "!=", ">", ">=", "<", "<="}

  /** The comparison operators, which yield 1 or 0. */
  const Comparisons: set<string> := {"==", "!=", ">", ">=", "<", "<="}

  /** A value the parser's `primary` produces: a number, text or variable reference. */
  predicate IsPrimary(e: Expr) {
    e.LiteralExpr? || e.IdentifierExpr?
  }

  /** An operator slot of a chain: a text literal holding one of the operator spellings. */
  predicate IsOperatorLiteral(e: Expr) {
    e.LiteralExpr? && e.value.Text? && e.value.s in ChainOperators
  }

  /** The shape of every chain the parser builds: operand, operator, operand, ... with
      at least one operator, operands at even indices and operators at odd ones. */
  predicate WellFormedChain(items: seq<Expr>) {
    && |items| >= 3
    && |items| % 2 == 1
    && (forall i :: 0 <= i < |items| && i % 2 == 0 ==> IsPrimary(items[i]))
    && (forall i :: 0 <= i < |items| && i % 2 == 1 ==> IsOperatorLiteral(items[i]))
  }

  /** An expression the parser can produce: a primary, or a well-formed chain. */
  predicate WellFormedExpr(e: Expr) {
    IsPrimary(e) || (e.ChainExpr? && WellFormedChain(e.items))
  }

  predicate AllPrimary(args: seq<Expr>) {
    forall i :: 0 <= i < |args| ==> IsPrimary(args[i])
  }

  /** The statements the parser can produce. Calls never name a reserved word (the
      scanner gives those their own kinds), and a bare block never stands as a
      statement. */
  predicate WellFormedStmt(s: Stmt) {
    match s
    case AssignmentStmt(e, _) => WellFormedExpr(e)
    case FunctionDefStmt(_, _, body) => WellFormedBlock(body)
    case FunctionCallStmt(callee, args, _) => callee !in {"if", "else", "return", "alert"} && AllPrimary(args)
    case ReturnStmt(e) => WellFormedExpr(e)
    case AlertStmt(args) => AllPrimary(args)
    case IfStmt(c, t, e) => WellFormedExpr(c) && WellFormedBlock(t) && (e.Some? ==> WellFormedBlock(e.value))
    case TryStmt(_, t, c) => WellFormedBlock(t) && WellFormedBlock(c)
    case BlockStmt(_) => false
  }

  predicate WellFormedBlock(b: Block) {
    WellFormedStmts(b.stmts)
  }

  predicate WellFormedStmts(ss: seq<Stmt>) {
    forall i :: 0 <= i < |ss| ==> WellFormedStmt(ss[i])
  }
}
