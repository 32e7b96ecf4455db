/** Properties of the parser: how the first token fixes a statement's kind, where
    error recovery resumes, the shape of chains, how conditionals find their condition,
    and the argument styles of the two revisions. */
module ParserProps {

  import opened Wrappers
  import opened Revisions
  import opened Ast
  import T = Tokens
  import opened Parser

  /** The first token a statement of each kind starts with. */
  predicate Introduces(rev: Revision, k: T.Kind, s: Stmt) {
    match s
    case AssignmentStmt(_, _) => k == T.Asterisk
    case FunctionDefStmt(_, _, _) => k == T.Tilde
    case FunctionCallStmt(_, _, _) => k == T.Bang
    case ReturnStmt(_) => k == T.Bang
    case AlertStmt(_) => k == T.Bang
    case IfStmt(_, _, _) => k == T.Colon || (rev == Bundle && k == T.Asterisk)
    case TryStmt(_, _, _) => k == T.Caret
    case BlockStmt(_) => false
  }

  // The productions are mutually recursive, and a proof that lets the verifier unfold
  // them freely wanders through the whole grammar. Each proof below therefore hides
  // every production except the one it is about, and uses the others only through
  // their contracts and the lemmas proved before it.

  /** `*` begins an assignment (or, in the bundle, a diverted conditional), `~` a
      definition, `!` an alert, return or call, `:` a conditional and `^` a try. Any
      other token is stepped over without producing a statement. */
  lemma StatementDispatch(rev: Revision, ts: seq<T.Token>, st: PState)
    requires ValidTokens(ts) && Inside(ts, st)
    ensures Statement(rev, ts, st).value.Some? ==>
      Introduces(rev, ts[st.pos].kind, Statement(rev, ts, st).value.value)
    ensures !T.IsStatementStart(ts[st.pos].kind) ==>
      Statement(rev, ts, st) == Parsed(None, st.(pos := Next(ts, st.pos)))
  {
    hide Assignment, FunctionDefinition, FunctionCall, IfStatement, TryStatement, Synchronize;
  }

  /** The places where recovery may stop: end of input, just after a `_`, or just
      before a token that starts a statement. */
  predicate SyncPoint(ts: seq<T.Token>, p: nat)
    requires p < |ts|
  {
    AtEnd(ts, p) || (p >= 1 && ts[p - 1].kind == T.Underscore) || T.IsStatementStart(ts[p].kind)
  }

  lemma {:induction false} SyncLoopFirst(ts: seq<T.Token>, p: nat)
    requires ValidTokens(ts) && p < |ts| && (p >= 1 || AtEnd(ts, p))
    ensures SyncPoint(ts, SyncLoop(ts, p))
    ensures forall q :: p <= q < SyncLoop(ts, p) ==> !SyncPoint(ts, q)
    decreases |ts| - p
  {
    if AtEnd(ts, p) || ts[p - 1].kind == T.Underscore || T.IsStatementStart(ts[p].kind) {
    } else {
      SyncLoopFirst(ts, p + 1);
    }
  }

  /** After a failed production, recovery skips at least one token (unless already at
      EOF) and stops at the FIRST stopping place after that. */
  lemma SynchronizeStops(ts: seq<T.Token>, pos: nat)
    requires ValidTokens(ts) && pos < |ts|
    ensures SyncPoint(ts, Synchronize(ts, pos))
    ensures !AtEnd(ts, pos) ==> pos < Synchronize(ts, pos)
    ensures forall q :: pos < q < Synchronize(ts, pos) ==> !SyncPoint(ts, q)
  {
    SyncLoopFirst(ts, Next(ts, pos));
  }

  /** Recovery from a failure at a `:if_` stops just after its `_`. */
  lemma SyncPastConditionHead(ts: seq<T.Token>, p: nat)
    requires ValidTokens(ts) && p + 3 < |ts|
    requires Check(ts, p, T.Colon) && Check(ts, p + 1, T.If) && Check(ts, p + 2, T.Underscore)
    ensures Synchronize(ts, p) == p + 3
  {
    hide Synchronize;
    SynchronizeStops(ts, p);
    assert SyncPoint(ts, p + 3);
  }

  /** A number token is a literal holding the number its digits spell. */
  lemma PrimaryNumber(ts: seq<T.Token>, st: PState)
    requires ValidTokens(ts) && Inside(ts, st) && Check(ts, st.pos, T.Number)
    ensures Primary(ts, st) == Parsed(LiteralExpr(Num(JsNum.ParseDecimal(ts[st.pos].text))), st.(pos := st.pos + 1))
  {
    hide JsNum.ParseDecimal;
  }

  /** An identifier token is a reference to the variable it names. */
  lemma PrimaryIdentifier(ts: seq<T.Token>, st: PState)
    requires ValidTokens(ts) && Inside(ts, st) && Check(ts, st.pos, T.Identifier)
    ensures Primary(ts, st) == Parsed(IdentifierExpr(ts[st.pos].text), st.(pos := st.pos + 1))
  {
    hide JsNum.ParseDecimal;
  }

  /** A primary not followed by `&` is the whole expression. */
  lemma ChainWithoutAmpersand(ts: seq<T.Token>, st: PState)
    requires ValidTokens(ts) && Inside(ts, st)
    requires Primary(ts, st).Parsed? && !Check(ts, st.pos + 1, T.Ampersand)
    ensures Expression(ts, st) == Primary(ts, st)
  {
    hide Primary;
  }

  /** `& x` where x is not an operator is a parse error, raised after the `&`. */
  lemma ChainMissingOperator(ts: seq<T.Token>, st: PState)
    requires ValidTokens(ts) && Inside(ts, st)
    requires Primary(ts, st).Parsed? && Check(ts, st.pos + 1, T.Ampersand)
    requires AtEnd(ts, st.pos + 2) || !T.IsChainOperator(ts[st.pos + 2].kind)
    ensures Expression(ts, st) == Failed(st.(pos := st.pos + 2))
  {
    hide Primary;
  }

  /** `& op x` where x is not `&` is a parse error, raised after the operator. */
  lemma ChainMissingSecondAmpersand(ts: seq<T.Token>, st: PState)
    requires ValidTokens(ts) && Inside(ts, st)
    requires Primary(ts, st).Parsed? && Check(ts, st.pos + 1, T.Ampersand)
    requires !AtEnd(ts, st.pos + 2) && T.IsChainOperator(ts[st.pos + 2].kind)
    requires !Check(ts, st.pos + 3, T.Ampersand)
    ensures Expression(ts, st) == Failed(st.(pos := st.pos + 3))
  {
    hide Primary;
  }

  /** A block with no `_` anywhere ahead cannot be closed: the block is a parse error
      (which the enclosing statement's recovery absorbs, `Statement` never failing). */
  lemma BlockNeedsUnderscore(rev: Revision, ts: seq<T.Token>, st: PState)
    requires ValidTokens(ts) && Inside(ts, st)
    requires forall j :: st.pos <= j < |ts| ==> ts[j].kind != T.Underscore
    ensures BlockStatement(rev, ts, st).Failed?
  {
    hide BlockItems;
    var items := BlockItems(rev, ts, st, []);
    assert st.pos <= items.st.pos;
  }

  /** In src the value of `!return` must be introduced by a dash. */
  lemma SrcReturnNeedsDash(ts: seq<T.Token>, st: PState)
    requires ValidTokens(ts) && Inside(ts, st)
    requires Check(ts, st.pos, T.Return) && !Check(ts, st.pos + 1, T.Dash)
    ensures FunctionCall(Src, ts, st).Failed?
  {
    hide Expression, AlertArgs, CallArgs;
  }

  /** In the bundle `!return` takes the expression that directly follows it. */
  lemma BundleReturnIsBare(ts: seq<T.Token>, st: PState)
    requires ValidTokens(ts) && Inside(ts, st)
    requires Check(ts, st.pos, T.Return) && Expression(ts, st.(pos := st.pos + 1)).Parsed?
    ensures FunctionCall(Bundle, ts, st) ==
      var e := Expression(ts, st.(pos := st.pos + 1));
      Parsed(ReturnStmt(e.value), e.st)
  {
    hide Expression, AlertArgs, CallArgs;
  }

  /** In src an `!alert` with no dash after it has no arguments: the tokens that follow
      are left for the next statement. */
  lemma SrcAlertArgumentsNeedDash(ts: seq<T.Token>, st: PState)
    requires ValidTokens(ts) && Inside(ts, st)
    requires Check(ts, st.pos, T.Alert) && !Check(ts, st.pos + 1, T.Dash)
    ensures FunctionCall(Src, ts, st) == Parsed(AlertStmt([]), st.(pos := st.pos + 1))
  {
    hide Expression, Primary, CallArgs;
  }

  /** In the bundle an `!alert` reads bare primaries and stops at a boundary. */
  lemma BundleAlertStopsAtBoundary(ts: seq<T.Token>, st: PState)
    requires ValidTokens(ts) && Inside(ts, st)
    requires Check(ts, st.pos, T.Alert) && ArgBoundary(ts, st.pos + 1, false)
    ensures FunctionCall(Bundle, ts, st) == Parsed(AlertStmt([]), st.(pos := st.pos + 1))
  {
    hide Expression, Primary, CallArgs;
  }

  /** Only the bundle turns `*expr :if` into a conditional; src always binds. */
  lemma OnlyBundleDiverts(ts: seq<T.Token>, st: PState)
    requires ValidTokens(ts) && Inside(ts, st)
    ensures Assignment(Src, ts, st).Parsed? ==> Assignment(Src, ts, st).value.AssignmentStmt?
  {
    hide Expression, IfStatement;
  }

  /** `*e@v`: the expression is bound to `v`, and remembered for later conditionals. */
  lemma SimpleAssignment(rev: Revision, ts: seq<T.Token>, st: PState)
    requires ValidTokens(ts) && Inside(ts, st)
    requires Primary(ts, st).Parsed? && Check(ts, st.pos + 1, T.At) && Check(ts, st.pos + 2, T.Identifier)
    ensures Assignment(rev, ts, st) ==
      var e := Primary(ts, st).value;
      Parsed(AssignmentStmt(e, ts[st.pos + 2].text), PState(st.pos + 3, Some(e)))
  {
    hide Expression, Primary, IfStatement;
    ChainWithoutAmpersand(ts, st);
  }

  /** In src an expression must be followed by `@`: the assignment fails right after
      the expression, which is remembered all the same. */
  lemma SrcAssignmentNeedsAt(ts: seq<T.Token>, st: PState, e: Expr, st1: PState)
    requires ValidTokens(ts) && Inside(ts, st)
    requires Primary(ts, st) == Parsed(e, st1) && st1.pos < |ts|
    requires !Check(ts, st1.pos, T.Ampersand) && !Check(ts, st1.pos, T.At)
    ensures Assignment(Src, ts, st) == Failed(st1.(last := Some(e)))
  {
    hide Expression, Primary, IfStatement;
    ChainWithoutAmpersand(ts, st);
  }

  /** `_` right away closes an empty block. */
  lemma EmptyBlock(rev: Revision, ts: seq<T.Token>, st: PState)
    requires ValidTokens(ts) && Inside(ts, st) && Check(ts, st.pos, T.Underscore)
    ensures BlockStatement(rev, ts, st) == Parsed(Block([]), st.(pos := st.pos + 1))
  {
    hide Statement;
  }

  /** A statement whose body parses is that body (recovery is not involved). */
  lemma StatementParsed(rev: Revision, ts: seq<T.Token>, st: PState)
    requires ValidTokens(ts) && Inside(ts, st) && StatementBody(rev, ts, st).Parsed?
    ensures Statement(rev, ts, st) == StatementBody(rev, ts, st)
  {
    hide StatementBody, Synchronize;
  }

  /** A parsed statement is appended to the program. */
  lemma ParseItemsStep(rev: Revision, ts: seq<T.Token>, st: PState, acc: seq<Stmt>, s: Stmt, st1: PState)
    requires ValidTokens(ts) && Inside(ts, st) && !AtEnd(ts, st.pos)
    requires Statement(rev, ts, st) == Parsed(Some(s), st1)
    ensures ParseItems(rev, ts, st, acc) == ParseItems(rev, ts, st1, acc + [s])
  {
    hide Statement;
  }

  /** A skipped or dropped statement adds nothing to the program. */
  lemma ParseItemsSkip(rev: Revision, ts: seq<T.Token>, st: PState, acc: seq<Stmt>, st1: PState)
    requires ValidTokens(ts) && Inside(ts, st) && !AtEnd(ts, st.pos)
    requires Statement(rev, ts, st) == Parsed(None, st1)
    ensures ParseItems(rev, ts, st, acc) == ParseItems(rev, ts, st1, acc)
  {
    hide Statement;
  }

  /** At EOF the program is complete. */
  lemma ParseItemsEnd(rev: Revision, ts: seq<T.Token>, st: PState, acc: seq<Stmt>)
    requires ValidTokens(ts) && Inside(ts, st) && AtEnd(ts, st.pos)
    ensures ParseItems(rev, ts, st, acc) == acc
  {
    hide Statement;
  }

  /** The cursors at which `parse` calls `statement`, starting from `st`: each one is
      where the statement before it (or its recovery) left off, and the last one's
      statement ends at EOF. */
  function StatementStarts(rev: Revision, ts: seq<T.Token>, st: PState): (cs: seq<PState>)
    requires ValidTokens(ts) && Inside(ts, st)
    ensures forall k :: 0 <= k < |cs| ==> Inside(ts, cs[k]) && !AtEnd(ts, cs[k].pos)
    ensures |cs| == 0 <==> AtEnd(ts, st.pos)
    ensures |cs| > 0 ==> cs[0] == st && AtEnd(ts, Statement(rev, ts, cs[|cs| - 1]).st.pos)
    ensures forall k :: 0 < k < |cs| ==> cs[k] == Statement(rev, ts, cs[k - 1]).st
    decreases |ts| - st.pos
  {
    hide Statement;
    if AtEnd(ts, st.pos) then []
    else
      var rest := StatementStarts(rev, ts, Statement(rev, ts, st).st);
      assert forall k :: 0 < k < |[st] + rest| ==> ([st] + rest)[k] == rest[k - 1];
      [st] + rest
  }

  /** The statements `statement` returned at the cursors `cs`, in order, leaving out
      the ones it dropped. */
  function ParsedAt(rev: Revision, ts: seq<T.Token>, cs: seq<PState>): seq<Stmt>
    requires ValidTokens(ts) && forall k :: 0 <= k < |cs| ==> Inside(ts, cs[k])
  {
    if |cs| == 0 then []
    else
      var s := Statement(rev, ts, cs[0]).value;
      (if s.Some? then [s.value] else []) + ParsedAt(rev, ts, cs[1..])
  }

  lemma StartsStep(rev: Revision, ts: seq<T.Token>, st: PState)
    requires ValidTokens(ts) && Inside(ts, st) && !AtEnd(ts, st.pos)
    ensures StatementStarts(rev, ts, st) == [st] + StatementStarts(rev, ts, Statement(rev, ts, st).st)
  {
    hide Statement;
  }

  lemma ParsedAtStep(rev: Revision, ts: seq<T.Token>, cs: seq<PState>)
    requires ValidTokens(ts) && (forall k :: 0 <= k < |cs| ==> Inside(ts, cs[k])) && |cs| > 0
    ensures var s := Statement(rev, ts, cs[0]).value;
      ParsedAt(rev, ts, cs) == (if s.Some? then [s.value] else []) + ParsedAt(rev, ts, cs[1..])
  {
    hide Statement;
  }

  /** What the statement at `st` contributes to the program. */
  function Contribution(rev: Revision, ts: seq<T.Token>, st: PState): seq<Stmt>
    requires ValidTokens(ts) && Inside(ts, st)
  {
    var s := Statement(rev, ts, st).value;
    if s.Some? then [s.value] else []
  }

  /** One turn of the statement loop: the statement at `st` is added, or nothing. */
  lemma ParseItemsTurn(rev: Revision, ts: seq<T.Token>, st: PState, acc: seq<Stmt>)
    requires ValidTokens(ts) && Inside(ts, st) && !AtEnd(ts, st.pos)
    ensures ParseItems(rev, ts, st, acc)
      == ParseItems(rev, ts, Statement(rev, ts, st).st, acc + Contribution(rev, ts, st))
  {
    hide Statement, ParseItems;
    var r := Statement(rev, ts, st);
    if r.value.Some? {
      ParseItemsStep(rev, ts, st, acc, r.value.value, r.st);
    } else {
      ParseItemsSkip(rev, ts, st, acc, r.st);
      assert acc + Contribution(rev, ts, st) == acc;
    }
  }

  /** The statements collected from `st` on: the one at `st`, then the rest. */
  lemma ParsedFromStep(rev: Revision, ts: seq<T.Token>, st: PState)
    requires ValidTokens(ts) && Inside(ts, st) && !AtEnd(ts, st.pos)
    ensures ParsedAt(rev, ts, StatementStarts(rev, ts, st))
      == Contribution(rev, ts, st) + ParsedAt(rev, ts, StatementStarts(rev, ts, Statement(rev, ts, st).st))
  {
    hide Statement, StatementStarts, ParsedAt;
    StartsStep(rev, ts, st);
    var cs := StatementStarts(rev, ts, st);
    assert cs[1..] == StatementStarts(rev, ts, Statement(rev, ts, st).st);
    ParsedAtStep(rev, ts, cs);
  }

  /** The statement loop keeps what it has gathered and appends, in order, exactly the
      statements `statement` returns from `st` up to EOF. */
  lemma {:induction false} ParseItemsCollects(rev: Revision, ts: seq<T.Token>, st: PState, acc: seq<Stmt>)
    requires ValidTokens(ts) && Inside(ts, st)
    ensures ParseItems(rev, ts, st, acc) == acc + ParsedAt(rev, ts, StatementStarts(rev, ts, st))
    decreases |ts| - st.pos
  {
    hide Statement, ParseItems, StatementStarts, Contribution;
    if AtEnd(ts, st.pos) {
      ParseItemsEnd(rev, ts, st, acc);
      assert StatementStarts(rev, ts, st) == [];
      assert acc + ParsedAt(rev, ts, []) == acc;
    } else {
      hide ParsedAt;
      var st1 := Statement(rev, ts, st).st;
      var head := Contribution(rev, ts, st);
      var tail := ParsedAt(rev, ts, StatementStarts(rev, ts, st1));
      ParseItemsTurn(rev, ts, st, acc);
      ParseItemsCollects(rev, ts, st1, acc + head);
      ParsedFromStep(rev, ts, st);
      assert (acc + head) + tail == acc + (head + tail);
    }
  }

  /** `parse` lists, in order, exactly the statements `statement` returned as it walked
      the tokens from the start to EOF; the ones recovery dropped are missing. */
  lemma ParseCollects(rev: Revision, ts: seq<T.Token>)
    requires ValidTokens(ts)
    ensures Parse(rev, ts).stmts == ParsedAt(rev, ts, StatementStarts(rev, ts, PState(0, None)))
  {
    ParseItemsCollects(rev, ts, PState(0, None), []);
    assert [] + ParsedAt(rev, ts, StatementStarts(rev, ts, PState(0, None)))
      == ParsedAt(rev, ts, StatementStarts(rev, ts, PState(0, None)));
  }

  lemma BlockItemsStep(rev: Revision, ts: seq<T.Token>, st: PState, acc: seq<Stmt>, s: Stmt, st1: PState)
    requires ValidTokens(ts) && Inside(ts, st) && !AtEnd(ts, st.pos) && !Check(ts, st.pos, T.Underscore)
    requires Statement(rev, ts, st) == Parsed(Some(s), st1)
    ensures BlockItems(rev, ts, st, acc) == BlockItems(rev, ts, st1, acc + [s])
  {
    hide Statement;
  }

  /** A block's statements are parsed one after another up to its `_`. */
  lemma BlockItemsEnd(rev: Revision, ts: seq<T.Token>, st: PState, acc: seq<Stmt>)
    requires ValidTokens(ts) && Inside(ts, st) && Check(ts, st.pos, T.Underscore)
    ensures BlockItems(rev, ts, st, acc) == Parsed(acc, st)
  {
    hide Statement;
  }

  /** A block holding exactly one statement. */
  lemma BlockOfOne(rev: Revision, ts: seq<T.Token>, st: PState, s: Stmt, st1: PState)
    requires ValidTokens(ts) && Inside(ts, st) && !AtEnd(ts, st.pos) && !Check(ts, st.pos, T.Underscore)
    requires Statement(rev, ts, st) == Parsed(Some(s), st1)
    requires st1.pos < |ts| && Check(ts, st1.pos, T.Underscore)
    ensures BlockStatement(rev, ts, st) == Parsed(Block([s]), st1.(pos := st1.pos + 1))
  {
    hide Statement, BlockItems;
    BlockItemsStep(rev, ts, st, [], s, st1);
    BlockItemsEnd(rev, ts, st1, [] + [s]);
    assert [] + [s] == [s];
  }

  /** The dispatch of `statement` on its first token: `*` an assignment, `!` a call,
      `:` a conditional and `^` a try; the statement is what that production parses. */
  lemma AssignmentDispatch(rev: Revision, ts: seq<T.Token>, st: PState, s: Stmt, st1: PState)
    requires ValidTokens(ts) && st.pos + 1 < |ts| && Check(ts, st.pos, T.Asterisk)
    requires Assignment(rev, ts, st.(pos := st.pos + 1)) == Parsed(s, st1)
    ensures Statement(rev, ts, st) == Parsed(Some(s), st1)
  {
    hide Assignment, FunctionDefinition, FunctionCall, IfStatement, TryStatement, Synchronize;
  }

  /** An assignment that fails to parse: recovery skips to the next recovery point. */
  lemma AssignmentFails(rev: Revision, ts: seq<T.Token>, st: PState, st1: PState)
    requires ValidTokens(ts) && st.pos + 1 < |ts| && Check(ts, st.pos, T.Asterisk)
    requires Assignment(rev, ts, st.(pos := st.pos + 1)) == Failed(st1)
    ensures st1.pos < |ts|
    ensures Statement(rev, ts, st) == Parsed(None, st1.(pos := Synchronize(ts, st1.pos)))
  {
    hide Assignment, FunctionDefinition, FunctionCall, IfStatement, TryStatement, Synchronize;
  }

  lemma CallDispatch(rev: Revision, ts: seq<T.Token>, st: PState, s: Stmt, st1: PState)
    requires ValidTokens(ts) && st.pos + 1 < |ts| && Check(ts, st.pos, T.Bang)
    requires FunctionCall(rev, ts, st.(pos := st.pos + 1)) == Parsed(s, st1)
    ensures Statement(rev, ts, st) == Parsed(Some(s), st1)
  {
    hide Assignment, FunctionDefinition, FunctionCall, IfStatement, TryStatement, Synchronize;
  }

  lemma IfDispatch(rev: Revision, ts: seq<T.Token>, st: PState, s: Stmt, st1: PState)
    requires ValidTokens(ts) && Inside(ts, st) && Check(ts, st.pos, T.Colon)
    requires IfStatement(rev, ts, st) == Parsed(s, st1)
    ensures Statement(rev, ts, st) == Parsed(Some(s), st1)
  {
    hide Assignment, FunctionDefinition, FunctionCall, IfStatement, TryStatement, Synchronize;
  }

  lemma TryDispatch(rev: Revision, ts: seq<T.Token>, st: PState, s: Stmt, st1: PState)
    requires ValidTokens(ts) && st.pos + 1 < |ts| && Check(ts, st.pos, T.Caret)
    requires TryStatement(rev, ts, st.(pos := st.pos + 1)) == Parsed(s, st1)
    ensures Statement(rev, ts, st) == Parsed(Some(s), st1)
  {
    hide Assignment, FunctionDefinition, FunctionCall, IfStatement, TryStatement, Synchronize;
  }

  /** A program of exactly one statement. */
  lemma ParseOne(rev: Revision, ts: seq<T.Token>, s: Stmt, st1: PState)
    requires ValidTokens(ts) && !AtEnd(ts, 0)
    requires Statement(rev, ts, PState(0, None)) == Parsed(Some(s), st1)
    requires st1.pos < |ts| && AtEnd(ts, st1.pos)
    ensures Parse(rev, ts) == Program([s])
  {
    hide Statement, ParseItems;
    ParseItemsStep(rev, ts, PState(0, None), [], s, st1);
    ParseItemsEnd(rev, ts, st1, [] + [s]);
    assert [] + [s] == [s];
  }

  /** `:if_` and a then-block, followed by whatever else part comes next. */
  lemma IfStep(rev: Revision, ts: seq<T.Token>, st: PState, b: Block, st1: PState)
    requires ValidTokens(ts) && st.pos + 3 < |ts|
    requires Check(ts, st.pos, T.Colon) && Check(ts, st.pos + 1, T.If) && Check(ts, st.pos + 2, T.Underscore)
    requires BlockStatement(rev, ts, st.(pos := st.pos + 3)) == Parsed(b, st1)
    ensures st1.pos < |ts|
    ensures IfStatement(rev, ts, st) == ElsePart(rev, ts, st1, b)
  {
    hide BlockStatement, ElsePart;
  }

  /** At EOF there is no else part: the conditional ends with the latest assignment as
      its condition. */
  lemma NoElseAtEnd(rev: Revision, ts: seq<T.Token>, st: PState, b: Block)
    requires ValidTokens(ts) && Inside(ts, st) && AtEnd(ts, st.pos)
    ensures ElsePart(rev, ts, st, b) == Parsed(IfStmt(Condition(st.last), b, None), st)
  {
    hide BlockStatement;
  }

  /** `label_` and a try block, followed by the catch part. */
  lemma TryStep(rev: Revision, ts: seq<T.Token>, st: PState, b: Block, st1: PState)
    requires ValidTokens(ts) && st.pos + 2 < |ts|
    requires Check(ts, st.pos, T.Identifier) && Check(ts, st.pos + 1, T.Underscore)
    requires BlockStatement(rev, ts, st.(pos := st.pos + 2)) == Parsed(b, st1)
    ensures st1.pos < |ts|
    ensures TryStatement(rev, ts, st) == CatchPart(rev, ts, st1, ts[st.pos].text, b)
  {
    hide BlockStatement, CatchPart;
  }

  /** `^label_` and a catch block complete the try statement, whatever the label. */
  lemma CatchStep(rev: Revision, ts: seq<T.Token>, st: PState, lab: string, b: Block, c: Block, st1: PState)
    requires ValidTokens(ts) && st.pos + 3 < |ts|
    requires Check(ts, st.pos, T.Caret) && Check(ts, st.pos + 1, T.Identifier) && Check(ts, st.pos + 2, T.Underscore)
    requires BlockStatement(rev, ts, st.(pos := st.pos + 3)) == Parsed(c, st1)
    ensures CatchPart(rev, ts, st, lab, b) == Parsed(TryStmt(lab, b, c), st1)
  {
    hide BlockStatement;
  }

  /** `*n@v` at `st`: one assignment statement, remembered as the latest. */
  lemma AssignmentStatement(rev: Revision, ts: seq<T.Token>, st: PState)
    requires ValidTokens(ts) && st.pos + 4 < |ts|
    requires Check(ts, st.pos, T.Asterisk) && Check(ts, st.pos + 1, T.Number)
    requires Check(ts, st.pos + 2, T.At) && Check(ts, st.pos + 3, T.Identifier)
    ensures Statement(rev, ts, st) ==
      Parsed(Some(AssignmentStmt(NumberAt(ts, st.pos + 1), ts[st.pos + 3].text)), PState(st.pos + 4, Some(NumberAt(ts, st.pos + 1))))
  {
    hide Statement, Assignment, Primary, JsNum.ParseDecimal;
    PrimaryNumber(ts, st.(pos := st.pos + 1));
    SimpleAssignment(rev, ts, st.(pos := st.pos + 1));
    AssignmentDispatch(rev, ts, st, AssignmentStmt(NumberAt(ts, st.pos + 1), ts[st.pos + 3].text),
      PState(st.pos + 4, Some(NumberAt(ts, st.pos + 1))));
  }

  /** A token that starts no statement is stepped over. */
  lemma SkipToken(rev: Revision, ts: seq<T.Token>, st: PState)
    requires ValidTokens(ts) && Inside(ts, st) && !AtEnd(ts, st.pos) && !T.IsStatementStart(ts[st.pos].kind)
    ensures Statement(rev, ts, st) == Parsed(None, st.(pos := st.pos + 1))
  {
    hide Statement;
    StatementDispatch(rev, ts, st);
  }

  /** A last token that starts no statement adds nothing to the program. */
  lemma SkipLastToken(rev: Revision, ts: seq<T.Token>, st: PState, acc: seq<Stmt>)
    requires ValidTokens(ts) && Inside(ts, st) && !AtEnd(ts, st.pos) && !T.IsStatementStart(ts[st.pos].kind)
    requires AtEnd(ts, st.pos + 1)
    ensures ParseItems(rev, ts, st, acc) == acc
  {
    hide Statement, ParseItems;
    SkipToken(rev, ts, st);
    ParseItemsSkip(rev, ts, st, acc, st.(pos := st.pos + 1));
    ParseItemsEnd(rev, ts, st.(pos := st.pos + 1), acc);
  }

  // Token patterns. Each lemma below fixes the kinds of a short token list and says
  // what it parses to; line, column and (where the result does not show it) text are
  // left free. The `Example` lemma instantiates one of them.

  predicate Kinds(ts: seq<T.Token>, ks: seq<T.Kind>) {
    |ts| == |ks| && forall i :: 0 <= i < |ks| ==> ts[i].kind == ks[i]
  }

  function Tk(k: T.Kind, text: string): T.Token {
    T.Token(k, text, 1, 1)
  }

  function NumberAt(ts: seq<T.Token>, i: nat): Expr
    requires i < |ts|
  {
    LiteralExpr(Num(JsNum.ParseDecimal(ts[i].text)))
  }

  const ConditionKinds := [T.Asterisk, T.Number, T.At, T.Identifier, T.Colon, T.If, T.Underscore,
                           T.Asterisk, T.Number, T.At, T.Identifier, T.Underscore, T.EOF]

  lemma ConditionFirst(rev: Revision, ts: seq<T.Token>)
    requires Kinds(ts, ConditionKinds)
    ensures Statement(rev, ts, PState(0, None)) ==
      Parsed(Some(AssignmentStmt(NumberAt(ts, 1), ts[3].text)), PState(4, Some(NumberAt(ts, 1))))
  {
    hide Statement, JsNum.ParseDecimal;
    AssignmentStatement(rev, ts, PState(0, None));
  }

  lemma ConditionBranch(rev: Revision, ts: seq<T.Token>)
    requires Kinds(ts, ConditionKinds)
    ensures BlockStatement(rev, ts, PState(7, Some(NumberAt(ts, 1)))) ==
      Parsed(Block([AssignmentStmt(NumberAt(ts, 8), ts[10].text)]), PState(12, Some(NumberAt(ts, 8))))
  {
    hide Statement, BlockStatement, JsNum.ParseDecimal;
    var s7 := PState(7, Some(NumberAt(ts, 1)));
    AssignmentStatement(rev, ts, s7);
    BlockOfOne(rev, ts, s7, AssignmentStmt(NumberAt(ts, 8), ts[10].text), PState(11, Some(NumberAt(ts, 8))));
  }

  lemma ConditionIf(rev: Revision, ts: seq<T.Token>)
    requires Kinds(ts, ConditionKinds)
    ensures IfStatement(rev, ts, PState(4, Some(NumberAt(ts, 1)))) ==
      var e2 := NumberAt(ts, 8);
      Parsed(IfStmt(e2, Block([AssignmentStmt(e2, ts[10].text)]), None), PState(12, Some(e2)))
  {
    hide IfStatement, ElsePart, BlockStatement, JsNum.ParseDecimal;
    var b := Block([AssignmentStmt(NumberAt(ts, 8), ts[10].text)]);
    ConditionBranch(rev, ts);
    IfStep(rev, ts, PState(4, Some(NumberAt(ts, 1))), b, PState(12, Some(NumberAt(ts, 8))));
    NoElseAtEnd(rev, ts, PState(12, Some(NumberAt(ts, 8))), b);
  }

  lemma ConditionTail(rev: Revision, ts: seq<T.Token>)
    requires Kinds(ts, ConditionKinds)
    ensures ParseItems(rev, ts, PState(4, Some(NumberAt(ts, 1))), [AssignmentStmt(NumberAt(ts, 1), ts[3].text)]) ==
      var e2 := NumberAt(ts, 8);
      [AssignmentStmt(NumberAt(ts, 1), ts[3].text), IfStmt(e2, Block([AssignmentStmt(e2, ts[10].text)]), None)]
  {
    hide ParseItems, Statement, IfStatement, JsNum.ParseDecimal;
    var e2 := NumberAt(ts, 8);
    var a1 := AssignmentStmt(NumberAt(ts, 1), ts[3].text);
    var i2 := IfStmt(e2, Block([AssignmentStmt(e2, ts[10].text)]), None);
    ConditionIf(rev, ts);
    IfDispatch(rev, ts, PState(4, Some(NumberAt(ts, 1))), i2, PState(12, Some(e2)));
    ParseItemsStep(rev, ts, PState(4, Some(NumberAt(ts, 1))), [a1], i2, PState(12, Some(e2)));
    ParseItemsEnd(rev, ts, PState(12, Some(e2)), [a1] + [i2]);
    assert [a1] + [i2] == [a1, i2];
  }

  /** `*1@x :if_ *2@y _`: the assignment inside the branch is the latest one when the
      conditional ends, so it supplies the condition. */
  lemma ConditionIsLatestAssignment(rev: Revision, ts: seq<T.Token>)
    requires Kinds(ts, ConditionKinds)
    ensures Parse(rev, ts) ==
      var e2 := NumberAt(ts, 8);
      Program([AssignmentStmt(NumberAt(ts, 1), ts[3].text),
               IfStmt(e2, Block([AssignmentStmt(e2, ts[10].text)]), None)])
  {
    hide ParseItems, Statement, JsNum.ParseDecimal;
    var a1 := AssignmentStmt(NumberAt(ts, 1), ts[3].text);
    ConditionFirst(rev, ts);
    ParseItemsStep(rev, ts, PState(0, None), [], a1, PState(4, Some(NumberAt(ts, 1))));
    assert [] + [a1] == [a1];
    ConditionTail(rev, ts);
  }

  const ConditionExampleTokens := [Tk(T.Asterisk, "*"), Tk(T.Number, "1"), Tk(T.At, "@"), Tk(T.Identifier, "x"),
                                   Tk(T.Colon, ":"), Tk(T.If, "if"), Tk(T.Underscore, "_"),
                                   Tk(T.Asterisk, "*"), Tk(T.Number, "2"), Tk(T.At, "@"), Tk(T.Identifier, "y"),
                                   Tk(T.Underscore, "_"), Tk(T.EOF, "")]

  lemma ConditionExample()
    ensures Parse(Src, ConditionExampleTokens) ==
      Program([AssignmentStmt(LiteralExpr(Num(1)), "x"),
               IfStmt(LiteralExpr(Num(2)), Block([AssignmentStmt(LiteralExpr(Num(2)), "y")]), None)])
  {
    hide Parse;
    assert JsNum.ParseDecimal("1") == 1;
    assert JsNum.ParseDecimal("2") == 2;
    ConditionIsLatestAssignment(Src, ConditionExampleTokens);
  }

  /** `^label_ _ ^other_ _`: a try with empty blocks keeps the first label whatever the
      second one says. */
  lemma TryOfEmptyBlocks(rev: Revision, ts: seq<T.Token>, st: PState)
    requires ValidTokens(ts) && st.pos + 7 < |ts|
    requires Check(ts, st.pos, T.Identifier) && Check(ts, st.pos + 1, T.Underscore) && Check(ts, st.pos + 2, T.Underscore)
    requires Check(ts, st.pos + 3, T.Caret) && Check(ts, st.pos + 4, T.Identifier)
    requires Check(ts, st.pos + 5, T.Underscore) && Check(ts, st.pos + 6, T.Underscore)
    ensures TryStatement(rev, ts, st) == Parsed(TryStmt(ts[st.pos].text, Block([]), Block([])), st.(pos := st.pos + 7))
  {
    hide TryStatement, CatchPart, BlockStatement;
    EmptyBlock(rev, ts, st.(pos := st.pos + 2));
    TryStep(rev, ts, st, Block([]), st.(pos := st.pos + 3));
    EmptyBlock(rev, ts, st.(pos := st.pos + 6));
    CatchStep(rev, ts, st.(pos := st.pos + 3), ts[st.pos].text, Block([]), Block([]), st.(pos := st.pos + 7));
  }

  /** `^a_ _ ^b_ _`: the catch label differs from the try label and is simply dropped. */
  lemma CatchLabelNotCompared(rev: Revision, ts: seq<T.Token>)
    requires Kinds(ts, [T.Caret, T.Identifier, T.Underscore, T.Underscore,
                        T.Caret, T.Identifier, T.Underscore, T.Underscore, T.EOF])
    ensures Parse(rev, ts) == Program([TryStmt(ts[1].text, Block([]), Block([]))])
  {
    hide Parse, Statement, TryStatement;
    var t := TryStmt(ts[1].text, Block([]), Block([]));
    TryOfEmptyBlocks(rev, ts, PState(1, None));
    TryDispatch(rev, ts, PState(0, None), t, PState(8, None));
    ParseOne(rev, ts, t, PState(8, None));
  }

  const SrcCallKinds := [T.Bang, T.Identifier, T.Dash, T.Identifier, T.Dash, T.Identifier, T.At, T.Identifier, T.EOF]

  lemma SrcDashedArgs(ts: seq<T.Token>)
    requires Kinds(ts, SrcCallKinds)
    ensures CallArgs(Src, ts, PState(2, None)) ==
      Parsed([IdentifierExpr(ts[3].text), IdentifierExpr(ts[5].text)], PState(6, None))
  {
    hide Primary;
    var a := IdentifierExpr(ts[3].text);
    var b := IdentifierExpr(ts[5].text);
    PrimaryIdentifier(ts, PState(3, None));
    PrimaryIdentifier(ts, PState(5, None));
    assert [] + [a] == [a] && [a] + [b] == [a, b];
    assert DashArgs(ts, PState(6, None), [a, b]) == Parsed([a, b], PState(6, None));
    assert DashArgs(ts, PState(4, None), [a]) == Parsed([a, b], PState(6, None));
  }

  lemma SrcCallStatement(ts: seq<T.Token>)
    requires Kinds(ts, SrcCallKinds)
    ensures FunctionCall(Src, ts, PState(1, None)) ==
      Parsed(FunctionCallStmt(ts[1].text, [IdentifierExpr(ts[3].text), IdentifierExpr(ts[5].text)], Some(ts[7].text)), PState(8, None))
  {
    hide CallArgs, AlertArgs, Expression;
    SrcDashedArgs(ts);
  }

  /** The tokens `! f - a - b @ r` in src: dash-introduced arguments, then the result
      binding. */
  lemma SrcDashedCall(ts: seq<T.Token>)
    requires Kinds(ts, SrcCallKinds)
    ensures Parse(Src, ts) ==
      Program([FunctionCallStmt(ts[1].text, [IdentifierExpr(ts[3].text), IdentifierExpr(ts[5].text)], Some(ts[7].text))])
  {
    hide Parse, Statement, FunctionCall;
    var c := FunctionCallStmt(ts[1].text, [IdentifierExpr(ts[3].text), IdentifierExpr(ts[5].text)], Some(ts[7].text));
    SrcCallStatement(ts);
    CallDispatch(Src, ts, PState(0, None), c, PState(8, None));
    ParseOne(Src, ts, c, PState(8, None));
  }

  const BundleCallKinds := [T.Bang, T.Identifier, T.Identifier, T.Identifier, T.At, T.Identifier, T.EOF]

  lemma BundleSpacedArgs(ts: seq<T.Token>)
    requires Kinds(ts, BundleCallKinds)
    ensures CallArgs(Bundle, ts, PState(2, None)) ==
      Parsed([IdentifierExpr(ts[2].text), IdentifierExpr(ts[3].text)], PState(4, None))
  {
    hide Primary;
    var a := IdentifierExpr(ts[2].text);
    var b := IdentifierExpr(ts[3].text);
    PrimaryIdentifier(ts, PState(2, None));
    PrimaryIdentifier(ts, PState(3, None));
    assert [] + [a] == [a] && [a] + [b] == [a, b];
    assert SpacedArgs(ts, PState(4, None), [a, b], true) == Parsed([a, b], PState(4, None));
    assert SpacedArgs(ts, PState(3, None), [a], true) == Parsed([a, b], PState(4, None));
  }

  lemma BundleCallStatement(ts: seq<T.Token>)
    requires Kinds(ts, BundleCallKinds)
    ensures FunctionCall(Bundle, ts, PState(1, None)) ==
      Parsed(FunctionCallStmt(ts[1].text, [IdentifierExpr(ts[2].text), IdentifierExpr(ts[3].text)], Some(ts[5].text)), PState(6, None))
  {
    hide CallArgs, AlertArgs, Expression;
    BundleSpacedArgs(ts);
  }

  /** `!f a b@r` in the bundle: the same call, with bare arguments up to `@`. */
  lemma BundleSpacedCall(ts: seq<T.Token>)
    requires Kinds(ts, BundleCallKinds)
    ensures Parse(Bundle, ts) ==
      Program([FunctionCallStmt(ts[1].text, [IdentifierExpr(ts[2].text), IdentifierExpr(ts[3].text)], Some(ts[5].text))])
  {
    hide Parse, Statement, FunctionCall;
    var c := FunctionCallStmt(ts[1].text, [IdentifierExpr(ts[2].text), IdentifierExpr(ts[3].text)], Some(ts[5].text));
    BundleCallStatement(ts);
    CallDispatch(Bundle, ts, PState(0, None), c, PState(6, None));
    ParseOne(Bundle, ts, c, PState(6, None));
  }

  const DivertKinds := [T.Asterisk, T.Identifier, T.Colon, T.If, T.Underscore, T.Underscore, T.EOF]

  /** `:if_ _` at the end of input: a conditional with an empty then-block, no else
      part, and the remembered expression as its condition. */
  lemma EmptyConditionalAtEnd(rev: Revision, ts: seq<T.Token>, st: PState)
    requires ValidTokens(ts) && st.pos + 4 < |ts|
    requires Check(ts, st.pos, T.Colon) && Check(ts, st.pos + 1, T.If) && Check(ts, st.pos + 2, T.Underscore)
    requires Check(ts, st.pos + 3, T.Underscore) && AtEnd(ts, st.pos + 4)
    ensures IfStatement(rev, ts, st) == Parsed(IfStmt(Condition(st.last), Block([]), None), st.(pos := st.pos + 4))
  {
    hide IfStatement, ElsePart, BlockStatement;
    EmptyBlock(rev, ts, st.(pos := st.pos + 3));
    IfStep(rev, ts, st, Block([]), st.(pos := st.pos + 4));
    NoElseAtEnd(rev, ts, st.(pos := st.pos + 4), Block([]));
  }

  lemma DivertedAssignment(ts: seq<T.Token>)
    requires Kinds(ts, DivertKinds)
    ensures Assignment(Bundle, ts, PState(1, None)) ==
      Parsed(IfStmt(IdentifierExpr(ts[1].text), Block([]), None), PState(6, Some(IdentifierExpr(ts[1].text))))
  {
    hide Expression, Primary, IfStatement;
    PrimaryIdentifier(ts, PState(1, None));
    ChainWithoutAmpersand(ts, PState(1, None));
    EmptyConditionalAtEnd(Bundle, ts, PState(2, Some(IdentifierExpr(ts[1].text))));
  }

  /** `*x :if_ _` in the bundle is a conditional on `x` that binds nothing. */
  lemma BundleDivertsToConditional(ts: seq<T.Token>)
    requires Kinds(ts, DivertKinds)
    ensures Parse(Bundle, ts) == Program([IfStmt(IdentifierExpr(ts[1].text), Block([]), None)])
  {
    hide Parse, Statement, Assignment;
    var x := IdentifierExpr(ts[1].text);
    DivertedAssignment(ts);
    AssignmentDispatch(Bundle, ts, PState(0, None), IfStmt(x, Block([]), None), PState(6, Some(x)));
    ParseOne(Bundle, ts, IfStmt(x, Block([]), None), PState(6, Some(x)));
  }

  /** In src `*x :if_` is an assignment missing its `@`: the statement is dropped,
      `x` is remembered all the same, and recovery resumes just after the `_`. */
  lemma SrcAssignmentBeforeConditional(ts: seq<T.Token>, st: PState)
    requires ValidTokens(ts) && st.pos + 5 < |ts|
    requires Check(ts, st.pos, T.Asterisk) && Check(ts, st.pos + 1, T.Identifier)
    requires Check(ts, st.pos + 2, T.Colon) && Check(ts, st.pos + 3, T.If) && Check(ts, st.pos + 4, T.Underscore)
    ensures Statement(Src, ts, st) == Parsed(None, PState(st.pos + 5, Some(IdentifierExpr(ts[st.pos + 1].text))))
  {
    hide Statement, Assignment, Primary, Synchronize;
    var x := IdentifierExpr(ts[st.pos + 1].text);
    PrimaryIdentifier(ts, st.(pos := st.pos + 1));
    SrcAssignmentNeedsAt(ts, st.(pos := st.pos + 1), x, st.(pos := st.pos + 2));
    AssignmentFails(Src, ts, st, PState(st.pos + 2, Some(x)));
    SyncPastConditionHead(ts, st.pos + 2);
  }

  /** The same tokens in src: `@` is missing after `x`, recovery stops just after the
      first `_`, and the second `_` is skipped, leaving an empty program. */
  lemma SrcDropsDivertedConditional(ts: seq<T.Token>)
    requires Kinds(ts, DivertKinds)
    ensures Parse(Src, ts) == Program([])
  {
    hide ParseItems, Statement;
    var s5 := PState(5, Some(IdentifierExpr(ts[1].text)));
    SrcAssignmentBeforeConditional(ts, PState(0, None));
    ParseItemsSkip(Src, ts, PState(0, None), [], s5);
    SkipLastToken(Src, ts, s5, []);
  }

  const RecoveryKinds := [T.Asterisk, T.Number, T.Ampersand, T.Identifier,
                          T.Asterisk, T.Number, T.At, T.Identifier, T.EOF]

  lemma RecoveryFirst(rev: Revision, ts: seq<T.Token>)
    requires Kinds(ts, RecoveryKinds)
    ensures Statement(rev, ts, PState(0, None)) == Parsed(None, PState(4, None))
  {
    hide Statement, Expression, Primary, IfStatement;
    ChainMissingOperator(ts, PState(1, None));
    assert Assignment(rev, ts, PState(1, None)) == Failed(PState(3, None));
    AssignmentFails(rev, ts, PState(0, None), PState(3, None));
    assert SyncLoop(ts, 4) == 4;
  }

  lemma RecoveryTail(rev: Revision, ts: seq<T.Token>)
    requires Kinds(ts, RecoveryKinds)
    ensures ParseItems(rev, ts, PState(4, None), []) == [AssignmentStmt(NumberAt(ts, 5), ts[7].text)]
  {
    hide ParseItems, Statement, JsNum.ParseDecimal;
    var a := AssignmentStmt(NumberAt(ts, 5), ts[7].text);
    AssignmentStatement(rev, ts, PState(4, None));
    ParseItemsStep(rev, ts, PState(4, None), [], a, PState(8, Some(NumberAt(ts, 5))));
    ParseItemsEnd(rev, ts, PState(8, Some(NumberAt(ts, 5))), [] + [a]);
    assert [] + [a] == [a];
  }

  /** `*1&x *2@y`: the first statement lacks an operator after `&`; recovery resumes at
      the next `*` and only the second assignment survives. */
  lemma RecoveryDropsBadStatement(rev: Revision, ts: seq<T.Token>)
    requires Kinds(ts, RecoveryKinds)
    ensures Parse(rev, ts) == Program([AssignmentStmt(NumberAt(ts, 5), ts[7].text)])
  {
    hide ParseItems, Statement;
    RecoveryFirst(rev, ts);
    ParseItemsSkip(rev, ts, PState(0, None), [], PState(4, None));
    RecoveryTail(rev, ts);
  }

  /** `* n @ x` on its own is one assignment, in both revisions. */
  lemma SingleAssignment(rev: Revision, ts: seq<T.Token>)
    requires Kinds(ts, [T.Asterisk, T.Number, T.At, T.Identifier, T.EOF])
    ensures Parse(rev, ts) == Program([AssignmentStmt(NumberAt(ts, 1), ts[3].text)])
  {
    hide Parse, Statement, JsNum.ParseDecimal;
    AssignmentStatement(rev, ts, PState(0, None));
    ParseOne(rev, ts, AssignmentStmt(NumberAt(ts, 1), ts[3].text), PState(4, Some(NumberAt(ts, 1))));
  }

  /** Conversely, dash-introduced identifiers with no dash after them are read as
      parameters, all of them and in order. */
  lemma {:induction false} ParamsReadsDashNames(ts: seq<T.Token>, st: PState, acc: seq<string>, names: seq<string>)
    requires ValidTokens(ts) && Inside(ts, st)
    requires DashNames(ts, st.pos, names)
    requires st.pos + 2 * |names| < |ts| && !Check(ts, st.pos + 2 * |names|, T.Dash)
    ensures Params(ts, st, acc) == Parsed(acc + names, st.(pos := st.pos + 2 * |names|))
    decreases |names|
  {
    if |names| == 0 {
      assert acc + names == acc;
    } else {
      var st1 := st.(pos := st.pos + 2);
      ParamsReadsDashNames(ts, st1, acc + [names[0]], names[1..]);
      assert acc + [names[0]] + names[1..] == acc + names;
    }
  }

  /** The names `Params` reads are exactly the identifiers the dashes introduce. */
  lemma {:induction false} ParamsAreDashNames(ts: seq<T.Token>, st: PState, acc: seq<string>)
    requires ValidTokens(ts) && Inside(ts, st)
    ensures var r := Params(ts, st, acc); r.Parsed? ==> DashNames(ts, st.pos, r.value[|acc|..])
    decreases |ts| - st.pos
  {
    var r := Params(ts, st, acc);
    if r.Parsed? && Check(ts, st.pos, T.Dash) {
      var p := Consume(ts, st.(pos := st.pos + 1), T.Identifier);
      ParamsAreDashNames(ts, p.st, acc + [p.value.text]);
      assert r.value[|acc|..][1..] == r.value[|acc| + 1..];
      assert r.value[|acc|] == p.value.text;
    } else if r.Parsed? {
      assert r.value[|acc|..] == [];
    }
  }

  /** A definition `~name-p-q_ ..._`: the name is the identifier after `~`, the
      parameters are the dash-introduced identifiers after it, in order, and the
      body's `_` follows them. */
  lemma FunctionDefinitionReads(rev: Revision, ts: seq<T.Token>, st: PState)
    requires ValidTokens(ts) && Inside(ts, st)
    ensures var r := FunctionDefinition(rev, ts, st);
      r.Parsed? ==> Check(ts, st.pos, T.Identifier) && r.value.name == ts[st.pos].text
                    && DashNames(ts, st.pos + 1, r.value.params)
                    && var u := st.pos + 1 + 2 * |r.value.params|; u < r.st.pos && Check(ts, u, T.Underscore)
  {
    hide BlockStatement, Params, DashNames;
    var r := FunctionDefinition(rev, ts, st);
    if r.Parsed? {
      var n := Consume(ts, st, T.Identifier);
      ParamsAreDashNames(ts, n.st, []);
      var ps := Params(ts, n.st, []);
      assert ps.value[0..] == ps.value;
    }
  }
}
