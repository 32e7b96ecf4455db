/** The recursive-descent parser (src/parser.ts, and the later revision in
    web/bundle.js): tokens to a Program. A statement that fails to parse is dropped and
    the cursor resynchronises, so `Parse` itself never fails. */
module Parser {

  import opened Wrappers
  import opened Revisions
  import opened Ast
  import T = Tokens
  import JsNum

  /** What the parser demands of its input: a non-empty list whose last token is EOF
      (the scanner's output always is). */
  predicate ValidTokens(ts: seq<T.Token>) {
    |ts| > 0 && ts[|ts| - 1].kind == T.EOF
  }

  /** The facts about token spelling that the scanner guarantees and on which the
      shape of the tree (operator texts, call names) depends. */
  predicate Consistent(ts: seq<T.Token>) {
    forall i :: 0 <= i < |ts| ==> ConsistentToken(ts[i])
  }

  predicate ConsistentToken(t: T.Token) {
    && (T.FixedText(t.kind).Some? ==> t.text == T.FixedText(t.kind).value)
    && (t.kind == T.Identifier ==> t.text !in T.KeywordTexts)
  }

  /** The parser's mutable state: the cursor, and the expression of the latest
      assignment parsed so far (which later conditionals take as their condition). */
  datatype PState = PState(pos: nat, last: Option<Expr>)

  /** A production either returns its node and the state after it, or raises a parse
      error, leaving the state it had reached when it raised. */
  datatype Parsed<+A> = Parsed(value: A, st: PState) | Failed(st: PState)

  predicate AtEnd(ts: seq<T.Token>, pos: nat)
    requires pos < |ts|
  {
    ts[pos].kind == T.EOF
  }

  /** `check`: the token under the cursor has kind `k` (never true at EOF). */
  predicate Check(ts: seq<T.Token>, pos: nat, k: T.Kind)
    requires pos < |ts|
  {
    !AtEnd(ts, pos) && ts[pos].kind == k
  }

  /** `advance`: the cursor moves one token on, except at EOF. */
  function Next(ts: seq<T.Token>, pos: nat): (r: nat)
    requires ValidTokens(ts) && pos < |ts|
    ensures r < |ts|
    ensures AtEnd(ts, pos) ==> r == pos
    ensures !AtEnd(ts, pos) ==> r == pos + 1
  {
    if AtEnd(ts, pos) then pos else pos + 1
  }

  /** The state carries a cursor inside the token list. */
  predicate Inside(ts: seq<T.Token>, st: PState) {
    st.pos < |ts|
  }

  /** A production only moves the cursor forward, and never past the end. */
  predicate Forward<A>(ts: seq<T.Token>, st: PState, r: Parsed<A>) {
    st.pos <= r.st.pos < |ts|
  }

  /** `consume`: the token under the cursor if it has kind `k`, else a parse error. */
  function Consume(ts: seq<T.Token>, st: PState, k: T.Kind): (r: Parsed<T.Token>)
    requires ValidTokens(ts) && Inside(ts, st)
    ensures Forward(ts, st, r) && r.st.last == st.last
    ensures r.Parsed? <==> Check(ts, st.pos, k)
    ensures r.Parsed? ==> r.value == ts[st.pos] && r.st.pos == st.pos + 1
    ensures r.Failed? ==> r.st == st
  {
    if Check(ts, st.pos, k) then Parsed(ts[st.pos], st.(pos := st.pos + 1)) else Failed(st)
  }

  /** `primary`: a number, a text literal, or a variable reference. */
  function Primary(ts: seq<T.Token>, st: PState): (r: Parsed<Expr>)
    requires ValidTokens(ts) && Inside(ts, st)
    ensures Forward(ts, st, r) && r.st.last == st.last
    ensures r.Parsed? ==> IsPrimary(r.value) && r.st.pos == st.pos + 1
    ensures r.Failed? ==> r.st == st
    ensures r.Parsed? <==> (Check(ts, st.pos, T.Number) || Check(ts, st.pos, T.String) || Check(ts, st.pos, T.Identifier))
  {
    var t := ts[st.pos];
    var after := st.(pos := st.pos + 1);
    if Check(ts, st.pos, T.Number) then Parsed(LiteralExpr(Num(JsNum.ParseDecimal(t.text))), after)
    else if Check(ts, st.pos, T.String) then Parsed(LiteralExpr(Text(t.text)), after)
    else if Check(ts, st.pos, T.Identifier) then Parsed(IdentifierExpr(t.text), after)
    else Failed(st)
  }

  /** A chain under construction: operands at even indices, operator literals at odd
      ones, and (for consistent tokens) only the eleven operator spellings. */
  predicate PartialChain(ts: seq<T.Token>, chain: seq<Expr>) {
    && |chain| % 2 == 1
    && (forall i :: 0 <= i < |chain| && i % 2 == 0 ==> IsPrimary(chain[i]))
    && (forall i :: 0 <= i < |chain| && i % 2 == 1 ==> chain[i].LiteralExpr? && chain[i].value.Text?)
    && (Consistent(ts) ==> forall i :: 0 <= i < |chain| && i % 2 == 1 ==> IsOperatorLiteral(chain[i]))
  }

  /** `expression` / `chainExpression`: a primary followed by any number of
      `& operator & primary` groups. */
  function Expression(ts: seq<T.Token>, st: PState): (r: Parsed<Expr>)
    requires ValidTokens(ts) && Inside(ts, st)
    ensures Forward(ts, st, r) && r.st.last == st.last
    ensures r.Parsed? && Consistent(ts) ==> WellFormedExpr(r.value)
    ensures r.Parsed? ==> IsPrimary(r.value) || (r.value.ChainExpr? && |r.value.items| >= 3)
  {
    var p := Primary(ts, st);
    if p.Failed? then Failed(p.st) else ChainTail(ts, p.st, [p.value])
  }

  function ChainTail(ts: seq<T.Token>, st: PState, chain: seq<Expr>): (r: Parsed<Expr>)
    requires ValidTokens(ts) && Inside(ts, st) && |chain| >= 1 && PartialChain(ts, chain)
    ensures Forward(ts, st, r) && r.st.last == st.last
    ensures r.Parsed? && |chain| == 1 && !Check(ts, st.pos, T.Ampersand) ==> r.value == chain[0]
    ensures r.Parsed? && Consistent(ts) ==> WellFormedExpr(r.value)
    ensures r.Parsed? ==> (|chain| == 1 && r.value == chain[0]) || (r.value.ChainExpr? && |r.value.items| >= 3)
    decreases |ts| - st.pos
  {
    if Check(ts, st.pos, T.Ampersand) then
      var g := ChainGroup(ts, st);
      if g.Failed? then Failed(g.st)
      else
        PartialChainExtend(ts, chain, g.value.0, g.value.1);
        ChainTail(ts, g.st, chain + [g.value.0, g.value.1])
    else if |chain| > 1 then Parsed(ChainExpr(chain), st)
    else Parsed(chain[0], st)
  }

  /** One `& operator & primary` group of a chain, the cursor on its first `&`. A
      missing operator leaves the cursor after the first `&`, a missing second `&`
      leaves it after the operator. */
  function ChainGroup(ts: seq<T.Token>, st: PState): (r: Parsed<(Expr, Expr)>)
    requires ValidTokens(ts) && Inside(ts, st) && Check(ts, st.pos, T.Ampersand)
    ensures Forward(ts, st, r) && r.st.last == st.last
    ensures r.Parsed? ==> r.st.pos == st.pos + 4
    ensures r.Parsed? ==> r.value.0.LiteralExpr? && r.value.0.value.Text? && IsPrimary(r.value.1)
    ensures r.Parsed? && Consistent(ts) ==> IsOperatorLiteral(r.value.0)
  {
    var p := st.pos + 1;
    if !AtEnd(ts, p) && T.IsChainOperator(ts[p].kind) then
      var op := ts[p].text;
      if Check(ts, p + 1, T.Ampersand) then
        var e := Primary(ts, st.(pos := p + 2));
        if e.Failed? then Failed(e.st)
        else
          assert Consistent(ts) ==> ConsistentToken(ts[p]);
          Parsed((LiteralExpr(Text(op)), e.value), e.st)
      else Failed(st.(pos := p + 1))
    else Failed(st.(pos := p))
  }

  lemma PartialChainExtend(ts: seq<T.Token>, chain: seq<Expr>, op: Expr, e: Expr)
    requires PartialChain(ts, chain)
    requires op.LiteralExpr? && op.value.Text? && IsPrimary(e)
    requires Consistent(ts) ==> IsOperatorLiteral(op)
    ensures PartialChain(ts, chain + [op, e])
  {
    var c := chain + [op, e];
    assert forall i :: 0 <= i < |chain| ==> c[i] == chain[i];
  }

  /** `-arg-arg...`: each argument introduced by a dash. */
  function DashArgs(ts: seq<T.Token>, st: PState, acc: seq<Expr>): (r: Parsed<seq<Expr>>)
    requires ValidTokens(ts) && Inside(ts, st) && AllPrimary(acc)
    ensures Forward(ts, st, r) && r.st.last == st.last
    ensures r.Parsed? ==> AllPrimary(r.value) && |r.value| >= |acc| && r.value[..|acc|] == acc
    ensures r.Parsed? ==> !Check(ts, r.st.pos, T.Dash)
    decreases |ts| - st.pos
  {
    if Check(ts, st.pos, T.Dash) then
      var e := Primary(ts, st.(pos := st.pos + 1));
      if e.Failed? then Failed(e.st) else DashArgs(ts, e.st, acc + [e.value])
    else Parsed(acc, st)
  }

  /** The tokens at which a space-separated argument list ends: EOF, a statement start,
      a block end, and for a call (not an alert) the `@` of its result binding. */
  predicate ArgBoundary(ts: seq<T.Token>, pos: nat, stopAtAt: bool)
    requires pos < |ts|
  {
    AtEnd(ts, pos) || T.IsStatementStart(ts[pos].kind) || ts[pos].kind == T.Underscore
    || (stopAtAt && ts[pos].kind == T.At)
  }

  /** Bare primaries up to a boundary (bundle `parseAlertArguments` and the space
      style of `parseFunctionArguments`). */
  function SpacedArgs(ts: seq<T.Token>, st: PState, acc: seq<Expr>, stopAtAt: bool): (r: Parsed<seq<Expr>>)
    requires ValidTokens(ts) && Inside(ts, st) && AllPrimary(acc)
    ensures Forward(ts, st, r) && r.st.last == st.last
    ensures r.Parsed? ==> AllPrimary(r.value) && |r.value| >= |acc| && r.value[..|acc|] == acc
    ensures r.Parsed? ==> ArgBoundary(ts, r.st.pos, stopAtAt)
    decreases |ts| - st.pos
  {
    if !ArgBoundary(ts, st.pos, stopAtAt) then
      var e := Primary(ts, st);
      if e.Failed? then Failed(e.st) else SpacedArgs(ts, e.st, acc + [e.value], stopAtAt)
    else Parsed(acc, st)
  }

  /** Arguments of `!alert`: dash-introduced in src, bare up to a boundary in the
      bundle. */
  function AlertArgs(rev: Revision, ts: seq<T.Token>, st: PState): (r: Parsed<seq<Expr>>)
    requires ValidTokens(ts) && Inside(ts, st)
    ensures Forward(ts, st, r) && r.st.last == st.last
    ensures r.Parsed? ==> AllPrimary(r.value)
    ensures rev == Src && r.Parsed? ==> !Check(ts, r.st.pos, T.Dash)
    ensures rev == Bundle && r.Parsed? ==> ArgBoundary(ts, r.st.pos, false)
  {
    if rev == Src then DashArgs(ts, st, []) else SpacedArgs(ts, st, [], false)
  }

  /** Arguments of a user call: dash-introduced in src; in the bundle dash-introduced
      when the first one starts with `-`, otherwise bare up to `@` or a boundary. */
  function CallArgs(rev: Revision, ts: seq<T.Token>, st: PState): (r: Parsed<seq<Expr>>)
    requires ValidTokens(ts) && Inside(ts, st)
    ensures Forward(ts, st, r) && r.st.last == st.last
    ensures r.Parsed? ==> AllPrimary(r.value)
    ensures (rev == Src || Check(ts, st.pos, T.Dash)) && r.Parsed? ==> !Check(ts, r.st.pos, T.Dash)
    ensures !(rev == Src || Check(ts, st.pos, T.Dash)) && r.Parsed? ==> ArgBoundary(ts, r.st.pos, true)
  {
    if rev == Src || Check(ts, st.pos, T.Dash) then DashArgs(ts, st, []) else SpacedArgs(ts, st, [], true)
  }

  /** `functionCall`, entered after `!`: an alert, a return, or a user call with an
      optional `@result`. */
  function FunctionCall(rev: Revision, ts: seq<T.Token>, st: PState): (r: Parsed<Stmt>)
    requires ValidTokens(ts) && Inside(ts, st)
    ensures Forward(ts, st, r) && r.st.last == st.last
    ensures r.Parsed? ==> r.st.pos > st.pos
    ensures r.Parsed? && Consistent(ts) ==> WellFormedStmt(r.value)
    ensures r.Parsed? ==> r.value.AlertStmt? || r.value.ReturnStmt? || r.value.FunctionCallStmt?
  {
    var after := st.(pos := st.pos + 1);
    if Check(ts, st.pos, T.Alert) then
      var a := AlertArgs(rev, ts, after);
      if a.Failed? then Failed(a.st) else Parsed(AlertStmt(a.value), a.st)
    else if Check(ts, st.pos, T.Return) then
      var d := if rev == Src then Consume(ts, after, T.Dash) else Parsed(ts[st.pos], after);
      if d.Failed? then Failed(d.st)
      else
        var e := Expression(ts, d.st);
        if e.Failed? then Failed(e.st) else Parsed(ReturnStmt(e.value), e.st)
    else if Check(ts, st.pos, T.Identifier) then
      var name := ts[st.pos].text;
      var a := CallArgs(rev, ts, after);
      if a.Failed? then Failed(a.st)
      else if Check(ts, a.st.pos, T.At) then
        var v := Consume(ts, a.st.(pos := a.st.pos + 1), T.Identifier);
        if v.Failed? then Failed(v.st) else Parsed(FunctionCallStmt(name, a.value, Some(v.value.text)), v.st)
      else Parsed(FunctionCallStmt(name, a.value, None), a.st)
    else Failed(st)
  }

  /** `synchronize`: skip at least one token, then stop just after a `_`, just before a
      statement start, or at EOF. */
  function Synchronize(ts: seq<T.Token>, pos: nat): (r: nat)
    requires ValidTokens(ts) && pos < |ts|
    ensures pos <= r < |ts|
    ensures !AtEnd(ts, pos) ==> pos < r
  {
    SyncLoop(ts, Next(ts, pos))
  }

  function SyncLoop(ts: seq<T.Token>, p: nat): (r: nat)
    requires ValidTokens(ts) && p < |ts| && (p >= 1 || AtEnd(ts, p))
    ensures p <= r < |ts|
    decreases |ts| - p
  {
    if AtEnd(ts, p) then p
    else if ts[p - 1].kind == T.Underscore then p
    else if T.IsStatementStart(ts[p].kind) then p
    else SyncLoop(ts, p + 1)
  }

  /** The expression the parser remembers is always one it could have produced. */
  predicate LastOk(last: Option<Expr>) {
    last.Some? ==> WellFormedExpr(last.value)
  }

  /** The starting point under which the statement productions promise well-formed
      results: consistent tokens and a well-formed remembered expression. */
  predicate Sound(ts: seq<T.Token>, st: PState) {
    Consistent(ts) && LastOk(st.last)
  }

  /** What every mutually recursive statement production promises about the state:
      forward motion, and a remembered expression that stays well formed. */
  predicate Moves<A>(ts: seq<T.Token>, st: PState, r: Parsed<A>) {
    && Forward(ts, st, r)
    && (Sound(ts, st) ==> LastOk(r.st.last))
  }

  predicate OptWellFormed(s: Option<Stmt>) {
    s.Some? ==> WellFormedStmt(s.value)
  }

  /** `statement`: one statement, or None for a skipped token or a statement dropped by
      error recovery. Never fails, and moves past at least one token unless at EOF. */
  function Statement(rev: Revision, ts: seq<T.Token>, st: PState): (r: Parsed<Option<Stmt>>)
    requires ValidTokens(ts) && Inside(ts, st)
    ensures r.Parsed?
    ensures Moves(ts, st, r)
    ensures Sound(ts, st) && r.Parsed? ==> OptWellFormed(r.value)
    ensures !AtEnd(ts, st.pos) ==> r.st.pos > st.pos
    decreases |ts| - st.pos, 4
  {
    var b := StatementBody(rev, ts, st);
    if b.Parsed? then b
    else Parsed(None, b.st.(pos := Synchronize(ts, b.st.pos)))
  }

  /** The body of `statement` inside its try: dispatch on the first token. */
  function StatementBody(rev: Revision, ts: seq<T.Token>, st: PState): (r: Parsed<Option<Stmt>>)
    requires ValidTokens(ts) && Inside(ts, st)
    ensures Moves(ts, st, r)
    ensures Sound(ts, st) && r.Parsed? ==> OptWellFormed(r.value)
    ensures !AtEnd(ts, st.pos) && r.Parsed? ==> r.st.pos > st.pos
    decreases |ts| - st.pos, 3
  {
    var after := st.(pos := st.pos + 1);
    if Check(ts, st.pos, T.Asterisk) then Lift(Assignment(rev, ts, after))
    else if Check(ts, st.pos, T.Tilde) then Lift(FunctionDefinition(rev, ts, after))
    else if Check(ts, st.pos, T.Bang) then Lift(FunctionCall(rev, ts, after))
    else if Check(ts, st.pos, T.Colon) then Lift(IfStatement(rev, ts, st))
    else if Check(ts, st.pos, T.Caret) then Lift(TryStatement(rev, ts, after))
    else Parsed(None, st.(pos := Next(ts, st.pos)))
  }

  function Lift(r: Parsed<Stmt>): (o: Parsed<Option<Stmt>>)
    ensures o.st == r.st && o.Parsed? == r.Parsed?
    ensures r.Parsed? ==> o.value == Some(r.value)
  {
    if r.Parsed? then Parsed(Some(r.value), r.st) else Failed(r.st)
  }

  /** `assignmentStatement`, entered after `*`: an expression, remembered for later
      conditionals, then `@name`. In the bundle an expression followed by `:if` is a
      conditional instead. */
  function Assignment(rev: Revision, ts: seq<T.Token>, st: PState): (r: Parsed<Stmt>)
    requires ValidTokens(ts) && Inside(ts, st)
    ensures Moves(ts, st, r)
    ensures Sound(ts, st) && r.Parsed? ==> WellFormedStmt(r.value)
    ensures r.Parsed? ==> r.st.pos > st.pos
    ensures r.Parsed? ==> r.value.AssignmentStmt? || (rev == Bundle && r.value.IfStmt?)
    ensures r.Parsed? && r.value.AssignmentStmt? ==> r.st.last == Some(r.value.expression)
    decreases |ts| - st.pos, 2
  {
    var e := Expression(ts, st);
    if e.Failed? then Failed(e.st)
    else
      var s := e.st.(last := Some(e.value));
      if rev == Bundle && Check(ts, s.pos, T.Colon) && ts[s.pos + 1].kind == T.If then IfStatement(rev, ts, s)
      else
        var a := Consume(ts, s, T.At);
        if a.Failed? then Failed(a.st)
        else
          var v := Consume(ts, a.st, T.Identifier);
          if v.Failed? then Failed(v.st) else Parsed(AssignmentStmt(e.value, v.value.text), v.st)
  }

  /** `functionDefinition`, entered after `~`: a name, `-param`s, then a body block. */
  function FunctionDefinition(rev: Revision, ts: seq<T.Token>, st: PState): (r: Parsed<Stmt>)
    requires ValidTokens(ts) && Inside(ts, st)
    ensures Moves(ts, st, r)
    ensures Sound(ts, st) && r.Parsed? ==> WellFormedStmt(r.value)
    ensures r.Parsed? ==> r.st.pos > st.pos && r.value.FunctionDefStmt?
    decreases |ts| - st.pos, 1
  {
    var n := Consume(ts, st, T.Identifier);
    if n.Failed? then Failed(n.st)
    else
      var ps := Params(ts, n.st, []);
      if ps.Failed? then Failed(ps.st)
      else
        var u := Consume(ts, ps.st, T.Underscore);
        if u.Failed? then Failed(u.st)
        else
          var b := BlockStatement(rev, ts, u.st);
          if b.Failed? then Failed(b.st) else Parsed(FunctionDefStmt(n.value.text, ps.value, b.value), b.st)
  }

  /** `-name -name ...` from `pos` on: a dash and an identifier per name, in order. */
  predicate DashNames(ts: seq<T.Token>, pos: nat, names: seq<string>)
    decreases |names|
  {
    |names| == 0
    || (pos + 1 < |ts| && Check(ts, pos, T.Dash) && Check(ts, pos + 1, T.Identifier)
        && ts[pos + 1].text == names[0] && DashNames(ts, pos + 2, names[1..]))
  }

  /** The `-name` parameter declarations of a definition: the names read follow the
      ones gathered so far, two tokens each, and no dash follows them. */
  function Params(ts: seq<T.Token>, st: PState, acc: seq<string>): (r: Parsed<seq<string>>)
    requires ValidTokens(ts) && Inside(ts, st)
    ensures Forward(ts, st, r) && r.st.last == st.last
    ensures r.Parsed? ==> |r.value| >= |acc| && r.value[..|acc|] == acc
    ensures r.Parsed? ==> r.st.pos == st.pos + 2 * (|r.value| - |acc|)
    ensures r.Parsed? ==> !Check(ts, r.st.pos, T.Dash)
    decreases |ts| - st.pos
  {
    if Check(ts, st.pos, T.Dash) then
      var p := Consume(ts, st.(pos := st.pos + 1), T.Identifier);
      if p.Failed? then Failed(p.st) else Params(ts, p.st, acc + [p.value.text])
    else Parsed(acc, st)
  }

  /** `ifStatement`: `:if_ block`, optionally `:else_ block`. The condition is the
      expression of the latest assignment parsed by the time the conditional ends
      (literal 1 if there is none). */
  function IfStatement(rev: Revision, ts: seq<T.Token>, st: PState): (r: Parsed<Stmt>)
    requires ValidTokens(ts) && Inside(ts, st)
    ensures Moves(ts, st, r)
    ensures Sound(ts, st) && r.Parsed? ==> WellFormedStmt(r.value)
    ensures r.Parsed? ==> r.st.pos > st.pos && r.value.IfStmt?
    ensures r.Parsed? ==> r.value.condition == Condition(r.st.last)
    decreases |ts| - st.pos, 1
  {
    var c := Consume(ts, st, T.Colon);
    if c.Failed? then Failed(c.st)
    else
      var i := Consume(ts, c.st, T.If);
      if i.Failed? then Failed(i.st)
      else
        var u := Consume(ts, i.st, T.Underscore);
        if u.Failed? then Failed(u.st)
        else
          var t := BlockStatement(rev, ts, u.st);
          if t.Failed? then Failed(t.st) else ElsePart(rev, ts, t.st, t.value)
  }

  /** The optional `:else_ block` after a conditional's then-block, which completes
      the conditional. */
  function ElsePart(rev: Revision, ts: seq<T.Token>, st: PState, thenBlock: Block): (r: Parsed<Stmt>)
    requires ValidTokens(ts) && Inside(ts, st)
    ensures Moves(ts, st, r)
    ensures Sound(ts, st) && r.Parsed? ==> WellFormedBlock(thenBlock) ==> WellFormedStmt(r.value)
    ensures r.Parsed? ==> r.value.IfStmt? && r.value.thenBranch == thenBlock
    ensures r.Parsed? ==> r.value.condition == Condition(r.st.last)
    ensures r.Parsed? && r.value.elseBranch.None? ==> r.st == st
    ensures r.Parsed? && r.value.elseBranch.Some? ==> Check(ts, st.pos, T.Colon) && ts[st.pos + 1].kind == T.Else
    ensures !(Check(ts, st.pos, T.Colon) && ts[st.pos + 1].kind == T.Else)
      ==> r.Parsed? && r.value.elseBranch.None? && r.st == st
    decreases |ts| - st.pos, 0
  {
    if Check(ts, st.pos, T.Colon) && ts[st.pos + 1].kind == T.Else then
      var u := Consume(ts, st.(pos := st.pos + 2), T.Underscore);
      if u.Failed? then Failed(u.st)
      else
        var e := BlockStatement(rev, ts, u.st);
        if e.Failed? then Failed(e.st)
        else Parsed(IfStmt(Condition(e.st.last), thenBlock, Some(e.value)), e.st)
    else Parsed(IfStmt(Condition(st.last), thenBlock, None), st)
  }

  function Condition(last: Option<Expr>): Expr {
    if last.Some? then last.value else LiteralExpr(Num(1))
  }

  /** `tryStatement`, entered after `^`: `label_ block ^label_ block`. The second label
      must be an identifier but is not compared with the first. */
  function TryStatement(rev: Revision, ts: seq<T.Token>, st: PState): (r: Parsed<Stmt>)
    requires ValidTokens(ts) && Inside(ts, st)
    ensures Moves(ts, st, r)
    ensures Sound(ts, st) && r.Parsed? ==> WellFormedStmt(r.value)
    ensures r.Parsed? ==> r.st.pos > st.pos && r.value.TryStmt? && r.value.labelText == ts[st.pos].text
    decreases |ts| - st.pos, 1
  {
    var l := Consume(ts, st, T.Identifier);
    if l.Failed? then Failed(l.st)
    else
      var u := Consume(ts, l.st, T.Underscore);
      if u.Failed? then Failed(u.st)
      else
        var t := BlockStatement(rev, ts, u.st);
        if t.Failed? then Failed(t.st) else CatchPart(rev, ts, t.st, l.value.text, t.value)
  }

  /** The second half of a try statement, `^label_ block`, after the try block. */
  function CatchPart(rev: Revision, ts: seq<T.Token>, st: PState, labelText: string, tryBlock: Block): (r: Parsed<Stmt>)
    requires ValidTokens(ts) && Inside(ts, st)
    ensures Moves(ts, st, r)
    ensures Sound(ts, st) && r.Parsed? ==> WellFormedBlock(tryBlock) ==> WellFormedStmt(r.value)
    ensures r.Parsed? ==> r.st.pos > st.pos && r.value.TryStmt? && r.value.labelText == labelText && r.value.tryBlock == tryBlock
    decreases |ts| - st.pos, 1
  {
    var c := Consume(ts, st, T.Caret);
    if c.Failed? then Failed(c.st)
    else
      var l2 := Consume(ts, c.st, T.Identifier);
      if l2.Failed? then Failed(l2.st)
      else
        var u2 := Consume(ts, l2.st, T.Underscore);
        if u2.Failed? then Failed(u2.st)
        else
          var k := BlockStatement(rev, ts, u2.st);
          if k.Failed? then Failed(k.st) else Parsed(TryStmt(labelText, tryBlock, k.value), k.st)
  }

  /** `blockStatement`: statements up to `_`; reaching EOF first is a parse error. */
  function BlockStatement(rev: Revision, ts: seq<T.Token>, st: PState): (r: Parsed<Block>)
    requires ValidTokens(ts) && Inside(ts, st)
    ensures Moves(ts, st, r)
    ensures Sound(ts, st) && r.Parsed? ==> WellFormedBlock(r.value)
    ensures r.Parsed? ==> r.st.pos > st.pos && ts[r.st.pos - 1].kind == T.Underscore
    decreases |ts| - st.pos, 6
  {
    var items := BlockItems(rev, ts, st, []);
    var u := Consume(ts, items.st, T.Underscore);
    if u.Failed? then Failed(u.st) else Parsed(Block(items.value), u.st)
  }

  function BlockItems(rev: Revision, ts: seq<T.Token>, st: PState, acc: seq<Stmt>): (r: Parsed<seq<Stmt>>)
    requires ValidTokens(ts) && Inside(ts, st)
    ensures r.Parsed?
    ensures Moves(ts, st, r)
    ensures Sound(ts, st) && r.Parsed? ==> WellFormedStmts(acc) ==> WellFormedStmts(r.value)
    ensures Check(ts, r.st.pos, T.Underscore) || AtEnd(ts, r.st.pos)
    decreases |ts| - st.pos, 5
  {
    if !Check(ts, st.pos, T.Underscore) && !AtEnd(ts, st.pos) then
      var s := Statement(rev, ts, st);
      BlockItems(rev, ts, s.st, if s.value.Some? then acc + [s.value.value] else acc)
    else Parsed(acc, st)
  }

  /** `parse`: statements until EOF. */
  function Parse(rev: Revision, ts: seq<T.Token>): (p: Program)
    requires ValidTokens(ts)
    ensures Consistent(ts) ==> WellFormedStmts(p.stmts)
  {
    Program(ParseItems(rev, ts, PState(0, None), []))
  }

  function ParseItems(rev: Revision, ts: seq<T.Token>, st: PState, acc: seq<Stmt>): (ss: seq<Stmt>)
    requires ValidTokens(ts) && Inside(ts, st)
    ensures Consistent(ts) && LastOk(st.last) && WellFormedStmts(acc) ==> WellFormedStmts(ss)
    decreases |ts| - st.pos
  {
    if AtEnd(ts, st.pos) then acc
    else
      var s := Statement(rev, ts, st);
      ParseItems(rev, ts, s.st, if s.value.Some? then acc + [s.value.value] else acc)
  }
}
