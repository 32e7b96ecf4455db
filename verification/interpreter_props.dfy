/** Properties of the evaluator: chains fold left to right without precedence,
    variable scoping, what a call leaves behind in each revision, and the two try/catch
    rules. */
module InterpreterProps {

  import opened Wrappers
  import opened Revisions
  import opened Ast
  import JsNum
  import opened Interpreter

  // ---------------------------------------------------------------------------
  // Chains

  /** One more `op x` step applied to the value of a chain: the operator and operand
      are evaluated, then applied to the value so far. */
  function Extend(cfg: Config, st: State, r: Eval, op: Expr, x: Expr): Eval {
    match r
    case Fault(m) => Fault(m)
    case Val(acc) =>
      match EvalExpr(cfg, st, op)
      case Fault(m) => Fault(m)
      case Val(o) =>
        match EvalExpr(cfg, st, x)
        case Fault(m) => Fault(m)
        case Val(b) => ApplyOp(cfg, cfg.rev == Bundle, Str(o), acc, b)
  }

  lemma {:induction false} ChainFromSnoc(cfg: Config, st: State, e: Expr, e2: Expr, i: nat, acc: Value, op: Expr, x: Expr)
    requires e.ChainExpr? && e2.ChainExpr? && e2.items == e.items + [op, x]
    requires i >= 1 && i % 2 == 1 && |e.items| % 2 == 1 && i <= |e.items|
    ensures ChainFrom(cfg, st, e2, i, acc) == Extend(cfg, st, ChainFrom(cfg, st, e, i, acc), op, x)
    decreases |e.items| - i
  {
    if i < |e.items| {
      assert e2.items[i] == e.items[i] && e2.items[i + 1] == e.items[i + 1];
      match EvalExpr(cfg, st, e.items[i])
      case Fault(_) =>
      case Val(o) =>
        match EvalExpr(cfg, st, e.items[i + 1])
        case Fault(_) =>
        case Val(b) =>
          match ApplyOp(cfg, cfg.rev == Bundle, Str(o), acc, b)
          case Fault(_) =>
          case Val(v) => ChainFromSnoc(cfg, st, e, e2, i + 2, v, op, x);
    } else {
      assert e2.items[i] == op && e2.items[i + 1] == x;
    }
  }

  /** The left fold: a chain with one more `op x` at its end has the value of the
      shorter chain with that step applied. Together with a one-element chain being its
      element, this fixes strict left-to-right evaluation with no precedence. */
  lemma ChainSnoc(cfg: Config, st: State, items: seq<Expr>, op: Expr, x: Expr)
    requires |items| % 2 == 1
    ensures EvalExpr(cfg, st, ChainExpr(items + [op, x])) == Extend(cfg, st, EvalExpr(cfg, st, ChainExpr(items)), op, x)
  {
    var e, e2 := ChainExpr(items), ChainExpr(items + [op, x]);
    assert e2.items[0] == items[0];
    match EvalExpr(cfg, st, items[0])
    case Fault(_) =>
    case Val(first) => ChainFromSnoc(cfg, st, e, e2, 1, first, op, x);
  }

  lemma SingleChain(cfg: Config, st: State, x: Expr)
    ensures EvalExpr(cfg, st, ChainExpr([x])) == EvalExpr(cfg, st, x)
  {
  }

  /** An empty chain is 0. */
  lemma EmptyChain(cfg: Config, st: State)
    ensures EvalExpr(cfg, st, ChainExpr([])) == Val(Num(0))
  {
  }

  function Lit(n: int): Expr {
    LiteralExpr(Num(n))
  }

  function OpLit(op: string): Expr {
    LiteralExpr(Text(op))
  }

  /** `5 & + & 3 & * & 2` is (5 + 3) * 2 = 16, not 11. */
  lemma NoPrecedence(cfg: Config, st: State)
    ensures EvalExpr(cfg, st, ChainExpr([Lit(5), OpLit("+"), Lit(3), OpLit("*"), Lit(2)])) == Val(Num(16))
  {
    assert Str(Text("+")) == "+" && Str(Text("*")) == "*";
    ChainSnoc(cfg, st, [Lit(5)], OpLit("+"), Lit(3));
    assert [Lit(5)] + [OpLit("+"), Lit(3)] == [Lit(5), OpLit("+"), Lit(3)];
    ChainSnoc(cfg, st, [Lit(5), OpLit("+"), Lit(3)], OpLit("*"), Lit(2));
    assert [Lit(5), OpLit("+"), Lit(3)] + [OpLit("*"), Lit(2)] == [Lit(5), OpLit("+"), Lit(3), OpLit("*"), Lit(2)];
  }

  lemma {:induction false} ChainFromTrailing(cfg: Config, st: State, e: Expr, e2: Expr, i: nat, acc: Value, op: Expr)
    requires e.ChainExpr? && e2.ChainExpr? && e2.items == e.items + [op]
    requires i >= 1 && i % 2 == 1 && |e.items| % 2 == 1 && i <= |e.items|
    ensures cfg.rev == Src ==> ChainFrom(cfg, st, e2, i, acc) == ChainFrom(cfg, st, e, i, acc)
    ensures cfg.rev == Bundle ==> ChainFrom(cfg, st, e2, i, acc).Fault?
    decreases |e.items| - i
  {
    if i < |e.items| {
      assert e2.items[i] == e.items[i] && e2.items[i + 1] == e.items[i + 1];
      match EvalExpr(cfg, st, e.items[i])
      case Fault(_) =>
      case Val(o) =>
        match EvalExpr(cfg, st, e.items[i + 1])
        case Fault(_) =>
        case Val(b) =>
          match ApplyOp(cfg, cfg.rev == Bundle, Str(o), acc, b)
          case Fault(_) =>
          case Val(v) => ChainFromTrailing(cfg, st, e, e2, i + 2, v, op);
    }
  }

  /** A chain ending in an operator with no operand after it: src ignores the operator,
      the bundle always fails (with "Incomplete chain expression" once everything
      before it has evaluated). */
  lemma TrailingOperator(cfg: Config, st: State, items: seq<Expr>, op: Expr)
    requires |items| % 2 == 1
    ensures cfg.rev == Src ==> EvalExpr(cfg, st, ChainExpr(items + [op])) == EvalExpr(cfg, st, ChainExpr(items))
    ensures cfg.rev == Bundle ==> EvalExpr(cfg, st, ChainExpr(items + [op])).Fault?
  {
    var e, e2 := ChainExpr(items), ChainExpr(items + [op]);
    assert e2.items[0] == items[0];
    match EvalExpr(cfg, st, items[0])
    case Fault(_) =>
    case Val(first) => ChainFromTrailing(cfg, st, e, e2, 1, first, op);
  }

  /** The concrete incomplete chain `7 & +`. */
  lemma IncompleteChain(cfg: Config, st: State)
    ensures cfg.rev == Src ==> EvalExpr(cfg, st, ChainExpr([Lit(7), OpLit("+")])) == Val(Num(7))
    ensures cfg.rev == Bundle ==>
      EvalExpr(cfg, st, ChainExpr([Lit(7), OpLit("+")])) == Fault("Incomplete chain expression - missing operand")
  {
  }

  /** Outside calls the locals are empty; the bundle's and src's lookups then agree. */
  predicate ScopeOk(st: State) {
    |st.stack| == 0 ==> st.locals == map[]
  }

  lemma LookupRevisionsAgree(st: State, name: string)
    requires ScopeOk(st)
    ensures Lookup(Src, st, name) == Lookup(Bundle, st, name)
  {
  }

  /** The wording flag changes only the messages of faults. */
  lemma ApplyOpWording(cfg: Config, op: string, l: Value, r: Value)
    ensures ApplyOp(cfg, true, op, l, r).Val? == ApplyOp(cfg, false, op, l, r).Val?
    ensures ApplyOp(cfg, true, op, l, r).Val? ==> ApplyOp(cfg, true, op, l, r) == ApplyOp(cfg, false, op, l, r)
  {
  }

  /** Operators read only the conversion, not the revision. */
  lemma ApplyOpIgnoresRevision(cfg: Config, wording: bool, op: string, l: Value, r: Value)
    ensures ApplyOp(cfg.(rev := Src), wording, op, l, r) == ApplyOp(cfg, wording, op, l, r)
    ensures ApplyOp(cfg.(rev := Bundle), wording, op, l, r) == ApplyOp(cfg, wording, op, l, r)
  {
    hide Arith;
    assert ToNum(cfg.(rev := Src), l) == ToNum(cfg, l) && ToNum(cfg.(rev := Src), r) == ToNum(cfg, r);
    assert ToNum(cfg.(rev := Bundle), l) == ToNum(cfg, l) && ToNum(cfg.(rev := Bundle), r) == ToNum(cfg, r);
  }

  /** A literal or a variable evaluates the same in both revisions when the locals are
      empty outside calls. */
  lemma PrimaryAgree(cfg: Config, st: State, x: Expr)
    requires IsPrimary(x) && ScopeOk(st)
    ensures EvalExpr(cfg.(rev := Src), st, x) == EvalExpr(cfg.(rev := Bundle), st, x)
    ensures x.LiteralExpr? ==> EvalExpr(cfg.(rev := Src), st, x) == Val(x.value)
  {
    if x.IdentifierExpr? {
      LookupRevisionsAgree(st, x.name);
    }
  }

  lemma {:induction false} ChainFromAgree(cfg: Config, st: State, e: Expr, i: nat, acc: Value)
    requires e.ChainExpr? && WellFormedChain(e.items) && ScopeOk(st)
    requires i >= 1 && i % 2 == 1
    ensures var a, b := ChainFrom(cfg.(rev := Src), st, e, i, acc), ChainFrom(cfg.(rev := Bundle), st, e, i, acc);
      a.Val? == b.Val? && (a.Val? ==> a == b)
    decreases |e.items| - i
  {
    hide ApplyOp, ToNum, EvalExpr;
    var cs, cb := cfg.(rev := Src), cfg.(rev := Bundle);
    if i + 1 < |e.items| {
      var op, x := e.items[i], e.items[i + 1];
      assert IsOperatorLiteral(op) && IsPrimary(x);
      PrimaryAgree(cfg, st, op);
      PrimaryAgree(cfg, st, x);
      var ev := EvalExpr(cs, st, x);
      if ev.Val? {
        ApplyOpWording(cfg, Str(op.value), acc, ev.v);
        ApplyOpIgnoresRevision(cfg, false, Str(op.value), acc, ev.v);
        ApplyOpIgnoresRevision(cfg, true, Str(op.value), acc, ev.v);
        var r := ApplyOp(cfg, false, Str(op.value), acc, ev.v);
        if r.Val? {
          ChainFromAgree(cfg, st, e, i + 2, r.v);
        }
      }
    }
  }

  /** On the chains the parser builds, and with empty locals outside calls, the two
      revisions compute the same values; they differ only in how faults are worded. */
  lemma ChainRevisionsAgree(cfg: Config, st: State, items: seq<Expr>)
    requires WellFormedChain(items) && ScopeOk(st)
    ensures var a, b := EvalExpr(cfg.(rev := Src), st, ChainExpr(items)), EvalExpr(cfg.(rev := Bundle), st, ChainExpr(items));
      a.Val? == b.Val? && (a.Val? ==> a == b)
  {
    assert IsPrimary(items[0]);
    if items[0].IdentifierExpr? {
      LookupRevisionsAgree(st, items[0].name);
    }
    match EvalExpr(cfg.(rev := Src), st, items[0])
    case Fault(_) =>
    case Val(first) => ChainFromAgree(cfg, st, ChainExpr(items), 1, first);
  }

  // ---------------------------------------------------------------------------
  // Operators

  /** `!=` is the negation of `==` and `<=` of `>`; `>` and `>=` are `<` and `<=` with
      the operands swapped. */
  lemma ComparisonDuality(cfg: Config, w: bool, l: Value, r: Value)
    ensures ApplyOp(cfg, w, "!=", l, r) == Val(Bit(ApplyOp(cfg, w, "==", l, r) != Val(Bit(true))))
    ensures ApplyOp(cfg, w, "<=", l, r) == Val(Bit(ApplyOp(cfg, w, ">", l, r) != Val(Bit(true))))
    ensures ApplyOp(cfg, w, ">", l, r) == ApplyOp(cfg, w, "<", r, l)
    ensures ApplyOp(cfg, w, ">=", l, r) == ApplyOp(cfg, w, "<=", r, l)
  {
  }

  /** Division rounds toward negative infinity; the remainder keeps the sign of the
      dividend, as JavaScript's `%` does. */
  lemma DivisionAndRemainderSigns(cfg: Config, w: bool)
    ensures ApplyOp(cfg, w, "/", Num(7), Num(-2)) == Val(Num(-4))
    ensures ApplyOp(cfg, w, "/", Num(-7), Num(2)) == Val(Num(-4))
    ensures ApplyOp(cfg, w, "%", Num(-7), Num(2)) == Val(Num(-1))
    ensures ApplyOp(cfg, w, "%", Num(7), Num(-2)) == Val(Num(1))
  {
  }

  /** A zero divisor is an explosion, worded by the code path that divides. */
  lemma DivisionByZero(cfg: Config, st: State, x: Expr)
    requires EvalExpr(cfg, st, x).Val?
    ensures EvalExpr(cfg, st, BinaryExpr(x, "/", Lit(0))) == Fault("Division by zero!")
    ensures EvalExpr(cfg, st, ChainExpr([x, OpLit("/"), Lit(0)])) == Fault(
      if cfg.rev == Bundle then "Division by zero explosion!" else "Division by zero!")
  {
    assert Str(Text("/")) == "/";
  }

  // ---------------------------------------------------------------------------
  // Variables

  /** A variable reads back the value last written to it, and writing one name leaves
      every other name's value alone. */
  lemma ReadAfterWrite(rev: Revision, st: State, name: string, v: Value, other: string)
    requires ScopeOk(st) && other != name
    ensures Lookup(rev, SetVar(st, name, v), name) == Val(v)
    ensures Lookup(rev, SetVar(st, name, v), other) == Lookup(rev, st, other)
  {
  }

  /** Statements keep the locals empty outside calls: ScopeOk is an invariant of
      execution, and it holds of the interpreter's initial state. */
  lemma ExecKeepsScope(cfg: Config, fuel: nat, st: State, s: Stmt)
    requires ScopeOk(st)
    ensures ScopeOk(Exec(cfg, fuel, st, s).st)
  {
  }

  lemma ScopeOkInitially()
    ensures ScopeOk(Initial)
  {
  }

  /** A frame pushed and popped again restores the state exactly. */
  lemma PopUndoesPush(rev: Revision, st: State)
    ensures Pop(rev, Push(st)) == st
  {
  }

  /** Redefining a function replaces its entry and touches nothing else. */
  lemma DefinitionReplaces(cfg: Config, fuel: nat, st: State, name: string, params: seq<string>, body: Block)
    ensures var o := Exec(cfg, fuel, st, FunctionDefStmt(name, params, body));
      o.Normal? && o.st.functions[name] == FuncDef(params, body)
      && (forall f :: f in st.functions && f != name ==> o.st.functions[f] == st.functions[f])
      && o.st.globals == st.globals && o.st.locals == st.locals && o.st.output == st.output
  {
  }

  /** Argument lists of one and two evaluating expressions. */
  lemma EvalArgsOne(cfg: Config, st: State, a: Expr)
    requires EvalExpr(cfg, st, a).Val?
    ensures EvalArgs(cfg, st, [a]) == Success([EvalExpr(cfg, st, a).v])
  {
    assert [a][1..] == [];
    assert EvalArgs(cfg, st, []) == Success([]);
    assert [EvalExpr(cfg, st, a).v] + [] == [EvalExpr(cfg, st, a).v];
  }

  lemma EvalArgsTwo(cfg: Config, st: State, a: Expr, b: Expr)
    requires EvalExpr(cfg, st, a).Val? && EvalExpr(cfg, st, b).Val?
    ensures EvalArgs(cfg, st, [a, b]) == Success([EvalExpr(cfg, st, a).v, EvalExpr(cfg, st, b).v])
  {
    assert [a, b][1..] == [b];
    EvalArgsOne(cfg, st, b);
    assert [EvalExpr(cfg, st, a).v] + [EvalExpr(cfg, st, b).v] == [EvalExpr(cfg, st, a).v, EvalExpr(cfg, st, b).v];
  }

  lemma StrsOne(v: Value)
    ensures Strs([v]) == [Str(v)]
  {
    assert [v][1..] == [];
    assert [Str(v)] + [] == [Str(v)];
  }

  lemma StrsTwo(v: Value, w: Value)
    ensures Strs([v, w]) == [Str(v), Str(w)]
  {
    assert [v, w][1..] == [w];
    StrsOne(w);
    assert [Str(v)] + [Str(w)] == [Str(v), Str(w)];
  }

  // ---------------------------------------------------------------------------
  // Calls

  /** The value a finished call produces: its `return` value, or 0. */
  function CallValue(o: Outcome): Value {
    if o.Returned? then o.value else Num(0)
  }

  /** src binds the result inside the callee's scope, which the pop then discards: the
      `@variable` of a call makes no difference. */
  lemma SrcResultBindingLost(caller: State, o: Outcome, resultVar: Option<string>)
    requires o.st.stack == Push(caller).stack
    requires o.st.globals == caller.globals || |caller.stack| == 0
    requires o.Faulted? ==> o.faultLabel.None?
    requires caller.output <= o.st.output && caller.functions.Keys <= o.st.functions.Keys
    ensures AfterCall(Src, caller, o, resultVar) == AfterCall(Src, caller, o, None)
    ensures AfterCall(Src, caller, o, resultVar).st.locals == caller.locals
  {
    var k := |caller.stack|;
    assert o.st.stack[k] == caller.locals;
  }

  /** The bundle binds the result in the caller's scope: afterwards the `@variable`
      reads as the returned value, or 0 when the body did not return. */
  lemma BundleResultBound(caller: State, o: Outcome, name: string)
    requires o.st.stack == Push(caller).stack
    requires o.st.globals == caller.globals || |caller.stack| == 0
    requires caller.output <= o.st.output && caller.functions.Keys <= o.st.functions.Keys
    requires o.Normal? || o.Returned?
    requires name != ""
    ensures Lookup(Bundle, AfterCall(Bundle, caller, o, Some(name)).st, name) == Val(CallValue(o))
  {
  }

  /** However a call ends, the caller's locals are back in place; the only change the
      bundle may make to them is its result binding. */
  lemma CallRestoresCallerScope(cfg: Config, fuel: nat, st: State, s: Stmt)
    requires s.FunctionCallStmt?
    requires cfg.rev == Src || s.resultVar.None? || |st.stack| == 0 || !Call(cfg, fuel, st, s).Normal?
    ensures Call(cfg, fuel, st, s).st.locals == st.locals
  {
    var k := |st.stack|;
    assert Push(st).stack[k] == st.locals;
    if s.callee != "alert" && !(cfg.rev == Bundle && s.callee == "explode") && s.callee in st.functions && fuel > 0 {
      var f := st.functions[s.callee];
      if cfg.rev == Src {
        var b := BindArgsSrc(cfg, Push(st), f.params, s.args, 0);
        if !b.Faulted? {
          var o := ExecBlock(cfg, fuel - 1, b.st, f.body);
          assert o.st.stack == Push(st).stack && o.st.globals == st.globals;
          SrcResultBindingLost(st, o, s.resultVar);
        }
      }
    }
  }

  /** In src's argument binding, an argument naming a variable that is neither a
      global, nor a local of the new frame, nor a parameter bound before it, raises an
      unlabelled fault: the first failing argument's, which is that variable's when the
      arguments before it are literals. */
  lemma {:induction false} SrcArgumentMissesUnbound(cfg: Config, st: State, params: seq<string>, args: seq<Expr>, i: nat, j: nat, y: string)
    requires cfg.rev == Src && |st.stack| > 0
    requires i <= j < |args| && args[j] == IdentifierExpr(y)
    requires y !in st.globals && y !in st.locals
    requires forall k :: i <= k < j && k < |params| ==> params[k] != y
    ensures BindArgsSrc(cfg, st, params, args, i).Faulted?
    ensures (forall k :: i <= k < j ==> args[k].LiteralExpr?) ==>
              BindArgsSrc(cfg, st, params, args, i).message == "Undefined variable: " + y
    decreases j - i
  {
    if i < j {
      match EvalExpr(cfg, st, args[i])
      case Fault(m) =>
      case Val(v) =>
        var st1 := if i < |params| then SetVar(st, params[i], v) else st;
        SrcArgumentMissesUnbound(cfg, st1, params, args, i + 1, j, y);
    }
  }

  /** src runs a call's arguments in the callee's fresh frame, so an argument naming
      a caller's local that is not also a global (nor an earlier parameter) raises an
      unlabelled fault, and the caller's state is left as it was. */
  lemma SrcCallHidesCallerLocals(cfg: Config, fuel: nat, st: State, s: Stmt, j: nat, y: string)
    requires cfg.rev == Src && s.FunctionCallStmt? && s.callee != "alert" && s.callee in st.functions && fuel > 0
    requires j < |s.args| && s.args[j] == IdentifierExpr(y) && y !in st.globals
    requires forall k :: 0 <= k < j && k < |st.functions[s.callee].params| ==> st.functions[s.callee].params[k] != y
    ensures Call(cfg, fuel, st, s).Faulted? && Call(cfg, fuel, st, s).faultLabel.None?
    ensures Call(cfg, fuel, st, s).st == st
    ensures (forall k :: 0 <= k < j ==> s.args[k].LiteralExpr?) ==>
              Call(cfg, fuel, st, s).message == "Undefined variable: " + y
  {
    var f := st.functions[s.callee];
    SrcArgumentMissesUnbound(cfg, Push(st), f.params, s.args, 0, j, y);
    var b := BindArgsSrc(cfg, Push(st), f.params, s.args, 0);
    assert Push(st).stack[|st.stack|] == st.locals;
    assert Pop(Src, b.st) == st;
  }

  /** A function that returns its one parameter. */
  const Identity := FuncDef(["p"], Block([ReturnStmt(IdentifierExpr("p"))]))

  /** The body of `f` returns its parameter. */
  lemma IdentityReturns(cfg: Config, callee: State)
    requires callee.locals == map["p" := Num(7)] && |callee.stack| > 0
    ensures ExecBlock(cfg, 0, callee, Identity.body) == Returned(Num(7), callee)
  {
    assert Exec(cfg, 0, callee, ReturnStmt(IdentifierExpr("p"))) == Returned(Num(7), callee);
  }

  /** Inside a call, with a local `y`, the statement `CallFY` calls `f` on `y` and names
      the result `r`. src evaluates the argument in the new, empty frame and cannot see
      `y`; the bundle evaluates it in the caller's scope and binds the result there. */
  const InsideCall := State(map[], map["y" := Num(7)], [map[]], map["f" := Identity], [])

  const CallFY := FunctionCallStmt("f", [IdentifierExpr("y")], Some("r"))

  lemma SrcArgumentsMissCallerLocals(toNumber: string -> int)
    ensures Call(Config(Src, toNumber), 1, InsideCall, CallFY) == Faulted("Undefined variable: y", None, InsideCall)
  {
    var cfg := Config(Src, toNumber);
    var pushed := Push(InsideCall);
    assert pushed.locals == map[] && pushed.globals == map[];
    assert EvalExpr(cfg, pushed, IdentifierExpr("y")) == Fault("Undefined variable: y");
    assert Pop(Src, pushed) == InsideCall;
  }

  lemma BundleArgumentsSeeCallerLocals(toNumber: string -> int)
    ensures Call(Config(Bundle, toNumber), 1, InsideCall, CallFY)
      == Normal(InsideCall.(locals := map["y" := Num(7), "r" := Num(7)]))
  {
    var cfg := Config(Bundle, toNumber);
    EvalArgsOne(cfg, InsideCall, IdentifierExpr("y"));
    var callee := BindParams(Push(InsideCall), ["p"], [Num(7)], 0);
    assert callee.locals == map["p" := Num(7)];
    var ret := ReturnStmt(IdentifierExpr("p"));
    assert Exec(cfg, 0, callee, ret) == Returned(Num(7), callee);
    assert ExecBlock(cfg, 0, callee, Identity.body) == Returned(Num(7), callee);
    assert Pop(Bundle, callee) == InsideCall;
  }

  /** At the top level with a global `y`, the statement `CallFY` binds nothing in src,
      and binds the global `r` to 7 in the bundle. */
  const TopLevel := State(map["y" := Num(7)], map[], [], map["f" := Identity], [])

  lemma SrcCallLeavesNoResult(toNumber: string -> int)
    ensures Call(Config(Src, toNumber), 1, TopLevel, CallFY) == Normal(TopLevel)
  {
    var cfg := Config(Src, toNumber);
    var pushed := Push(TopLevel);
    assert EvalExpr(cfg, pushed, IdentifierExpr("y")) == Val(Num(7));
    var callee := pushed.(locals := map["p" := Num(7)]);
    assert BindArgsSrc(cfg, pushed, ["p"], [IdentifierExpr("y")], 0) == Normal(callee);
    assert Exec(cfg, 0, callee, ReturnStmt(IdentifierExpr("p"))) == Returned(Num(7), callee);
    assert ExecBlock(cfg, 0, callee, Identity.body) == Returned(Num(7), callee);
  }

  lemma BundleCallBindsResult(toNumber: string -> int)
    ensures Call(Config(Bundle, toNumber), 1, TopLevel, CallFY)
      == Normal(TopLevel.(globals := map["y" := Num(7), "r" := Num(7)]))
  {
    hide ExecBlock, Exec;
    var cfg := Config(Bundle, toNumber);
    EvalArgsOne(cfg, TopLevel, IdentifierExpr("y"));
    var callee := BindParams(Push(TopLevel), ["p"], [Num(7)], 0);
    assert callee.locals == map["p" := Num(7)];
    IdentityReturns(cfg, callee);
    assert Pop(Bundle, callee) == TopLevel;
  }

  /** `!explode` is a built-in of the bundle only; src looks it up like any function. */
  lemma ExplodeOnlyInBundle(cfg: Config, fuel: nat, st: State, args: seq<Expr>)
    requires "explode" !in st.functions
    ensures cfg.rev == Src ==>
      Call(cfg, fuel, st, FunctionCallStmt("explode", args, None)) == Faulted("Unknown function: explode", None, st)
    ensures cfg.rev == Bundle ==>
      Call(cfg, fuel, st, FunctionCallStmt("explode", args, None)) == Explode(cfg, st, args)
  {
  }

  // ---------------------------------------------------------------------------
  // Try/catch

  /** src's rule: an explosion is never caught (src never labels one), a `return` is
      swallowed and runs the catch block, a normal end skips it. */
  lemma SrcTryRule(cfg: Config, fuel: nat, st: State, labelText: string, tb: Block, cb: Block)
    requires cfg.rev == Src
    ensures var o := ExecBlock(cfg, fuel, st, tb);
      && (o.Faulted? || o.Normal? || o.Exhausted? ==> Exec(cfg, fuel, st, TryStmt(labelText, tb, cb)) == o)
      && (o.Returned? || o.Crashed? ==> Exec(cfg, fuel, st, TryStmt(labelText, tb, cb)) == ExecBlock(cfg, fuel, o.st, cb))
  {
  }

  /** The try statement `^a_*1&/&0@x_^a__` in src: the division by zero is an
      unlabelled explosion, which src does not catch, so it ends the program. */
  function DivideInTry(): Stmt {
    TryStmt("a", Block([AssignmentStmt(ChainExpr([Lit(1), OpLit("/"), Lit(0)]), "x")]), Block([]))
  }

  lemma SrcDivisionEscapesTry(cfg: Config, fuel: nat)
    requires cfg.rev == Src
    ensures var r := Interpret(cfg, fuel, Program([DivideInTry()]));
      r.output == [] && r.report == Explosion("Division by zero!")
  {
    var t := DivideInTry();
    assert Str(Text("/")) == "/";
    ChainSnoc(cfg, Initial, [Lit(1)], OpLit("/"), Lit(0));
    assert [Lit(1)] + [OpLit("/"), Lit(0)] == [Lit(1), OpLit("/"), Lit(0)];
    assert EvalExpr(cfg, Initial, ChainExpr([Lit(1)])) == Val(Num(1));
    assert ToNum(cfg, Num(0)) == 0;
    assert ApplyOp(cfg, false, "/", Num(1), Num(0)) == Fault("Division by zero!");
    assert Exec(cfg, fuel, Initial, t.tryBlock.stmts[0]) == Faulted("Division by zero!", None, Initial);
    assert ExecBlock(cfg, fuel, Initial, t.tryBlock) == Faulted("Division by zero!", None, Initial);
    SrcTryRule(cfg, fuel, Initial, "a", t.tryBlock, t.catchBlock);
    assert ExecBlock(cfg, fuel, Initial, Block([t])) == Faulted("Division by zero!", None, Initial);
  }

  /** The bundle's rule: an explosion is caught when it has no label, an empty label or
      the try statement's own; an internal error is caught too; a `return` passes
      through to the caller. */
  lemma BundleTryRule(cfg: Config, fuel: nat, st: State, labelText: string, tb: Block, cb: Block)
    requires cfg.rev == Bundle
    ensures var o := ExecBlock(cfg, fuel, st, tb);
      && (o.Faulted? && (o.faultLabel.None? || o.faultLabel.value in {"", labelText}) ==>
            Exec(cfg, fuel, st, TryStmt(labelText, tb, cb)) == ExecBlock(cfg, fuel, o.st, cb))
      && (o.Faulted? && o.faultLabel.Some? && o.faultLabel.value !in {"", labelText} ==>
            Exec(cfg, fuel, st, TryStmt(labelText, tb, cb)) == o)
      && (o.Returned? || o.Normal? || o.Exhausted? ==> Exec(cfg, fuel, st, TryStmt(labelText, tb, cb)) == o)
      && (o.Crashed? ==> Exec(cfg, fuel, st, TryStmt(labelText, tb, cb)) == ExecBlock(cfg, fuel, o.st, cb))
  {
  }

  /** A try statement labelled `a` whose try block is `!explode "b"` and whose catch
      block is `!alert "caught"`, in the bundle: the label `b` is not the try statement's
      `a`, so the explosion escapes; with the label `a` it is caught. */
  function ExplodeIn(labelText: string, explodeLabel: string): Stmt {
    TryStmt(labelText, Block([FunctionCallStmt("explode", [LiteralExpr(Text(explodeLabel))], None)]),
      Block([AlertStmt([LiteralExpr(Text("caught"))])]))
  }

  lemma ExplodeBlock(toNumber: string -> int, st: State, explodeLabel: string)
    ensures ExecBlock(Config(Bundle, toNumber), 1, st, ExplodeIn("", explodeLabel).tryBlock)
      == Faulted("Manual explosion!", Some(explodeLabel), st)
  {
    var cfg := Config(Bundle, toNumber);
    var call := FunctionCallStmt("explode", [LiteralExpr(Text(explodeLabel))], None);
    assert Exec(cfg, 1, st, call) == Faulted("Manual explosion!", Some(explodeLabel), st);
  }

  lemma CaughtBlock(toNumber: string -> int, st: State)
    ensures ExecBlock(Config(Bundle, toNumber), 1, st, ExplodeIn("", "").catchBlock)
      == Normal(st.(output := st.output + ["caught"]))
  {
    var cfg := Config(Bundle, toNumber);
    EvalArgsOne(cfg, st, LiteralExpr(Text("caught")));
    StrsOne(Text("caught"));
    assert Join(" ", ["caught"]) == "caught";
  }

  lemma BundleLabelledExplosions(toNumber: string -> int, st: State)
    ensures Exec(Config(Bundle, toNumber), 1, st, ExplodeIn("a", "b")) == Faulted("Manual explosion!", Some("b"), st)
    ensures Exec(Config(Bundle, toNumber), 1, st, ExplodeIn("a", "a")) == Normal(st.(output := st.output + ["caught"]))
  {
    hide Exec, ExecBlock;
    var cfg := Config(Bundle, toNumber);
    var e := ExplodeIn("a", "b");
    BundleTryRule(cfg, 1, st, "a", e.tryBlock, e.catchBlock);
    ExplodeBlock(toNumber, st, "b");
    var c := ExplodeIn("a", "a");
    BundleTryRule(cfg, 1, st, "a", c.tryBlock, c.catchBlock);
    ExplodeBlock(toNumber, st, "a");
    CaughtBlock(toNumber, st);
  }

  // ---------------------------------------------------------------------------
  // Alert and the whole program

  /** An alert of the number 1 and the text "a" (`!alert 1 "a"` in the bundle): src
      writes "1a", the bundle "1 a". */
  lemma AlertSeparators(cfg: Config, fuel: nat, st: State)
    ensures Exec(cfg, fuel, st, AlertStmt([Lit(1), LiteralExpr(Text("a"))]))
      == Normal(st.(output := st.output + [if cfg.rev == Src then "1a" else "1 a"]))
  {
    EvalArgsTwo(cfg, st, Lit(1), LiteralExpr(Text("a")));
    assert JsNum.IntToString(1) == "1";
    StrsTwo(Num(1), Text("a"));
    assert Str(Num(1)) == "1";
    var sep := AlertSeparator(cfg.rev);
    assert ["1", "a"][1..] == ["a"];
    assert Join(sep, ["1", "a"]) == "1" + sep + "a";
    if cfg.rev == Src {
      assert "1" + "" + "a" == "1a";
    } else {
      assert "1" + " " + "a" == "1 a";
    }
  }

  // ---------------------------------------------------------------------------
  // Statement sequences

  /** The statements of `post` sit after those of `pre` in `pre + post`, and run there
      exactly as they run on their own. */
  lemma {:induction false} SuffixRuns(cfg: Config, fuel: nat, st: State, pre: seq<Stmt>, post: seq<Stmt>, k: nat)
    requires k <= |post|
    ensures ExecStmts(cfg, fuel, st, Block(pre + post), |pre| + k) == ExecStmts(cfg, fuel, st, Block(post), k)
    decreases |post| - k
  {
    hide Exec;
    if k < |post| {
      assert (pre + post)[|pre| + k] == post[k];
      var o := Exec(cfg, fuel, st, post[k]);
      if o.Normal? {
        SuffixRuns(cfg, fuel, o.st, pre, post, k + 1);
      }
    }
  }

  /** A block runs its statements in order: `pre + post` runs `pre` and, if that ends
      normally, `post` from where it left off; otherwise `post` never runs. */
  lemma {:induction false} SequenceRuns(cfg: Config, fuel: nat, st: State, pre: seq<Stmt>, post: seq<Stmt>, i: nat)
    requires i <= |pre|
    ensures var o := ExecStmts(cfg, fuel, st, Block(pre), i);
      ExecStmts(cfg, fuel, st, Block(pre + post), i) == (if o.Normal? then ExecStmts(cfg, fuel, o.st, Block(post), 0) else o)
    decreases |pre| - i
  {
    hide Exec;
    if i == |pre| {
      SuffixRuns(cfg, fuel, st, pre, post, 0);
    } else {
      assert (pre + post)[i] == pre[i];
      var o := Exec(cfg, fuel, st, pre[i]);
      if o.Normal? {
        SequenceRuns(cfg, fuel, o.st, pre, post, i + 1);
      }
    }
  }

  /** Once the statements before `s` have run normally, an explosion of `s` ends the
      whole program with that explosion, keeping the lines written so far; nothing
      after `s` runs. */
  lemma ExplosionStopsProgram(cfg: Config, fuel: nat, pre: seq<Stmt>, s: Stmt, post: seq<Stmt>)
    requires ExecBlock(cfg, fuel, Initial, Block(pre)).Normal?
    requires Exec(cfg, fuel, ExecBlock(cfg, fuel, Initial, Block(pre)).st, s).Faulted?
    ensures var o := Exec(cfg, fuel, ExecBlock(cfg, fuel, Initial, Block(pre)).st, s);
      Interpret(cfg, fuel, Program(pre + [s] + post)) == Run(o.st.output, Explosion(o.message), o.st)
  {
    StatementStops(cfg, fuel, pre, s, post);
  }

  /** A `return` at the top level, once the statements before it have run normally,
      ends the program as a normal finish; nothing after it runs. */
  lemma TopLevelReturnEndsProgram(cfg: Config, fuel: nat, pre: seq<Stmt>, s: Stmt, post: seq<Stmt>)
    requires ExecBlock(cfg, fuel, Initial, Block(pre)).Normal?
    requires Exec(cfg, fuel, ExecBlock(cfg, fuel, Initial, Block(pre)).st, s).Returned?
    ensures var o := Exec(cfg, fuel, ExecBlock(cfg, fuel, Initial, Block(pre)).st, s);
      Interpret(cfg, fuel, Program(pre + [s] + post)) == Run(o.st.output, Finished, o.st)
  {
    StatementStops(cfg, fuel, pre, s, post);
  }

  /** A statement that does not end normally ends the program's block. */
  lemma StatementStops(cfg: Config, fuel: nat, pre: seq<Stmt>, s: Stmt, post: seq<Stmt>)
    requires ExecBlock(cfg, fuel, Initial, Block(pre)).Normal?
    requires !Exec(cfg, fuel, ExecBlock(cfg, fuel, Initial, Block(pre)).st, s).Normal?
    ensures ExecBlock(cfg, fuel, Initial, Block(pre + [s] + post))
      == Exec(cfg, fuel, ExecBlock(cfg, fuel, Initial, Block(pre)).st, s)
  {
    hide Exec;
    var s1 := ExecBlock(cfg, fuel, Initial, Block(pre)).st;
    assert pre + [s] + post == pre + ([s] + post);
    SequenceRuns(cfg, fuel, Initial, pre, [s] + post, 0);
    assert ([s] + post)[0] == s;
  }

  /** Examples, as statement trees: an alert of 1, an assignment of the undefined `u` to
      `x` and an alert of 2 write "1" and explode at `u`; a return of 1 followed by an
      alert of 2 finishes without writing anything. */
  lemma ExplosionExample(cfg: Config, fuel: nat)
    ensures var r := Interpret(cfg, fuel, Program([AlertStmt([Lit(1)]), AssignmentStmt(IdentifierExpr("u"), "x"), AlertStmt([Lit(2)])]));
      r.output == ["1"] && r.report == Explosion("Undefined variable: u")
  {
    assert JsNum.IntToString(1) == "1";
    assert Str(Num(1)) == "1";
    EvalArgsOne(cfg, Initial, Lit(1));
    StrsOne(Num(1));
    var s1 := Initial.(output := ["1"]);
    var b := Block([AlertStmt([Lit(1)]), AssignmentStmt(IdentifierExpr("u"), "x"), AlertStmt([Lit(2)])]);
    assert Exec(cfg, fuel, Initial, b.stmts[0]) == Normal(s1);
    assert Exec(cfg, fuel, s1, b.stmts[1]) == Faulted("Undefined variable: u", None, s1);
    assert ExecStmts(cfg, fuel, s1, b, 1) == Faulted("Undefined variable: u", None, s1);
    assert ExecBlock(cfg, fuel, Initial, b) == Faulted("Undefined variable: u", None, s1);
  }

  lemma TopLevelReturnExample(cfg: Config, fuel: nat)
    ensures var r := Interpret(cfg, fuel, Program([ReturnStmt(Lit(1)), AlertStmt([Lit(2)])]));
      r.output == [] && r.report == Finished
  {
    var b := Block([ReturnStmt(Lit(1)), AlertStmt([Lit(2)])]);
    assert Exec(cfg, fuel, Initial, b.stmts[0]) == Returned(Num(1), Initial);
    assert ExecBlock(cfg, fuel, Initial, b) == Returned(Num(1), Initial);
  }
}
