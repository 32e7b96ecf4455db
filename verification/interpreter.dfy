/** The tree-walking evaluator (src/interpreter.ts, and the later revision in
    web/bundle.js). Evaluation is a pure function from a state to an outcome; the
    exceptions the source throws to unwind (`BombLangError`, `ReturnValue`, any other
    error) are outcomes that every statement form propagates or catches explicitly. */
module Interpreter {

  import opened Wrappers
  import opened Revisions
  import opened Ast
  import JsNum

  /** The revision being modelled, and JavaScript's `Number(text)` coercion, which the
      model takes as a parameter rather than defining (see the README). */
  datatype Config = Config(rev: Revision, toNumber: string -> int)

  type Scope = map<string, Value>

  datatype FuncDef = FuncDef(params: seq<string>, body: Block)

  /** The interpreter's fields: global and current local variables, the saved local
      scopes of the callers (`callStack`), the function table, and the lines
      `!alert` has written so far. */
  datatype State = State(
    globals: Scope,
    locals: Scope,
    stack: seq<Scope>,
    functions: map<string, FuncDef>,
    output: seq<string>)

  const Initial := State(map[], map[], [], map[], [])

  /** Expressions either produce a value or raise an (unlabelled) `BombLangError`. */
  datatype Eval = Val(v: Value) | Fault(message: string)

  /** How a statement ends: normally, by a `return` unwinding (`ReturnValue`), by a
      `BombLangError` with its optional label, by any other error, or by running out
      of call depth (the host's stack limit, see the README). Each carries the state
      at that point. */
  datatype Outcome =
    | Normal(st: State)
    | Returned(value: Value, st: State)
    | Faulted(message: string, faultLabel: Option<string>, st: State)
    | Crashed(message: string, st: State)
    | Exhausted(st: State)

  /** `Number(v)`. */
  function ToNum(cfg: Config, v: Value): int {
    match v
    case Num(n) => n
    case Text(s) => cfg.toNumber(s)
  }

  /** `String(v)`. */
  function Str(v: Value): (s: string)
    ensures v.Num? && v.n >= 0 ==> JsNum.ParseDecimal(s) == v.n
  {
    match v
    case Num(n) => (if n >= 0 then JsNum.ParseDecimalOfIntToString(n); JsNum.IntToString(n) else JsNum.IntToString(n))
    case Text(s) => s
  }

  /** `isTruthy`: non-zero numbers and non-empty texts. */
  predicate Truthy(v: Value) {
    match v
    case Num(n) => n != 0
    case Text(s) => |s| > 0
  }

  function Bit(b: bool): Value {
    Num(if b then 1 else 0)
  }

  /** One operator application: `visitBinaryExpr`, or one step of the bundle's chain
      loop, which words its two errors differently. Arithmetic coerces both sides
      with `Number`; division floors and refuses a zero divisor; the remainder
      takes the sign of the dividend; comparisons yield 1 or 0. */
  function ApplyOp(cfg: Config, chainWording: bool, op: string, l: Value, r: Value): (e: Eval)
    ensures e.Fault? <==> op !in ChainOperators || (op == "/" && ToNum(cfg, r) == 0)
    ensures e.Val? ==> e.v.Num?
    ensures e.Val? && op in Comparisons ==> e.v.n == 0 || e.v.n == 1
    ensures op == "==" ==> (e == Val(Bit(true)) <==> ToNum(cfg, l) == ToNum(cfg, r))
    ensures op == "<" ==> (e == Val(Bit(true)) <==> ToNum(cfg, l) < ToNum(cfg, r))
    ensures op == "/" && e.Val? ==> var d := ToNum(cfg, r);
      && (d > 0 ==> e.v.n * d <= ToNum(cfg, l) < e.v.n * d + d)
      && (d < 0 ==> e.v.n * d + d < ToNum(cfg, l) <= e.v.n * d)
    ensures op == "%" && ToNum(cfg, r) != 0 ==> e.Val? && var a, d := ToNum(cfg, l), ToNum(cfg, r);
      && (a >= 0 ==> 0 <= e.v.n < JsNum.Abs(d))
      && (a < 0 ==> -JsNum.Abs(d) < e.v.n <= 0)
      && a == JsNum.TruncDiv(a, d) * d + e.v.n
  {
    Arith(chainWording, op, ToNum(cfg, l), ToNum(cfg, r))
  }

  /** The operator applied to the two converted numbers. */
  function Arith(chainWording: bool, op: string, a: int, b: int): Eval {
    if op == "+" then Val(Num(a + b))
    else if op == "-" then Val(Num(a - b))
    else if op == "*" then Val(Num(a * b))
    else if op == "/" then
      if b == 0 then Fault(if chainWording then "Division by zero explosion!" else "Division by zero!")
      else Val(Num(JsNum.FloorDiv(a, b)))
    else if op == "%" then Val(Num(JsNum.TruncRem(a, b)))
    else if op == "==" then Val(Bit(a == b))
    else if op == "!=" then Val(Bit(a != b))
    else if op == ">" then Val(Bit(a > b))
    else if op == ">=" then Val(Bit(a >= b))
    else if op == "<" then Val(Bit(a < b))
    else if op == "<=" then Val(Bit(a <= b))
    else Fault((if chainWording then "Unknown operator in chain: " else "Unknown operator: ") + op)
  }

  /** `getVariable`: the current locals, then the globals. The bundle consults the
      locals only inside a call. */
  function Lookup(rev: Revision, st: State, name: string): (e: Eval)
    ensures e.Val? <==> name in st.globals || (name in st.locals && (rev == Src || |st.stack| > 0))
    ensures e.Val? && name in st.locals && (rev == Src || |st.stack| > 0) ==> e.v == st.locals[name]
    ensures e.Val? && name !in st.locals ==> e.v == st.globals[name]
  {
    if name in st.locals && (rev == Src || |st.stack| > 0) then Val(st.locals[name])
    else if name in st.globals then Val(st.globals[name])
    else Fault("Undefined variable: " + name)
  }

  /** `setVariable`: the locals inside a call, the globals outside. */
  function SetVar(st: State, name: string, v: Value): (r: State)
    ensures r.stack == st.stack && r.functions == st.functions && r.output == st.output
    ensures |st.stack| > 0 ==> r.globals == st.globals && r.locals.Keys == st.locals.Keys + {name}
    ensures |st.stack| == 0 ==> r.locals == st.locals && r.globals.Keys == st.globals.Keys + {name}
  {
    if |st.stack| > 0 then st.(locals := st.locals[name := v]) else st.(globals := st.globals[name := v])
  }

  /** `pushFrame`: save the caller's locals and start an empty scope. */
  function Push(st: State): (r: State)
    ensures |r.stack| == |st.stack| + 1 && r.stack[..|st.stack|] == st.stack
    ensures r.locals == map[] && r.globals == st.globals
    ensures r.functions == st.functions && r.output == st.output
  {
    st.(stack := st.stack + [st.locals], locals := map[])
  }

  /** `popFrame`: restore the innermost saved scope. With nothing saved the bundle
      clears the locals and src leaves them alone. */
  function Pop(rev: Revision, st: State): (r: State)
    ensures r.globals == st.globals && r.functions == st.functions && r.output == st.output
    ensures |st.stack| > 0 ==> r.stack == st.stack[..|st.stack| - 1] && r.locals == st.stack[|st.stack| - 1]
    ensures |st.stack| == 0 ==> r.stack == [] && r.locals == (if rev == Bundle then map[] else st.locals)
  {
    if |st.stack| > 0 then st.(stack := st.stack[..|st.stack| - 1], locals := st.stack[|st.stack| - 1])
    else if rev == Bundle then st.(locals := map[])
    else st
  }

  /** `visitExpression`: literals, variables, binary expressions and chains. */
  function EvalExpr(cfg: Config, st: State, e: Expr): (r: Eval)
    ensures e.LiteralExpr? ==> r == Val(e.value)
    ensures e.IdentifierExpr? ==> r == Lookup(cfg.rev, st, e.name)
    decreases e, 2
  {
    match e
    case LiteralExpr(v) => Val(v)
    case IdentifierExpr(name) => Lookup(cfg.rev, st, name)
    case BinaryExpr(left, op, right) =>
      (match EvalExpr(cfg, st, left)
       case Fault(m) => Fault(m)
       case Val(a) =>
         match EvalExpr(cfg, st, right)
         case Fault(m) => Fault(m)
         case Val(b) => ApplyOp(cfg, false, op, a, b))
    case ChainExpr(items) =>
      if |items| == 0 then Val(Num(0))
      else
        match EvalExpr(cfg, st, items[0])
        case Fault(m) => Fault(m)
        case Val(first) => ChainFrom(cfg, st, e, 1, first)
  }

  /** `visitChainExpr`'s loop from the operator at index i, with the value so far.
      A trailing operator with no operand after it ends the loop in src and is an
      error in the bundle. */
  function ChainFrom(cfg: Config, st: State, e: Expr, i: nat, acc: Value): (r: Eval)
    requires e.ChainExpr? && i >= 1
    decreases e, 1, |e.items| - i
  {
    var items := e.items;
    if i >= |items| then Val(acc)
    else if i + 1 >= |items| then
      if cfg.rev == Src then Val(acc) else Fault("Incomplete chain expression - missing operand")
    else
      match EvalExpr(cfg, st, items[i])
      case Fault(m) => Fault(m)
      case Val(op) =>
        match EvalExpr(cfg, st, items[i + 1])
        case Fault(m) => Fault(m)
        case Val(b) =>
          match ApplyOp(cfg, cfg.rev == Bundle, Str(op), acc, b)
          case Fault(m) => Fault(m)
          case Val(v) => ChainFrom(cfg, st, e, i + 2, v)
  }

  /** Arguments evaluated left to right; the first failure is the result. */
  function EvalArgs(cfg: Config, st: State, args: seq<Expr>): (r: Result<seq<Value>, string>)
    ensures r.Success? ==> |r.value| == |args|
    ensures r.Success? ==> forall i :: 0 <= i < |args| ==> EvalExpr(cfg, st, args[i]) == Val(r.value[i])
    ensures r.Failure? <==> exists i :: 0 <= i < |args| && EvalExpr(cfg, st, args[i]).Fault?
    decreases |args|
  {
    if |args| == 0 then Success([])
    else
      match EvalExpr(cfg, st, args[0])
      case Fault(m) => Failure(m)
      case Val(v) =>
        match EvalArgs(cfg, st, args[1..])
        case Failure(m) => (assert forall i :: 1 <= i < |args| ==> args[i] == args[1..][i - 1]; Failure(m))
        case Success(vs) => (assert forall i :: 1 <= i < |args| ==> args[i] == args[1..][i - 1]; Success([v] + vs))
  }

  /** The texts joined with a separator between consecutive ones. */
  function Join(sep: string, parts: seq<string>): (s: string)
    ensures |parts| == 0 ==> s == ""
    ensures |parts| == 1 ==> s == parts[0]
  {
    if |parts| == 0 then "" else if |parts| == 1 then parts[0] else parts[0] + sep + Join(sep, parts[1..])
  }

  function Strs(vs: seq<Value>): (ss: seq<string>)
    ensures |ss| == |vs| && forall i :: 0 <= i < |vs| ==> ss[i] == Str(vs[i])
  {
    if |vs| == 0 then [] else [Str(vs[0])] + Strs(vs[1..])
  }

  /** `!alert`'s separator: none in src, a space in the bundle. */
  function AlertSeparator(rev: Revision): string {
    if rev == Src then "" else " "
  }

  /** The bundle's built-in `!explode`: a `BombLangError` whose label is the first
      argument and whose message is the second (a default message without one). */
  function Explode(cfg: Config, st: State, args: seq<Expr>): (o: Outcome)
    ensures o.Faulted? && o.st == st
    ensures |args| == 0 ==> o.message == "Manual explosion!" && o.faultLabel.None?
    ensures |args| >= 1 && EvalExpr(cfg, st, args[0]).Fault? ==>
      o.message == EvalExpr(cfg, st, args[0]).message && o.faultLabel.None?
    ensures |args| >= 1 && EvalExpr(cfg, st, args[0]).Val? && (|args| == 1 || EvalExpr(cfg, st, args[1]).Val?) ==>
      o.faultLabel == Some(Str(EvalExpr(cfg, st, args[0]).v))
    ensures |args| == 1 && EvalExpr(cfg, st, args[0]).Val? ==> o.message == "Manual explosion!"
    ensures |args| >= 2 && EvalExpr(cfg, st, args[0]).Val? && EvalExpr(cfg, st, args[1]).Val? ==>
      o.message == Str(EvalExpr(cfg, st, args[1]).v)
  {
    if |args| == 0 then Faulted("Manual explosion!", None, st)
    else
      match EvalExpr(cfg, st, args[0])
      case Fault(m) => Faulted(m, None, st)
      case Val(l) =>
        if |args| == 1 then Faulted("Manual explosion!", Some(Str(l)), st)
        else
          match EvalExpr(cfg, st, args[1])
          case Fault(m) => Faulted(m, None, st)
          case Val(msg) => Faulted(Str(msg), Some(Str(l)), st)
  }

  /** Whether a try statement's catch block handles the way its try block ended.
      src catches a `BombLangError` only when its label equals the statement's (and
      src never labels one), and every non-`BombLangError` including a `return`.
      The bundle catches an unlabelled or matching `BombLangError` and every other
      error except a `return`. Running out of call depth is never caught. */
  predicate Catches(rev: Revision, labelText: string, o: Outcome) {
    match rev
    case Src => (o.Faulted? && o.faultLabel == Some(labelText)) || o.Returned? || o.Crashed?
    case Bundle =>
      (o.Faulted? && (o.faultLabel.None? || o.faultLabel.value == "" || o.faultLabel.value == labelText))
      || o.Crashed?
  }

  /** `params[j]` is not declared again by a later parameter that also gets a value. */
  predicate LastBound(params: seq<string>, n: int, j: int)
    requires 0 <= j < |params|
  {
    forall k :: j < k < n && k < |params| ==> params[k] != params[j]
  }

  /** The parameters from `i` on that get one of the `n` values. */
  function BoundNames(params: seq<string>, n: int, i: nat): set<string> {
    set k | i <= k < n && k < |params| :: params[k]
  }

  /** Binding the pre-evaluated arguments to the parameters (the bundle): parameter `j`
      gets argument `j` (the last declaration of a repeated name wins), surplus
      arguments are dropped, missing ones leave their parameters unset, and every
      other local keeps its value. */
  function BindParams(st: State, params: seq<string>, vals: seq<Value>, i: nat): (r: State)
    requires |st.stack| > 0
    ensures r.stack == st.stack && r.globals == st.globals && r.functions == st.functions && r.output == st.output
    ensures r.locals.Keys == st.locals.Keys + BoundNames(params, |vals|, i)
    ensures forall j :: i <= j < |vals| && j < |params| && LastBound(params, |vals|, j) ==>
                          params[j] in r.locals && r.locals[params[j]] == vals[j]
    ensures forall x :: x in st.locals && x !in BoundNames(params, |vals|, i) ==> r.locals[x] == st.locals[x]
    decreases |vals| - i
  {
    if i >= |vals| then st
    else
      var st1 := if i < |params| then SetVar(st, params[i], vals[i]) else st;
      assert BoundNames(params, |vals|, i)
        == BoundNames(params, |vals|, i + 1) + (if i < |params| then {params[i]} else {});
      BindParams(st1, params, vals, i + 1)
  }

  /** src's parameter binding, inside the new frame: each argument is evaluated there,
      seeing the parameters bound before it and the globals, but not the caller's
      locals. */
  function BindArgsSrc(cfg: Config, st: State, params: seq<string>, args: seq<Expr>, i: nat): (o: Outcome)
    requires |st.stack| > 0
    ensures o.Normal? || (o.Faulted? && o.faultLabel.None?)
    ensures o.st.stack == st.stack && o.st.globals == st.globals && o.st.functions == st.functions && o.st.output == st.output
    ensures o.Normal? ==> o.st.locals.Keys == st.locals.Keys + BoundNames(params, |args|, i)
    ensures st.locals.Keys <= o.st.locals.Keys <= st.locals.Keys + BoundNames(params, |args|, i)
    ensures forall x :: x in st.locals && x !in BoundNames(params, |args|, i) ==> o.st.locals[x] == st.locals[x]
    decreases |args| - i
  {
    if i >= |args| then Normal(st)
    else
      assert BoundNames(params, |args|, i)
        == BoundNames(params, |args|, i + 1) + (if i < |params| then {params[i]} else {});
      match EvalExpr(cfg, st, args[i])
      case Fault(m) => Faulted(m, None, st)
      case Val(v) => BindArgsSrc(cfg, if i < |params| then SetVar(st, params[i], v) else st, params, args, i + 1)
  }

  /** Writing a call's result to its `@variable`, when it names one. */
  function BindResult(st: State, resultVar: Option<string>, v: Value): (r: State)
    ensures r.stack == st.stack && r.functions == st.functions && r.output == st.output
    ensures |st.stack| > 0 ==> r.globals == st.globals
    ensures |st.stack| == 0 ==> r.locals == st.locals
  {
    if resultVar.Some? && resultVar.value != "" then SetVar(st, resultVar.value, v) else st
  }

  /** Every stored function body is one the parser could have produced. */
  predicate TableWellFormed(st: State) {
    forall name :: name in st.functions ==> WellFormedBlock(st.functions[name].body)
  }

  /** What every statement keeps, however it ends: the caller's saved scopes; the
      globals while inside a call and the (top-level) locals outside one; every
      line already written and every function already defined. src never labels
      an error. */
  predicate Disciplined(rev: Revision, st: State, o: Outcome) {
    && o.st.stack == st.stack
    && (|st.stack| > 0 ==> o.st.globals == st.globals)
    && (|st.stack| == 0 ==> o.st.locals == st.locals)
    && st.output <= o.st.output
    && st.functions.Keys <= o.st.functions.Keys
    && (rev == Src && o.Faulted? ==> o.faultLabel.None?)
  }

  /** The state after a call returns: the caller's scope restored, with the result
      bound in the caller's scope (bundle) or in the discarded callee scope (src). */
  function Finish(rev: Revision, callee: State, resultVar: Option<string>, result: Value): State {
    if rev == Bundle then BindResult(Pop(rev, callee), resultVar, result)
    else Pop(rev, BindResult(callee, resultVar, result))
  }

  /** Execution of one statement with `fuel` further nested calls allowed. */
  function Exec(cfg: Config, fuel: nat, st: State, s: Stmt): (o: Outcome)
    ensures Disciplined(cfg.rev, st, o)
    ensures s.AssignmentStmt? ==> (o.Normal? <==> EvalExpr(cfg, st, s.expression).Val?)
    ensures WellFormedStmt(s) && TableWellFormed(st) ==> !o.Crashed? && TableWellFormed(o.st)
    decreases fuel, s, 1, 0
  {
    match s
    case AssignmentStmt(e, x) =>
      (match EvalExpr(cfg, st, e)
       case Fault(m) => Faulted(m, None, st)
       case Val(v) => Normal(SetVar(st, x, v)))
    case FunctionDefStmt(name, params, body) =>
      Normal(st.(functions := st.functions[name := FuncDef(params, body)]))
    case FunctionCallStmt(_, _, _) => Call(cfg, fuel, st, s)
    case ReturnStmt(e) =>
      (match EvalExpr(cfg, st, e)
       case Fault(m) => Faulted(m, None, st)
       case Val(v) => Returned(v, st))
    case AlertStmt(args) =>
      (match EvalArgs(cfg, st, args)
       case Failure(m) => Faulted(m, None, st)
       case Success(vs) => Normal(st.(output := st.output + [Join(AlertSeparator(cfg.rev), Strs(vs))])))
    case IfStmt(c, t, e) =>
      (match EvalExpr(cfg, st, c)
       case Fault(m) => Faulted(m, None, st)
       case Val(v) =>
         if Truthy(v) then ExecBlock(cfg, fuel, st, t)
         else if e.Some? then ExecBlock(cfg, fuel, st, e.value)
         else Normal(st))
    case TryStmt(labelText, tb, cb) =>
      var o := ExecBlock(cfg, fuel, st, tb);
      if Catches(cfg.rev, labelText, o) then ExecBlock(cfg, fuel, o.st, cb) else o
    case BlockStmt(b) => ExecBlock(cfg, fuel, st, b)
  }

  /** `visitFunctionCallStmt`. */
  function Call(cfg: Config, fuel: nat, st: State, s: Stmt): (o: Outcome)
    requires s.FunctionCallStmt?
    ensures Disciplined(cfg.rev, st, o)
    ensures s.callee == "alert" ==> o.Crashed?
    ensures s.callee != "alert" && TableWellFormed(st) ==> !o.Crashed? && TableWellFormed(o.st)
    ensures s.callee != "alert" && !(cfg.rev == Bundle && s.callee == "explode") && s.callee !in st.functions
      ==> o == Faulted("Unknown function: " + s.callee, None, st)
    decreases fuel, s, 0, 0
  {
    if s.callee == "alert" then Crashed("Alert should be handled as AlertStmt", st)
    else if cfg.rev == Bundle && s.callee == "explode" then Explode(cfg, st, s.args)
    else if s.callee !in st.functions then Faulted("Unknown function: " + s.callee, None, st)
    else if fuel == 0 then Exhausted(st)
    else
      var f := st.functions[s.callee];
      if cfg.rev == Bundle then
        match EvalArgs(cfg, st, s.args)
        case Failure(m) => Faulted(m, None, st)
        case Success(vals) =>
          var o := ExecBlock(cfg, fuel - 1, BindParams(Push(st), f.params, vals, 0), f.body);
          AfterCall(cfg.rev, st, o, s.resultVar)
      else
        var b := BindArgsSrc(cfg, Push(st), f.params, s.args, 0);
        if b.Faulted? then Faulted(b.message, None, Pop(cfg.rev, b.st))
        else AfterCall(cfg.rev, st, ExecBlock(cfg, fuel - 1, b.st, f.body), s.resultVar)
  }

  /** The end of a call whose body ended with `o`: the frame is popped whatever
      happened (`finally`); a normal end yields 0, a `return` its value, and any
      error propagates. */
  function AfterCall(rev: Revision, caller: State, o: Outcome, resultVar: Option<string>): (r: Outcome)
    requires o.st.stack == Push(caller).stack
    requires o.st.globals == caller.globals || |caller.stack| == 0
    requires caller.output <= o.st.output && caller.functions.Keys <= o.st.functions.Keys
    requires rev == Src && o.Faulted? ==> o.faultLabel.None?
    ensures Disciplined(rev, caller, r)
    ensures r.Normal? <==> o.Normal? || o.Returned?
    ensures r.Faulted? <==> o.Faulted?
    ensures r.Crashed? <==> o.Crashed?
    ensures r.st.functions == o.st.functions
  {
    match o
    case Normal(s2) => Normal(Finish(rev, s2, resultVar, Num(0)))
    case Returned(v, s2) => Normal(Finish(rev, s2, resultVar, v))
    case Faulted(m, l, s2) => Faulted(m, l, Pop(rev, s2))
    case Crashed(m, s2) => Crashed(m, Pop(rev, s2))
    case Exhausted(s2) => Exhausted(Pop(rev, s2))
  }

  /** `visitBlockStmt`: the statements in order, stopping at the first that does not
      end normally. */
  function ExecBlock(cfg: Config, fuel: nat, st: State, b: Block): (o: Outcome)
    ensures Disciplined(cfg.rev, st, o)
    ensures WellFormedBlock(b) && TableWellFormed(st) ==> !o.Crashed? && TableWellFormed(o.st)
    decreases fuel, b, 2, 0
  {
    ExecStmts(cfg, fuel, st, b, 0)
  }

  lemma WellFormedItem(b: Block, i: nat)
    requires i < |b.stmts|
    ensures WellFormedBlock(b) ==> WellFormedStmt(b.stmts[i])
  {
    if WellFormedBlock(b) {
      assert WellFormedStmts(b.stmts);
    }
  }

  function ExecStmts(cfg: Config, fuel: nat, st: State, b: Block, i: nat): (o: Outcome)
    ensures Disciplined(cfg.rev, st, o)
    ensures WellFormedBlock(b) && TableWellFormed(st) ==> !o.Crashed? && TableWellFormed(o.st)
    decreases fuel, b, 1, |b.stmts| - i
  {
    if i >= |b.stmts| then Normal(st)
    else
      WellFormedItem(b, i);
      var o := Exec(cfg, fuel, st, b.stmts[i]);
      if o.Normal? then ExecStmts(cfg, fuel, o.st, b, i + 1) else o
  }

  /** What `interpret` reports once the program stops. */
  datatype Report = Finished | Explosion(message: string) | UnexpectedExplosion(message: string) | StackExhausted

  datatype Run = Run(output: seq<string>, report: Report, final: State)

  /** `interpret`: run the program from an empty interpreter. A `return` at the top
      level ends the program silently. */
  function Interpret(cfg: Config, fuel: nat, prog: Program): (r: Run)
    ensures r.final.stack == [] && r.final.locals == map[]
    ensures r.output == r.final.output
    ensures WellFormedStmts(prog.stmts) ==> !r.report.UnexpectedExplosion?
  {
    var o := ExecBlock(cfg, fuel, Initial, Block(prog.stmts));
    var report := match o
      case Normal(_) => Finished
      case Returned(_, _) => Finished
      case Faulted(m, _, _) => Explosion(m)
      case Crashed(m, _) => UnexpectedExplosion(m)
      case Exhausted(_) => StackExhausted;
    Run(o.st.output, report, o.st)
  }
}
