// Static worst-case resource bounds, and their soundness for every run.

module Bounds {
  import opened Wrappers
  import opened Core
  import opened Failures
  import opened Operators
  import opened Ir
  import opened Semantics
  import opened Effects

  datatype Bound = Bound(toolCalls: nat, loopIterations: nat, emitRecords: nat)

  const NO_USE := Bound(0, 0, 0)

  function Plus(a: Bound, b: Bound): Bound {
    Bound(a.toolCalls + b.toolCalls, a.loopIterations + b.loopIterations, a.emitRecords + b.emitRecords)
  }

  // n runs of a loop body, each costing one iteration besides what the body uses.
  function Repeated(n: nat, body: Bound): Bound {
    if n == 0 then NO_USE else Plus(Plus(body, Bound(0, 1, 0)), Repeated(n - 1, body))
  }

  // The closed form the analyser computes.
  lemma {:induction false} RepeatedProduct(n: nat, body: Bound)
    ensures Repeated(n, body) == Bound(n * body.toolCalls, n * (1 + body.loopIterations), n * body.emitRecords)
  {
    if n > 0 {
      RepeatedProduct(n - 1, body);
      Distribute(n, body.toolCalls);
      Distribute(n, 1 + body.loopIterations);
      Distribute(n, body.emitRecords);
    }
  }

  lemma Distribute(n: nat, x: int)
    requires n > 0
    ensures n * x == (n - 1) * x + x
  {
  }

  function ExprCalls(e: Expr): nat
    decreases e, 1
  {
    match e
    case Literal(_, _, _) => 0
    case SymbolRef(_, _, _) => 0
    case Field(_, source, _, _) => ExprCalls(source)
    case Projection(_, source, _, _) => ExprCalls(source)
    case Call(_, _, operands, _) => OperandCalls(operands)
    case Binary(_, _, left, right, _) => ExprCalls(left) + ExprCalls(right)
    case Read(_, _, arguments, _, _) => 1 + ArgumentCalls(arguments)
    case Write(_, _, arguments, _, _) => 1 + ArgumentCalls(arguments)
  }

  function OperandCalls(es: seq<Expr>): nat
    decreases es, 0
  {
    if es == [] then 0 else ExprCalls(es[0]) + OperandCalls(es[1..])
  }

  function ArgumentCalls(args: seq<Argument>): nat
    decreases args, 0
  {
    if args == [] then 0 else ExprCalls(args[0].value) + ArgumentCalls(args[1..])
  }

  // Every loop has a positive static maximum.
  predicate Bounded(stmts: seq<Stmt>)
    decreases stmts, 1
  {
    stmts == [] || (StmtBounded(stmts[0]) && Bounded(stmts[1..]))
  }

  predicate StmtBounded(stmt: Stmt)
    decreases stmt, 0
  {
    stmt.Foreach? ==> stmt.maxIterations > 0 && Bounded(stmt.body)
  }

  function BlockBound(stmts: seq<Stmt>): Bound
    decreases stmts, 1
  {
    if stmts == [] then NO_USE else Plus(StmtBound(stmts[0]), BlockBound(stmts[1..]))
  }

  function StmtBound(stmt: Stmt): Bound
    decreases stmt, 0
  {
    match stmt
    case Let(_, _, value) => Bound(ExprCalls(value), 0, 0)
    case Check(_, _, condition, _, _, _, _) => Bound(ExprCalls(condition), 0, 0)
    case Emit(_, fields) => Bound(ArgumentCalls(fields), 0, 1)
    case Approval(_, _, _, _) => NO_USE
    case Foreach(_, _, collection, maxIterations, body) =>
      Plus(Bound(ExprCalls(collection), 0, 0), Repeated(maxIterations, BlockBound(body)))
  }

  // The analyser: one pass over the statements, accumulating three counters.
  method AnalyzeBlock(stmts: seq<Stmt>) returns (r: Option<Bound>)
    ensures r == if Bounded(stmts) then Some(BlockBound(stmts)) else None
    decreases stmts, 1
  {
    hide BlockBound, StmtBound;
    var toolCalls, loopIterations, emitRecords := 0, 0, 0;
    assert stmts[0..] == stmts;
    for i := 0 to |stmts|
      invariant 0 <= toolCalls && 0 <= loopIterations && 0 <= emitRecords
      invariant BlockBound(stmts) == Plus(Bound(toolCalls, loopIterations, emitRecords), BlockBound(stmts[i..]))
      invariant Bounded(stmts) <==> Bounded(stmts[i..])
    {
      HeadFirst(stmts, i);
      var step := AnalyzeStmt(stmts[i]);
      if step.None? {
        return None;
      }
      toolCalls := toolCalls + step.value.toolCalls;
      loopIterations := loopIterations + step.value.loopIterations;
      emitRecords := emitRecords + step.value.emitRecords;
    }
    assert BlockBound(stmts[|stmts|..]) == NO_USE by {
      NothingLeft();
    }
    return Some(Bound(toolCalls, loopIterations, emitRecords));
  }

  // What one statement adds to the counters; a loop multiplies its body.
  method AnalyzeStmt(stmt: Stmt) returns (r: Option<Bound>)
    ensures r == if StmtBounded(stmt) then Some(StmtBound(stmt)) else None
    decreases stmt, 0
  {
    hide ExprCalls, ArgumentCalls, Repeated, Bounded, BlockBound;
    match stmt
    case Let(_, _, value) => return Some(Bound(ExprCalls(value), 0, 0));
    case Check(_, _, condition, _, _, _, _) => return Some(Bound(ExprCalls(condition), 0, 0));
    case Emit(_, fields) => return Some(Bound(ArgumentCalls(fields), 0, 1));
    case Approval(_, _, _, _) => return Some(NO_USE);
    case Foreach(_, _, collection, maxIterations, statements) =>
      if maxIterations == 0 {
        return None;
      }
      var body := AnalyzeBlock(statements);
      if body.None? {
        return None;
      }
      var b := body.value;
      RepeatedProduct(maxIterations, b);
      return Some(Plus(Bound(ExprCalls(collection), 0, 0),
                       Bound(maxIterations * b.toolCalls, maxIterations * (1 + b.loopIterations), maxIterations * b.emitRecords)));
  }

  lemma NothingLeft()
    ensures BlockBound([]) == NO_USE
  {
  }

  lemma {:induction false} HeadFirst(stmts: seq<Stmt>, i: nat)
    requires i < |stmts|
    ensures BlockBound(stmts[i..]) == Plus(StmtBound(stmts[i]), BlockBound(stmts[i + 1..]))
    ensures Bounded(stmts[i..]) <==> StmtBounded(stmts[i]) && Bounded(stmts[i + 1..])
  {
    assert stmts[i..][1..] == stmts[i + 1..];
  }

  // ---------- soundness ----------

  predicate CountLimit(f: Failure) {
    f == LimitExceeded(ToolCalls) || f == LimitExceeded(LoopIterations) || f == LimitExceeded(EmittedRows)
  }

  // The meter moved forward by at most the bound.
  predicate UsedAtMost(before: Meter, after: Meter, bound: Bound) {
    && before.toolCalls <= after.toolCalls <= before.toolCalls + bound.toolCalls
    && before.loopIterations <= after.loopIterations <= before.loopIterations + bound.loopIterations
    && before.emittedRows <= after.emittedRows <= before.emittedRows + bound.emitRecords
  }

  predicate UsedExactly(before: Meter, after: Meter, bound: Bound) {
    && after.toolCalls == before.toolCalls + bound.toolCalls
    && after.loopIterations == before.loopIterations + bound.loopIterations
    && after.emittedRows == before.emittedRows + bound.emitRecords
  }

  // There is room left for the bound under the limits.
  predicate Fits(meter: Meter, bound: Bound, limits: Limits) {
    && meter.toolCalls + bound.toolCalls <= limits.toolCalls
    && meter.loopIterations + bound.loopIterations <= limits.loopIterations
    && meter.emittedRows + bound.emitRecords <= limits.emittedRows
  }

  // Evaluation consumes exactly the calls it syntactically contains when it succeeds, at most
  // those when it fails, and cannot hit the call limit while that many calls are left.
  ghost predicate MeteredEval<T>(env: Env, before: Ledger, r: Eval<T>, calls: nat) {
    var bound := Bound(calls, 0, 0);
    && UsedAtMost(before.meter, r.w.meter, bound)
    && (r.res.Ok? ==> UsedExactly(before.meter, r.w.meter, bound))
    && (r.res.Err? && before.meter.toolCalls + calls <= env.limits.toolCalls ==> !CountLimit(r.res.error))
  }

  lemma {:induction false} ExprIsMetered(env: Env, b: Bindings, e: Expr, w: Ledger)
    ensures MeteredEval(env, w, EvalExpr(env, b, e, w), ExprCalls(e))
    decreases e, 2
  {
    if !e.Write? {
      NodeIsMetered(env, b, e, w);
    }
  }

  lemma {:induction false} NodeIsMetered(env: Env, b: Bindings, e: Expr, w: Ledger)
    requires !e.Write?
    ensures MeteredEval(env, w, EvalNode(env, b, e, w), ExprCalls(e))
    decreases e, 1
  {
    match e
    case Literal(_, _, _) =>
    case SymbolRef(_, _, _) =>
    case Field(_, source, _, _) => ExprIsMetered(env, b, source, w);
    case Projection(_, source, _, _) => ExprIsMetered(env, b, source, w);
    case Call(_, _, operands, _) => OperandsAreMetered(env, b, operands, w);
    case Binary(_, _, left, right, _) =>
      ExprIsMetered(env, b, left, w);
      ExprIsMetered(env, b, right, EvalExpr(env, b, left, w).w);
    case Read(_, tool, arguments, _, policy) =>
      ArgumentsAreMetered(env, b, arguments, w);
      var r := EvalArguments(env, b, arguments, w);
      if tool in env.tools && r.res.Ok? {
        CallIsMetered(env, env.tools[tool], r.res.value, policy, r.w);
      }
  }

  lemma CallIsMetered(env: Env, contract: Contract, args: seq<NamedEnvelope>, policy: ResultPolicy, w: Ledger)
    ensures MeteredEval(env, w, CallTool(env, contract, args, policy, w), 1)
  {
  }

  lemma {:induction false} OperandsAreMetered(env: Env, b: Bindings, es: seq<Expr>, w: Ledger)
    ensures MeteredEval(env, w, EvalOperands(env, b, es, w), OperandCalls(es))
    decreases es, 0
  {
    if es != [] {
      ExprIsMetered(env, b, es[0], w);
      OperandsAreMetered(env, b, es[1..], EvalExpr(env, b, es[0], w).w);
    }
  }

  lemma {:induction false} ArgumentsAreMetered(env: Env, b: Bindings, args: seq<Argument>, w: Ledger)
    ensures MeteredEval(env, w, EvalArguments(env, b, args, w), ArgumentCalls(args))
    decreases args, 0
  {
    if args != [] {
      ExprIsMetered(env, b, args[0].value, w);
      ArgumentsAreMetered(env, b, args[1..], EvalExpr(env, b, args[0].value, w).w);
    }
  }

  lemma {:induction false} EmitFieldsAreMetered(env: Env, b: Bindings, fields: seq<Argument>, w: Ledger)
    requires forall i | 0 <= i < |fields| :: fields[i].name in OutputNames(env.outputs)
    ensures MeteredEval(env, w, EmitFields(env, b, fields, w), ArgumentCalls(fields))
    decreases |fields|
  {
    if fields != [] {
      ExprIsMetered(env, b, fields[0].value, w);
      EmitFieldsAreMetered(env, b, fields[1..], EvalExpr(env, b, fields[0].value, w).w);
    }
  }

  predicate LoopFree(stmts: seq<Stmt>) {
    forall i | 0 <= i < |stmts| :: !stmts[i].Foreach?
  }

  ghost predicate MeteredExec(env: Env, s: State, r: Exec, bound: Bound) {
    && UsedAtMost(s.w.meter, r.s.w.meter, bound)
    && (r.error.Some? && Fits(s.w.meter, bound, env.limits) ==> !CountLimit(r.error.value))
  }

  // From any meter reading, and whether it completes or fails, a block spends at most its static
  // bound, and it hits none of the three count limits while that much is left.
  lemma {:induction false} BlockBoundIsSound(env: Env, stmts: seq<Stmt>, s: State)
    requires Framed(s.b)
    ensures MeteredExec(env, s, ExecBlock(env, stmts, s), BlockBound(stmts))
    ensures LoopFree(stmts) && ExecBlock(env, stmts, s).error.None? ==>
      UsedExactly(s.w.meter, ExecBlock(env, stmts, s).s.w.meter, BlockBound(stmts))
    decreases stmts, 2, 0
  {
    hide ExecStmt, StmtBound;
    if stmts != [] {
      StmtBoundIsSound(env, stmts[0], s);
      var first := ExecStmt(env, stmts[0], s);
      if first.error.None? {
        BlockBoundIsSound(env, stmts[1..], first.s);
      }
    }
  }

  lemma {:induction false} StmtBoundIsSound(env: Env, stmt: Stmt, s: State)
    requires Framed(s.b)
    ensures MeteredExec(env, s, ExecStmt(env, stmt, s), StmtBound(stmt))
    ensures !stmt.Foreach? && ExecStmt(env, stmt, s).error.None? ==>
      UsedExactly(s.w.meter, ExecStmt(env, stmt, s).s.w.meter, StmtBound(stmt))
    decreases stmt, 1, 0
  {
    match stmt
    case Let(_, _, value) => ExprIsMetered(env, s.b, value, s.w);
    case Check(_, _, condition, _, _, _, _) => ExprIsMetered(env, s.b, condition, s.w);
    case Emit(_, fields) =>
      if EmitSchemaOk(env.outputs, fields) {
        SchemaNamesKnown(env.outputs, fields);
        EmitFieldsAreMetered(env, s.b, fields, s.w);
      }
    case Approval(_, _, _, _) =>
    case Foreach(_, _, _, _, _) => ForeachBoundIsSound(env, stmt, s);
  }

  lemma {:induction false} ForeachBoundIsSound(env: Env, stmt: Stmt, s: State)
    requires stmt.Foreach? && Framed(s.b)
    ensures MeteredExec(env, s, ExecStmt(env, stmt, s), StmtBound(stmt))
    decreases stmt, 0
  {
    hide ExecBlock, BlockBound, EvalExpr, ExprCalls, ExecLoop, Repeated, Elements;
    assert ExecStmt(env, stmt, s) == ExecForeach(env, stmt, s);
    hide ExecStmt;
    ExprIsMetered(env, s.b, stmt.collection, s.w);
    var r := EvalExpr(env, s.b, stmt.collection, s.w);
    if s.depth < MAX_FOREACH_NESTING_DEPTH && r.res.Ok? {
      var items := Elements(r.res.value.value);
      if items.Some? && |items.value| <= stmt.maxIterations {
        var body := BlockBound(stmt.body);
        LoopBoundIsSound(env, stmt, r.res.value, items.value, State(s.b, r.w, s.depth + 1));
        RepeatedIsMonotone(|items.value|, stmt.maxIterations, body);
        ForeachSum(env, stmt, s, r, ExecLoop(env, stmt, r.res.value, items.value, State(s.b, r.w, s.depth + 1)), |items.value|, body);
      }
    }
  }

  lemma ForeachSum(env: Env, stmt: Stmt, s: State, r: Eval<Envelope>, loop: Exec, n: nat, body: Bound)
    requires stmt.Foreach?
    requires MeteredEval(env, s.w, r, ExprCalls(stmt.collection)) && r.res.Ok?
    requires MeteredExec(env, State(s.b, r.w, s.depth + 1), loop, Repeated(n, body))
    requires Repeated(n, body).toolCalls <= Repeated(stmt.maxIterations, body).toolCalls
    requires Repeated(n, body).loopIterations <= Repeated(stmt.maxIterations, body).loopIterations
    requires Repeated(n, body).emitRecords <= Repeated(stmt.maxIterations, body).emitRecords
    ensures MeteredExec(env, s, loop.(s := loop.s.(depth := s.depth)),
      Plus(Bound(ExprCalls(stmt.collection), 0, 0), Repeated(stmt.maxIterations, body)))
  {
  }

  lemma {:induction false} LoopBoundIsSound(env: Env, stmt: Stmt, collection: Envelope, items: seq<Value>, s: State)
    requires stmt.Foreach? && Framed(s.b)
    ensures MeteredExec(env, s, ExecLoop(env, stmt, collection, items, s), Repeated(|items|, BlockBound(stmt.body)))
    decreases stmt, 0, |items|
  {
    hide ExecBlock, BlockBound, IsBound, Push;
    var body := BlockBound(stmt.body);
    if items != [] && s.w.meter.loopIterations < env.limits.loopIterations && !IsBound(Push(s.b), stmt.loopVariable) {
      LoopStep(env, stmt, collection, items, s);
      var entry := LoopEntry(stmt, collection, items, s);
      BlockBoundIsSound(env, stmt.body, entry);
      var r := ExecBlock(env, stmt.body, entry);
      if r.error.None? {
        LoopBoundIsSound(env, stmt, collection, items[1..], State(s.b, r.s.w, s.depth));
      }
    }
  }

  lemma {:induction false} RepeatedIsMonotone(m: nat, n: nat, body: Bound)
    requires m <= n
    ensures Repeated(m, body).toolCalls <= Repeated(n, body).toolCalls
    ensures Repeated(m, body).loopIterations <= Repeated(n, body).loopIterations
    ensures Repeated(m, body).emitRecords <= Repeated(n, body).emitRecords
    decreases n
  {
    if m < n {
      RepeatedIsMonotone(m, n - 1, body);
    }
  }

  // A body whose bound is within the limits, run on a fresh meter, never stops on a count limit.
  lemma {:induction false} AcceptedBodyKeepsItsLimits(env: Env, body: seq<Stmt>, s: State)
    requires Framed(s.b)
    requires s.w.meter.toolCalls == s.w.meter.loopIterations == s.w.meter.emittedRows == 0
    requires Fits(s.w.meter, BlockBound(body), env.limits)
    ensures var r := ExecBlock(env, body, s);
      && (r.error.Some? ==> !CountLimit(r.error.value))
      && r.s.w.meter.toolCalls <= BlockBound(body).toolCalls <= env.limits.toolCalls
      && r.s.w.meter.loopIterations <= BlockBound(body).loopIterations <= env.limits.loopIterations
      && r.s.w.meter.emittedRows <= BlockBound(body).emitRecords <= env.limits.emittedRows
  {
    BlockBoundIsSound(env, body, s);
  }
}
