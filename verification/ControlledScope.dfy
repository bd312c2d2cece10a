// Which symbols a controlled skill can rely on: the statements its plan leaves out bind names that
// later statements may still use.

module ControlledScope {
  import opened Wrappers
  import opened Core
  import opened Failures
  import opened Operators
  import opened Ir
  import opened Semantics
  import opened Effects
  import opened Symbols
  import opened Ast
  import opened Compiler
  import opened Execution
  import opened Typing
  import opened LoweringTyped
  import opened CompiledSkills
  import opened ControlledExecution

  // ---------- free symbols ----------

  function Free(e: Expr): set<SymbolId>
    decreases e, 1
  {
    match e
    case Literal(_, _, _) => {}
    case SymbolRef(_, symbol, _) => {symbol}
    case Field(_, source, _, _) => Free(source)
    case Projection(_, source, _, _) => Free(source)
    case Call(_, _, operands, _) => FreeInAll(operands)
    case Binary(_, _, left, right, _) => Free(left) + Free(right)
    case Read(_, _, arguments, _, _) => FreeInArguments(arguments)
    case Write(_, _, arguments, _, _) => FreeInArguments(arguments)
  }

  function FreeInAll(es: seq<Expr>): set<SymbolId>
    decreases es, 0
  {
    if es == [] then {} else Free(es[0]) + FreeInAll(es[1..])
  }

  function FreeInArguments(args: seq<Argument>): set<SymbolId>
    decreases args, 0
  {
    if args == [] then {} else Free(args[0].value) + FreeInArguments(args[1..])
  }

  // What a statement binds for the statements after it.
  function Introduced(stmt: Stmt): set<SymbolId> {
    match stmt
    case Let(_, target, _) => {target}
    case Check(_, _, _, _, _, _, result) => {result}
    case _ => {}
  }

  function IntroducedBy(stmts: seq<Stmt>): set<SymbolId> {
    if stmts == [] then {} else Introduced(stmts[0]) + IntroducedBy(stmts[1..])
  }

  function FreeStmt(stmt: Stmt): set<SymbolId>
    decreases stmt, 1
  {
    match stmt
    case Let(_, _, value) => Free(value)
    case Check(_, _, condition, _, _, _, _) => Free(condition)
    case Emit(_, fields) => FreeInArguments(fields)
    case Foreach(_, loopVariable, collection, _, body) => Free(collection) + (FreeIn(body) - {loopVariable})
    case Approval(_, _, _, _) => {}
  }

  function FreeIn(stmts: seq<Stmt>): set<SymbolId>
    decreases stmts, 0
  {
    if stmts == [] then {} else FreeStmt(stmts[0]) + (FreeIn(stmts[1..]) - Introduced(stmts[0]))
  }

  lemma {:induction false} FreeInJoined(a: seq<Stmt>, b: seq<Stmt>)
    ensures FreeIn(a + b) == FreeIn(a) + (FreeIn(b) - IntroducedBy(a))
    ensures IntroducedBy(a + b) == IntroducedBy(a) + IntroducedBy(b)
    decreases |a|
  {
    if a == [] {
      assert a + b == b;
    } else {
      assert (a + b)[1..] == a[1..] + b;
      FreeInJoined(a[1..], b);
      hide FreeStmt, Introduced;
    }
  }

  // What a statement certainly looks up when it completes: the body of a loop may never run.
  function Certain(stmt: Stmt): set<SymbolId> {
    match stmt
    case Foreach(_, _, collection, _, _) => Free(collection)
    case Let(_, _, _) => FreeStmt(stmt)
    case Check(_, _, _, _, _, _, _) => FreeStmt(stmt)
    case Emit(_, _) => FreeStmt(stmt)
    case Approval(_, _, _, _) => {}
  }

  function CertainIn(stmts: seq<Stmt>): (r: set<SymbolId>)
    ensures r <= FreeIn(stmts)
  {
    if stmts == [] then {} else Certain(stmts[0]) + (CertainIn(stmts[1..]) - Introduced(stmts[0]))
  }

  // ---------- a run whose symbols are bound ----------

  ghost predicate AllBound(b: Bindings, ids: set<SymbolId>) {
    forall id | id in ids :: IsBound(b, id)
  }

  // Exactly these symbols are bound.
  ghost predicate Binds(b: Bindings, ids: set<SymbolId>) {
    forall id :: IsBound(b, id) <==> id in ids
  }

  // Expressions are strict: one is evaluated only if its symbols are all bound, and then it never
  // meets an unknown one.
  lemma {:induction false} ExprKnows(env: Env, b: Bindings, e: Expr, w: Ledger)
    ensures var r := EvalExpr(env, b, e, w).res;
      (r.Ok? ==> AllBound(b, Free(e))) && (AllBound(b, Free(e)) ==> r != Err(UnknownSymbol))
    decreases e, 2
  {
    hide IsBound;
    if !e.Write? {
      NodeKnows(env, b, e, w);
      hide EvalNode;
    }
  }

  lemma {:induction false} NodeKnows(env: Env, b: Bindings, e: Expr, w: Ledger)
    requires !e.Write?
    ensures var r := EvalNode(env, b, e, w).res;
      (r.Ok? ==> AllBound(b, Free(e))) && (AllBound(b, Free(e)) ==> r != Err(UnknownSymbol))
    decreases e, 1
  {
    hide EvalExpr, EvalOperands, EvalArguments, IsBound, ApplyBinary, EvaluateBuiltin;
    match e
    case Literal(_, _, _) =>
    case SymbolRef(_, symbol, _) =>
    case Field(_, source, _, _) => ExprKnows(env, b, source, w);
    case Projection(_, source, _, _) => ExprKnows(env, b, source, w);
    case Call(_, _, operands, _) => OperandsKnow(env, b, operands, w);
    case Binary(_, _, left, right, _) =>
      ExprKnows(env, b, left, w);
      ExprKnows(env, b, right, EvalExpr(env, b, left, w).w);
    case Read(_, _, arguments, _, _) => ArgumentsKnow(env, b, arguments, w);
  }

  lemma {:induction false} OperandsKnow(env: Env, b: Bindings, es: seq<Expr>, w: Ledger)
    ensures var r := EvalOperands(env, b, es, w).res;
      (r.Ok? ==> AllBound(b, FreeInAll(es))) && (AllBound(b, FreeInAll(es)) ==> r != Err(UnknownSymbol))
    decreases es, 0
  {
    hide EvalExpr, IsBound;
    if es != [] {
      ExprKnows(env, b, es[0], w);
      OperandsKnow(env, b, es[1..], EvalExpr(env, b, es[0], w).w);
    }
  }

  lemma {:induction false} ArgumentsKnow(env: Env, b: Bindings, args: seq<Argument>, w: Ledger)
    ensures var r := EvalArguments(env, b, args, w).res;
      (r.Ok? ==> AllBound(b, FreeInArguments(args))) && (AllBound(b, FreeInArguments(args)) ==> r != Err(UnknownSymbol))
    decreases args, 0
  {
    hide EvalExpr, IsBound;
    if args != [] {
      ExprKnows(env, b, args[0].value, w);
      ArgumentsKnow(env, b, args[1..], EvalExpr(env, b, args[0].value, w).w);
    }
  }

  lemma {:induction false} FieldsKnow(env: Env, b: Bindings, fields: seq<Argument>, w: Ledger)
    requires forall i | 0 <= i < |fields| :: fields[i].name in OutputNames(env.outputs)
    ensures var r := EmitFields(env, b, fields, w).res;
      (r.Ok? ==> AllBound(b, FreeInArguments(fields))) && (AllBound(b, FreeInArguments(fields)) ==> r != Err(UnknownSymbol))
    decreases |fields|
  {
    hide EvalExpr, IsBound;
    if fields != [] {
      ExprKnows(env, b, fields[0].value, w);
      FieldsKnow(env, b, fields[1..], EvalExpr(env, b, fields[0].value, w).w);
    }
  }

  // A statement whose symbols are bound meets no unknown one; one that completes found all it
  // certainly looks up, and binds just what it introduces.
  lemma {:induction false} StmtKnows(env: Env, stmt: Stmt, s: State)
    requires Framed(s.b)
    ensures var r := ExecStmt(env, stmt, s);
      && (AllBound(s.b, FreeStmt(stmt)) ==> r.error != Some(UnknownSymbol))
      && (r.error.None? ==> AllBound(s.b, Certain(stmt)) && forall id :: IsBound(r.s.b, id) <==> IsBound(s.b, id) || id in Introduced(stmt))
    decreases stmt, 2, 0
  {
    match stmt
    case Let(_, target, value) =>
      ExprKnows(env, s.b, value, s.w);
      BindingKeeps(s.b, target);
      hide EvalExpr, IsBound, Bind;
    case Check(_, _, condition, _, _, _, result) =>
      ExprKnows(env, s.b, condition, s.w);
      BindingKeeps(s.b, result);
      hide EvalExpr, IsBound, BindCheck;
    case Emit(_, fields) =>
      hide EvalExpr, IsBound, EmitFields;
      if EmitSchemaOk(env.outputs, fields) {
        SchemaNamesKnown(env.outputs, fields);
        FieldsKnow(env, s.b, fields, s.w);
      }
    case Foreach(_, _, _, _, _) => ForeachKnows(env, stmt, s);
    case Approval(_, _, _, _) =>
  }

  lemma BindingKeeps(b: Bindings, id: SymbolId)
    requires Framed(b)
    ensures forall x :: Framed(Bind(b, id, x)) && Framed(BindCheck(b, id, x))
    ensures forall x, other: SymbolId :: IsBound(Bind(b, id, x), other) <==> other == id || IsBound(b, other)
    ensures forall x, other: SymbolId :: IsBound(BindCheck(b, id, x), other) <==> other == id || IsBound(b, other)
  {
    forall x, other: SymbolId ensures IsBound(Bind(b, id, x), other) <==> other == id || IsBound(b, other) {
      TopFrameKeeps(b.frames, id, x, other);
      hide BindTop, InSomeFrame;
    }
    forall x, other: SymbolId ensures IsBound(BindCheck(b, id, x), other) <==> other == id || IsBound(b, other) {
      TopFrameKeeps(b.checkFrames, id, x, other);
      hide BindTop, InSomeFrame;
    }
  }

  lemma TopFrameKeeps(frames: seq<Semantics.Frame>, id: SymbolId, x: Envelope, other: SymbolId)
    requires frames != []
    ensures InSomeFrame(BindTop(frames, id, x), other) <==> other == id || InSomeFrame(frames, other)
  {
    BindTopInnermost(frames, id, x, other);
    hide BindTop;
    assert InSomeFrame(frames, other) <==> Innermost(frames, other).Some?;
  }

  lemma {:induction false} ForeachKnows(env: Env, stmt: Stmt, s: State)
    requires stmt.Foreach? && Framed(s.b)
    ensures var r := ExecStmt(env, stmt, s);
      && (AllBound(s.b, FreeStmt(stmt)) ==> r.error != Some(UnknownSymbol))
      && (r.error.None? ==> AllBound(s.b, Free(stmt.collection))) && r.s.b == s.b
    decreases stmt, 1, 0
  {
    hide EvalExpr, IsBound, ExecLoop;
    ExprKnows(env, s.b, stmt.collection, s.w);
    var r := EvalExpr(env, s.b, stmt.collection, s.w);
    if AllBound(s.b, FreeStmt(stmt)) {
      assert AllBound(s.b, Free(stmt.collection));
      if r.res.Ok? && Elements(r.res.value.value).Some? {
        LoopKnows(env, stmt, r.res.value, Elements(r.res.value.value).value, State(s.b, r.w, s.depth + 1));
      }
    }
  }

  lemma {:induction false} LoopKnows(env: Env, stmt: Stmt, collection: Envelope, items: seq<Value>, s: State)
    requires stmt.Foreach? && Framed(s.b) && AllBound(s.b, FreeIn(stmt.body) - {stmt.loopVariable})
    ensures ExecLoop(env, stmt, collection, items, s).error != Some(UnknownSymbol)
    decreases stmt, 0, |items|
  {
    if items != [] && s.w.meter.loopIterations < env.limits.loopIterations && !IsBound(Push(s.b), stmt.loopVariable) {
      LoopStep(env, stmt, collection, items, s);
      var entry := LoopEntry(stmt, collection, items, s);
      forall id | id in FreeIn(stmt.body) ensures IsBound(entry.b, id) {
        PushResolves(s.b, id);
        BindingKeeps(Push(s.b), stmt.loopVariable);
      }
      hide IsBound, ExecBlock, FreeIn;
      BlockKnows(env, stmt.body, entry);
      var body := ExecBlock(env, stmt.body, entry);
      if body.error.None? {
        LoopKnows(env, stmt, collection, items[1..], State(s.b, body.s.w, s.depth));
      }
    }
  }

  // The same for a block.
  lemma {:induction false} BlockKnows(env: Env, stmts: seq<Stmt>, s: State)
    requires Framed(s.b)
    ensures var r := ExecBlock(env, stmts, s);
      && (AllBound(s.b, FreeIn(stmts)) ==> r.error != Some(UnknownSymbol))
      && (r.error.None? ==> AllBound(s.b, CertainIn(stmts)) && forall id :: IsBound(r.s.b, id) <==> IsBound(s.b, id) || id in IntroducedBy(stmts))
    decreases stmts, 3, 0
  {
    hide ExecStmt, FreeStmt, Introduced, IsBound, Certain;
    if stmts != [] {
      StmtKnows(env, stmts[0], s);
      var first := ExecStmt(env, stmts[0], s);
      if first.error.None? {
        BlockKnows(env, stmts[1..], first.s);
      }
    }
  }

  // ---------- lowered code uses what is visible ----------

  ghost predicate KnownId(t: Table, id: int) {
    exists i, name :: InFrame(t, i, name) && t.frames[i].names[name].id == id
  }

  // Every symbol in scope has been issued.
  ghost predicate Numbered(t: Table) {
    t.frames != [] && forall id | KnownId(t, id) :: id <= t.symbolCounter
  }

  lemma {:induction false} LoweredExprIsClosed(tools: Tools, t: Table, e: AstExpr, n: Nodes)
    requires LowerExpr(tools, t, e, n).Ok?
    ensures forall id | id in Free(LowerExpr(tools, t, e, n).value.expr) :: KnownId(t, id)
    decreases e, 1
  {
    hide KnownId;
    match e
    case ALiteral(_, _) =>
    case APath(root, parts) =>
      var b := Find(t.frames, root).value;
      FoundIsKnown(t, root);
      LoweredPathIsClosed(SymbolRef(Next(n, ExprNode), b.id, b.ty), parts, Taken(n, ExprNode));
      hide Find, LowerPath;
    case ACall(_, operands) =>
      LoweredOperandsAreClosed(tools, t, operands, n);
      hide LowerOperands;
    case ABinary(_, left, right) =>
      LoweredExprIsClosed(tools, t, left, n);
      LoweredExprIsClosed(tools, t, right, LowerExpr(tools, t, left, n).value.nodes);
    case ARead(tool, arguments) =>
      LoweredArgumentsAreClosed(tools, t, tools[tool].contract, arguments, n);
      hide LowerArguments;
    case AWrite(tool, arguments, _) =>
      LoweredArgumentsAreClosed(tools, t, tools[tool].contract, arguments, n);
      hide LowerArguments;
  }

  lemma FoundIsKnown(t: Table, name: string)
    requires Find(t.frames, name).Some?
    ensures KnownId(t, Find(t.frames, name).value.id)
  {
    hide Find;
    var i :| 0 <= i < |t.frames| && name in t.frames[i].names && t.frames[i].names[name] == Find(t.frames, name).value;
    assert InFrame(t, i, name);
  }

  lemma {:induction false} LoweredPathIsClosed(source: Expr, parts: seq<string>, n: Nodes)
    requires LowerPath(source, parts, n).Ok?
    ensures Free(LowerPath(source, parts, n).value.0) == Free(source)
    decreases |parts|
  {
    if parts != [] {
      var (ty, projected) := FieldResult(source.ty, parts[0]).value;
      var id := Next(n, ExprNode);
      LoweredPathIsClosed(if projected then Projection(id, source, parts[0], ty) else Field(id, source, parts[0], ty), parts[1..], Taken(n, ExprNode));
    }
  }

  lemma {:induction false} LoweredOperandsAreClosed(tools: Tools, t: Table, es: seq<AstExpr>, n: Nodes)
    requires LowerOperands(tools, t, es, n).Ok?
    ensures forall id | id in FreeInAll(LowerOperands(tools, t, es, n).value.operands) :: KnownId(t, id)
    decreases es, 0
  {
    hide KnownId, LowerExpr, Free;
    if es != [] {
      LoweredExprIsClosed(tools, t, es[0], n);
      var first := LowerExpr(tools, t, es[0], n).value;
      LoweredOperandsAreClosed(tools, t, es[1..], first.nodes);
      var rest := LowerOperands(tools, t, es[1..], first.nodes).value.operands;
      assert ([first.expr] + rest)[1..] == rest;
    }
  }

  lemma {:induction false} LoweredArgumentsAreClosed(tools: Tools, t: Table, contract: Contract, args: seq<AstArgument>, n: Nodes)
    requires LowerArguments(tools, t, contract, args, n).Ok?
    ensures forall id | id in FreeInArguments(LowerArguments(tools, t, contract, args, n).value.arguments) :: KnownId(t, id)
    decreases args, 0
  {
    hide KnownId, LowerExpr, Free;
    if args != [] {
      LoweredExprIsClosed(tools, t, args[0].value, n);
      var first := LowerExpr(tools, t, args[0].value, n).value;
      LoweredArgumentsAreClosed(tools, t, contract, args[1..], first.nodes);
      var rest := LowerArguments(tools, t, contract, args[1..], first.nodes).value.arguments;
      assert ([Argument(args[0].name, first.expr)] + rest)[1..] == rest;
    }
  }

  lemma {:induction false} LoweredFieldsAreClosed(tools: Tools, t: Table, outputs: seq<OutputField>, fields: seq<AstArgument>, n: Nodes)
    requires (forall i | 0 <= i < |fields| :: fields[i].name in OutputNames(outputs)) && LowerFields(tools, t, outputs, fields, n).Ok?
    ensures forall id | id in FreeInArguments(LowerFields(tools, t, outputs, fields, n).value.arguments) :: KnownId(t, id)
    decreases |fields|
  {
    hide KnownId, LowerExpr, Free;
    if fields != [] {
      LoweredExprIsClosed(tools, t, fields[0].value, n);
      var first := LowerExpr(tools, t, fields[0].value, n).value;
      LoweredFieldsAreClosed(tools, t, outputs, fields[1..], first.nodes);
      var rest := LowerFields(tools, t, outputs, fields[1..], first.nodes).value.arguments;
      assert ([Argument(fields[0].name, first.expr)] + rest)[1..] == rest;
    }
  }

  // What a declaration adds to the symbols in scope.
  lemma DeclaringKnows(t: Table, name: string, namespace: Namespace, ty: Type, cls: Classification)
    requires Numbered(t) && !Visible(t.frames, name)
    ensures var d := Declared(t, name, namespace, ty, cls);
      && (forall id :: KnownId(d, id) <==> KnownId(t, id) || id == d.symbolCounter)
      && d.symbolCounter == t.symbolCounter + 1 && Numbered(d) && |d.frames| == |t.frames|
      && d.frames[..|t.frames| - 1] == t.frames[..|t.frames| - 1]
  {
    var d := Declared(t, name, namespace, ty, cls);
    var n := |t.frames| - 1;
    forall id ensures KnownId(d, id) <==> KnownId(t, id) || id == d.symbolCounter {
      if KnownId(d, id) {
        var i, other :| InFrame(d, i, other) && d.frames[i].names[other].id == id;
        assert (i == n && other == name) || (InFrame(t, i, other) && t.frames[i].names[other] == d.frames[i].names[other]);
      }
      if KnownId(t, id) {
        var i, other :| InFrame(t, i, other) && t.frames[i].names[other].id == id;
        assert other != name;
        assert InFrame(d, i, other) && d.frames[i].names[other].id == id;
      }
      assert InFrame(d, n, name) && d.frames[n].names[name].id == d.symbolCounter;
    }
  }

  // What lowering does to the symbols in scope: the new ones are those the code introduces, and their
  // numbers are new.
  ghost predicate Introduces(t: Table, ids: set<SymbolId>, u: Table) {
    && t.frames != [] && |u.frames| == |t.frames| && u.frames[..|t.frames| - 1] == t.frames[..|t.frames| - 1]
    && Numbered(u) && t.symbolCounter <= u.symbolCounter
    && (forall id :: KnownId(u, id) <==> KnownId(t, id) || id in ids)
    && (forall id | id in ids :: t.symbolCounter < id <= u.symbolCounter)
  }

  lemma {:induction false} LoweredStmtIsClosed(tools: Tools, outputs: seq<OutputField>, stmt: AstStmt, s: LState)
    requires Numbered(s.table) && LowerStmt(tools, outputs, stmt, s).Ok?
    ensures var l := LowerStmt(tools, outputs, stmt, s).value;
      && (forall id | id in FreeStmt(l.stmt) :: KnownId(s.table, id))
      && Introduces(s.table, Introduced(l.stmt), l.state.table)
    decreases stmt, 1
  {
    hide LowerExpr, LowerFields, LowerBlock, Declared, NamesMatch, KnownId, Free;
    match stmt
    case ALet(name, value) =>
      LoweredExprIsClosed(tools, s.table, value, s.nodes);
      var l := LowerExpr(tools, s.table, value, s.nodes).value;
      DeclaringKnows(s.table, name, VALUE, l.expr.ty, l.cls);
    case ACheck(checkId, condition, _, _, _) =>
      LoweredExprIsClosed(tools, s.table, condition, s.nodes);
      DeclaringKnows(s.table, checkId, CHECKS, CHECK_RESULT, INTERNAL);
    case AEmit(fields) =>
      FieldNamesKnown(outputs, fields);
      LoweredFieldsAreClosed(tools, s.table, outputs, fields, s.nodes);
    case AApprove(_, _) =>
    case AForeach(_, _, _, _) =>
      hide LowerStmt;
      LoweredForeachIsClosed(tools, outputs, stmt, s);
  }

  lemma SameFramesSameIds(t: Table, u: Table)
    requires t.frames == u.frames
    ensures forall id :: KnownId(t, id) <==> KnownId(u, id)
  {
    forall id ensures KnownId(t, id) <==> KnownId(u, id) {
      if KnownId(t, id) {
        var i, name :| InFrame(t, i, name) && t.frames[i].names[name].id == id;
        assert InFrame(u, i, name);
      }
      if KnownId(u, id) {
        var i, name :| InFrame(u, i, name) && u.frames[i].names[name].id == id;
        assert InFrame(t, i, name);
      }
    }
  }

  lemma EnteringKnows(t: Table)
    requires Numbered(t)
    ensures Numbered(Enter(t)) && forall id :: KnownId(Enter(t), id) <==> KnownId(t, id)
  {
    var u := Enter(t);
    forall id ensures KnownId(u, id) <==> KnownId(t, id) {
      if KnownId(t, id) {
        var i, name :| InFrame(t, i, name) && t.frames[i].names[name].id == id;
        assert InFrame(u, i, name) && u.frames[i] == t.frames[i];
      }
      if KnownId(u, id) {
        var i, name :| InFrame(u, i, name) && u.frames[i].names[name].id == id;
        assert InFrame(t, i, name);
      }
    }
  }

  lemma {:induction false} LoweredForeachIsClosed(tools: Tools, outputs: seq<OutputField>, stmt: AstStmt, s: LState)
    requires stmt.AForeach? && Numbered(s.table) && LowerStmt(tools, outputs, stmt, s).Ok?
    ensures var l := LowerStmt(tools, outputs, stmt, s).value;
      && (forall id | id in FreeStmt(l.stmt) :: KnownId(s.table, id))
      && Introduces(s.table, Introduced(l.stmt), l.state.table)
    decreases stmt, 0
  {
    hide LowerExpr, LowerBlock, Declared, KnownId, Free, FreeIn;
    var c := LowerExpr(tools, s.table, stmt.collection, s.nodes).value;
    LoweredExprIsClosed(tools, s.table, stmt.collection, s.nodes);
    var entered := Enter(s.table);
    EnteringKnows(s.table);
    DeclaringKnows(entered, stmt.loopName, VALUE, c.expr.ty.item, c.cls);
    var inner := DeclareIn(LState(entered, c.nodes), stmt.loopName, VALUE, c.expr.ty.item, c.cls).value;
    LoweredBlockIsClosed(tools, outputs, stmt.body, inner);
    var u := LowerBlock(tools, outputs, stmt.body, inner).value.state.table;
    assert Leave(u).frames == entered.frames[..|s.table.frames|] == s.table.frames;
    SameFramesSameIds(s.table, Leave(u));
  }

  lemma {:induction false} LoweredBlockIsClosed(tools: Tools, outputs: seq<OutputField>, stmts: seq<AstStmt>, s: LState)
    requires Numbered(s.table) && LowerBlock(tools, outputs, stmts, s).Ok?
    ensures var b := LowerBlock(tools, outputs, stmts, s).value;
      && (forall id | id in FreeIn(b.stmts) :: KnownId(s.table, id))
      && Introduces(s.table, IntroducedBy(b.stmts), b.state.table)
      && Ascending(s.table.symbolCounter, b.stmts)
    decreases stmts, 2
  {
    hide LowerStmt, KnownId, FreeStmt, Introduced;
    if stmts != [] {
      LoweredStmtIsClosed(tools, outputs, stmts[0], s);
      var first := LowerStmt(tools, outputs, stmts[0], s).value;
      LoweredBlockIsClosed(tools, outputs, stmts[1..], first.state);
      var rest := LowerBlock(tools, outputs, stmts[1..], first.state).value;
      assert ([first.stmt] + rest.stmts)[1..] == rest.stmts;
      AscendingFrom(first.state.table.symbolCounter, s.table.symbolCounter, first.stmt, rest.stmts);
    }
  }

  // ---------- symbols are numbered in order ----------

  // All symbols the statements introduce are above the bound, and each above those before it.
  ghost predicate Ascending(c: nat, stmts: seq<Stmt>)
    decreases |stmts|
  {
    stmts == [] || ((forall id | id in Introduced(stmts[0]) :: id > c) && exists d: nat :: AscendingStep(c, d, stmts))
  }

  ghost predicate AscendingStep(c: nat, d: nat, stmts: seq<Stmt>)
    requires stmts != []
    decreases |stmts|, 0
  {
    c <= d && (forall id | id in Introduced(stmts[0]) :: id <= d) && Ascending(d, stmts[1..])
  }

  lemma AscendingFrom(d: nat, c: nat, first: Stmt, rest: seq<Stmt>)
    requires c <= d && (forall id | id in Introduced(first) :: c < id <= d) && Ascending(d, rest)
    ensures Ascending(c, [first] + rest)
  {
    var all := [first] + rest;
    assert all[1..] == rest;
    assert AscendingStep(c, d, all);
  }

  // Later statements introduce other symbols than earlier ones.
  lemma {:induction false} AscendingParts(c: nat, a: seq<Stmt>, b: seq<Stmt>)
    requires Ascending(c, a + b)
    ensures (forall id | id in IntroducedBy(a + b) :: id > c) && IntroducedBy(a) !! IntroducedBy(b)
    ensures exists d: nat :: c <= d && (forall id | id in IntroducedBy(a) :: id <= d) && Ascending(d, b)
    decreases |a| + |b|
  {
    hide Introduced;
    if a == [] {
      assert a + b == b;
      if b != [] {
        var d: nat :| AscendingStep(c, d, b);
        assert [b[0]] + b[1..] == b;
        assert [] + b[1..] == b[1..];
        AscendingParts(d, [], b[1..]);
      }
      assert c <= c && (forall id | id in IntroducedBy(a) :: id <= c) && Ascending(c, b);
    } else {
      var all := a + b;
      var d: nat :| AscendingStep(c, d, all);
      assert all[1..] == a[1..] + b;
      AscendingParts(d, a[1..], b);
      FreeInJoined(a[1..], b);
      var d2: nat :| d <= d2 && (forall id | id in IntroducedBy(a[1..]) :: id <= d2) && Ascending(d2, b);
      assert c <= d2 && (forall id | id in IntroducedBy(a) :: id <= d2) && Ascending(d2, b);
    }
  }

  // ---------- what a plan can rely on ----------

  // The symbols that the statements between the approval and the WRITE introduce, which no part of the
  // plan does.
  function Between(body: seq<Stmt>, a: nat, w: nat): set<SymbolId>
    requires a < w < |body|
  {
    IntroducedBy(body[a + 1..w])
  }

  // A symbol that the WRITE's arguments use is known before the approval, and one that the suffix uses
  // is known then or is the WRITE's own, exactly when it is not introduced between.
  lemma {:induction false} PlanScopes(body: seq<Stmt>, a: nat, w: nat, known: set<SymbolId>, c: nat)
    requires ControlledAt(body, a, w) && FreeIn(body) <= known && (forall id | id in known :: id <= c) && Ascending(c, body)
    ensures var before := known + IntroducedBy(body[..a]);
      && FreeIn(body[..a]) <= known
      && (forall id | id in FreeInArguments(body[w].value.arguments) :: id in before <==> id !in Between(body, a, w))
      && (forall id | id in FreeIn(body[w + 1..]) :: id in before + {body[w].target} <==> id !in Between(body, a, w))
      && (w == a + 1 ==> Between(body, a, w) == {})
  {
    hide FreeIn, IntroducedBy, Ascending, FreeInArguments;
    PartsUse(body, a, w);
    PartsIntroduce(body, a, w, c);
    PartsAsSets(known, IntroducedBy(body[..a]), IntroducedBy(body[a + 1..w]), {body[w].target}, FreeInArguments(body[w].value.arguments), FreeIn(body[w + 1..]));
  }

  lemma PartsUse(body: seq<Stmt>, a: nat, w: nat)
    requires ControlledAt(body, a, w)
    ensures FreeIn(body) == FreeIn(body[..a]) + ((FreeIn(body[a + 1..w])
      + ((FreeInArguments(body[w].value.arguments) + (FreeIn(body[w + 1..]) - {body[w].target})) - IntroducedBy(body[a + 1..w]))) - IntroducedBy(body[..a]))
  {
    var prefix, middle, suffix := body[..a], body[a + 1..w], body[w + 1..];
    var tail := middle + ([body[w]] + suffix);
    assert body == prefix + ([body[a]] + tail);
    FreeInJoined(prefix, [body[a]] + tail);
    FreeInJoined([body[a]], tail);
    FreeInJoined(middle, [body[w]] + suffix);
    FreeInJoined([body[w]], suffix);
    SingleStatement(body[a]);
    SingleStatement(body[w]);
    hide FreeIn, IntroducedBy, FreeInArguments;
  }

  lemma PartsIntroduce(body: seq<Stmt>, a: nat, w: nat, c: nat)
    requires ControlledAt(body, a, w) && Ascending(c, body)
    ensures var middle := IntroducedBy(body[a + 1..w]);
      && (forall id | id in middle :: id > c) && IntroducedBy(body[..a]) !! middle && body[w].target !in middle
      && (w == a + 1 ==> middle == {})
  {
    var prefix, middle, suffix := body[..a], body[a + 1..w], body[w + 1..];
    var tail := middle + ([body[w]] + suffix);
    assert body == prefix + ([body[a]] + tail);
    AscendingParts(c, prefix, [body[a]] + tail);
    var d: nat :| c <= d && (forall id | id in IntroducedBy(prefix) :: id <= d) && Ascending(d, [body[a]] + tail);
    AscendingParts(d, [body[a]], tail);
    var e: nat :| d <= e && (forall id | id in IntroducedBy([body[a]]) :: id <= e) && Ascending(e, tail);
    AscendingParts(e, middle, [body[w]] + suffix);
    FreeInJoined([body[a]], tail);
    FreeInJoined(middle, [body[w]] + suffix);
    FreeInJoined([body[w]], suffix);
    SingleStatement(body[w]);
    hide FreeIn, Ascending;
  }

  // The same about sets: what is used and not introduced between is known, and what is known is not
  // introduced between.
  lemma PartsAsSets(known: set<SymbolId>, prefix: set<SymbolId>, middle: set<SymbolId>, target: set<SymbolId>, arguments: set<SymbolId>, suffix: set<SymbolId>)
    requires ((arguments + (suffix - target)) - middle) - prefix <= known && known !! middle && prefix !! middle && target !! middle
    ensures forall id | id in arguments :: id in known + prefix || id in middle
    ensures forall id | id in known + prefix :: id !in middle
    ensures forall id | id in suffix :: id in known + prefix + target || id in middle
    ensures forall id | id in known + prefix + target :: id !in middle
  {
  }

  lemma SingleStatement(s: Stmt)
    ensures FreeIn([s]) == FreeStmt(s) && IntroducedBy([s]) == Introduced(s)
  {
    assert [s][1..] == [];
  }

  // In every run of an accepted controlled skill the prefix meets no unknown symbol. The WRITE's
  // arguments and the suffix, whatever was committed, meet none either if they use nothing introduced
  // between approval and WRITE; and if they do use such a symbol, outside loop bodies, the arguments are
  // never evaluated or the suffix never completes.
  lemma {:induction false} ControlledRunsKnowTheirSymbols(catalog: Catalog, ast: AstSkill, request: Request, refs: set<ToolRef>, port: Port, a: nat, w: nat)
    requires Compile(catalog, ast).Ok? && ControlledAt(Compile(catalog, ast).value.body, a, w)
    requires Start(Compile(catalog, ast).value, request).Ok?
    ensures var skill := Compile(catalog, ast).value;
      var env := EnvOf(skill, refs, port);
      var plan := Plan(skill.body[a], skill.body[w], skill.body[..a], skill.body[w + 1..]);
      var arguments := plan.write.value.arguments;
      var dropped := Between(skill.body, a, w);
      var r := ExecBlock(env, plan.prefix, Start(skill, request).value);
      && (w == a + 1 ==> dropped == {})
      && r.error != Some(UnknownSymbol)
      && (r.error.None? ==>
        && (FreeInArguments(arguments) !! dropped ==> forall v :: EvalArguments(env, r.s.b, arguments, v).res != Err(UnknownSymbol))
        && (FreeIn(plan.suffix) !! dropped ==> forall x :: SuffixRun(env, plan, x, r.s).error != Some(UnknownSymbol))
        && (!(FreeInArguments(arguments) !! dropped) ==> forall v :: EvalArguments(env, r.s.b, arguments, v).res.Err?)
        && (!(CertainIn(plan.suffix) !! dropped) ==> forall x :: SuffixRun(env, plan, x, r.s).error.Some?))
  {
    var skill := Compile(catalog, ast).value;
    var body := skill.body;
    var env := EnvOf(skill, refs, port);
    var s := Start(skill, request).value;
    var known := StartScope(PartsOf(catalog, ast)).Keys;
    var c := StartOfBody(catalog, ast, request);
    var plan := Plan(body[a], body[w], body[..a], body[w + 1..]);
    assert Framed(s.b);
    assert IsWrite(body[w]);
    hide *;
    PlanScopes(body, a, w, known, c);
    PlanRunKnows(env, plan, s, known);
  }

  // Where a compiled body starts: with the declared symbols, which are all it needs and numbered below
  // all it introduces.
  lemma StartOfBody(catalog: Catalog, ast: AstSkill, request: Request) returns (c: nat)
    requires Compile(catalog, ast).Ok? && Start(Compile(catalog, ast).value, request).Ok?
    ensures var known := StartScope(PartsOf(catalog, ast)).Keys; var body := Compile(catalog, ast).value.body;
      FreeIn(body) <= known && (forall id | id in known :: id <= c) && Ascending(c, body)
      && Binds(Start(Compile(catalog, ast).value, request).value.b, known)
  {
    CompiledFromParts(catalog, ast);
    var p := PartsOf(catalog, ast);
    var t := p.contexts.table;
    var g := StartScope(p);
    var body := Compile(catalog, ast).value.body;
    RunsStartAlike(catalog, ast, request, false);
    var b := Start(Compile(catalog, ast).value, request).value.b;
    c := t.symbolCounter;
    assert Unambiguous(t) && Describes(t, g) && ScopeHolds(g, b, false);
    hide Compile, PartsOf, Start, StartScope, SourceStart, LowerBlock, DeclareSpecs, ResolveTools;
    forall id: SymbolId | KnownId(t, id) ensures id in g && id <= t.symbolCounter {
      var i, name :| InFrame(t, i, name) && t.frames[i].names[name].id == id;
      assert DescribesBinding(t.frames[i].names[name], g);
    }
    LoweredBlockIsClosed(p.tools, ast.outputs, ast.body, LState(t, map[]));
    hide KnownId, FreeIn, IsBound;
  }

  // A run of a plan from exactly these symbols.
  lemma {:induction false} PlanRunKnows(env: Env, plan: Plan, s: State, known: set<SymbolId>)
    requires Framed(s.b) && Binds(s.b, known) && FreeIn(plan.prefix) <= known && plan.write.Let? && plan.write.value.Write?
    ensures var r := ExecBlock(env, plan.prefix, s);
      var before := known + IntroducedBy(plan.prefix);
      var arguments := plan.write.value.arguments;
      && r.error != Some(UnknownSymbol)
      && (r.error.None? ==>
        && (FreeInArguments(arguments) <= before ==> forall v :: EvalArguments(env, r.s.b, arguments, v).res != Err(UnknownSymbol))
        && (FreeIn(plan.suffix) <= before + {plan.write.target} ==> forall x :: SuffixRun(env, plan, x, r.s).error != Some(UnknownSymbol))
        && (!(FreeInArguments(arguments) <= before) ==> forall v :: EvalArguments(env, r.s.b, arguments, v).res.Err?)
        && (!(CertainIn(plan.suffix) <= before + {plan.write.target}) ==> forall x :: SuffixRun(env, plan, x, r.s).error.Some?))
  {
    hide ExecBlock, FreeIn, CertainIn, FreeInArguments, IntroducedBy, IsBound, EvalArguments, Bind;
    BlockKnows(env, plan.prefix, s);
    var r := ExecBlock(env, plan.prefix, s);
    if r.error.None? {
      forall v ensures var e := EvalArguments(env, r.s.b, plan.write.value.arguments, v).res;
        (e.Ok? ==> AllBound(r.s.b, FreeInArguments(plan.write.value.arguments)))
        && (AllBound(r.s.b, FreeInArguments(plan.write.value.arguments)) ==> e != Err(UnknownSymbol))
      {
        ArgumentsKnow(env, r.s.b, plan.write.value.arguments, v);
      }
      SuffixKnows(env, plan, r.s);
      hide SuffixRun;
    }
  }

  lemma SuffixKnows(env: Env, plan: Plan, s: State)
    requires Framed(s.b) && plan.write.Let?
    ensures (forall id | id in FreeIn(plan.suffix) :: id == plan.write.target || IsBound(s.b, id))
      ==> forall x :: SuffixRun(env, plan, x, s).error != Some(UnknownSymbol)
    ensures forall x | SuffixRun(env, plan, x, s).error.None? ::
      forall id | id in CertainIn(plan.suffix) :: id == plan.write.target || IsBound(s.b, id)
  {
    hide ExecBlock, FreeIn, CertainIn, IsBound, Bind;
    forall x
      ensures (forall id | id in FreeIn(plan.suffix) :: id == plan.write.target || IsBound(s.b, id))
        ==> SuffixRun(env, plan, x, s).error != Some(UnknownSymbol)
      ensures SuffixRun(env, plan, x, s).error.None?
        ==> forall id | id in CertainIn(plan.suffix) :: id == plan.write.target || IsBound(s.b, id)
    {
      if !IsBound(s.b, plan.write.target) {
        BindingKeeps(s.b, plan.write.target);
        assert Framed(Bind(s.b, plan.write.target, x));
        BlockKnows(env, plan.suffix, s.(b := Bind(s.b, plan.write.target, x)));
      }
    }
  }
}
