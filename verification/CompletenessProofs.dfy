// No false PASS: what a run reports about the completeness of its data is exactly what its tools
// reported, and a check passes only on complete data.

module CompletenessProofs {
  import opened Wrappers
  import opened Core
  import opened Failures
  import opened Operators
  import opened Ir
  import opened Semantics
  import opened Effects
  import opened Compiler
  import Ast
  import opened Execution
  import opened Verdicts

  function ReplyCompleteness(e: ToolEvent): Completeness {
    if e.reply.Returned? then e.reply.result.completeness else COMPLETE
  }

  // The join of everything the tools answered.
  function Reported(trace: seq<ToolEvent>): Completeness {
    if trace == [] then COMPLETE
    else Combine(Reported(trace[..|trace| - 1]), ReplyCompleteness(trace[|trace| - 1]))
  }

  lemma ReportedGrows(trace: seq<ToolEvent>, e: ToolEvent)
    ensures Reported(trace + [e]) == Combine(Reported(trace), ReplyCompleteness(e))
  {
    assert (trace + [e])[..|trace|] == trace;
  }

  // No binding is less complete than the run has already observed.
  ghost predicate BoundBelow(b: Bindings, c: Completeness) {
    forall id | IsBound(b, id) :: AtMost(Resolve(b, id).value.completeness, c)
  }

  // The run has observed exactly what its tools reported.
  ghost predicate Exact(w: Ledger) {
    w.completeness == Reported(w.trace)
  }

  ghost predicate AccountsFor<T>(w: Ledger, r: Eval<T>) {
    && AtMost(w.completeness, r.w.completeness)
    && (r.res.Ok? ==> Exact(r.w))
    && (r.res.Err? ==> AtMost(r.w.completeness, Reported(r.w.trace)))
  }

  // ---------- expressions ----------

  lemma {:induction false} EvalAccounts(env: Env, b: Bindings, e: Expr, w: Ledger)
    requires Exact(w) && BoundBelow(b, w.completeness)
    ensures var r := EvalExpr(env, b, e, w);
      AccountsFor(w, r) && (r.res.Ok? ==> AtMost(r.res.value.completeness, r.w.completeness))
    decreases e, 2
  {
    hide EvalNode, Reported, BoundBelow;
    if !e.Write? {
      NodeAccounts(env, b, e, w);
    }
  }

  // Before a node's own completeness is observed, observing it settles the account.
  lemma {:induction false} NodeAccounts(env: Env, b: Bindings, e: Expr, w: Ledger)
    requires !e.Write? && Exact(w) && BoundBelow(b, w.completeness)
    ensures var r := EvalNode(env, b, e, w);
      && AtMost(w.completeness, r.w.completeness)
      && (r.res.Ok? ==> Combine(r.w.completeness, r.res.value.completeness) == Reported(r.w.trace))
      && (r.res.Err? ==> AtMost(r.w.completeness, Reported(r.w.trace)))
    decreases e, 1
  {
    hide EvalExpr, Reported, CallTool, EvaluateBuiltin;
    match e
    case Literal(_, _, _) =>
    case SymbolRef(_, _, _) =>
    case Field(_, source, _, _) => EvalAccounts(env, b, source, w);
    case Projection(_, source, _, _) => EvalAccounts(env, b, source, w);
    case Call(_, f, operands, ty) =>
      OperandsAccount(env, b, operands, w);
      var r := EvalOperands(env, b, operands, w);
      if r.res.Ok? {
        OneOperand(f, r.res.value, ty);
      }
    case Binary(_, _, left, right, _) =>
      EvalAccounts(env, b, left, w);
      var l := EvalExpr(env, b, left, w);
      if l.res.Ok? {
        RaisedBound(b, w.completeness, l.w.completeness);
        EvalAccounts(env, b, right, l.w);
      }
    case Read(_, tool, arguments, _, policy) =>
      ArgumentsAccount(env, b, arguments, w);
      var r := EvalArguments(env, b, arguments, w);
      if tool in env.tools && r.res.Ok? {
        ToolCallAccounts(env, env.tools[tool], r.res.value, policy, r.w);
      }
  }

  lemma OneOperand(f: Builtin, xs: seq<Envelope>, ty: Type)
    ensures ApplyCall(f, xs, ty).Ok? ==> |xs| == 1 && ApplyCall(f, xs, ty).value.completeness == xs[0].completeness
  {
  }

  lemma RaisedBound(b: Bindings, low: Completeness, high: Completeness)
    requires BoundBelow(b, low) && AtMost(low, high)
    ensures BoundBelow(b, high)
  {
  }

  lemma ToolCallAccounts(env: Env, contract: Contract, args: seq<NamedEnvelope>, policy: ResultPolicy, w: Ledger)
    requires Exact(w)
    ensures var r := CallTool(env, contract, args, policy, w);
      && AtMost(w.completeness, r.w.completeness)
      && (r.res.Ok? ==> Combine(r.w.completeness, r.res.value.completeness) == Reported(r.w.trace))
      && (r.res.Err? ==> AtMost(r.w.completeness, Reported(r.w.trace)))
  {
    hide Reported;
    var request := ToolRequest(w.invocations + 1, contract.toolId, contract.version, args);
    ReportedGrows(w.trace, ToolEvent(request, env.port(w.trace, request)));
  }

  lemma {:induction false} OperandsAccount(env: Env, b: Bindings, es: seq<Expr>, w: Ledger)
    requires Exact(w) && BoundBelow(b, w.completeness)
    ensures var r := EvalOperands(env, b, es, w);
      AccountsFor(w, r) && (r.res.Ok? ==> forall i | 0 <= i < |es| :: AtMost(r.res.value[i].completeness, r.w.completeness))
    decreases es, 0
  {
    hide EvalExpr, Reported, BoundBelow;
    if es != [] {
      EvalAccounts(env, b, es[0], w);
      var first := EvalExpr(env, b, es[0], w);
      if first.res.Ok? {
        RaisedBound(b, w.completeness, first.w.completeness);
        OperandsAccount(env, b, es[1..], first.w);
      }
    }
  }

  lemma {:induction false} ArgumentsAccount(env: Env, b: Bindings, args: seq<Argument>, w: Ledger)
    requires Exact(w) && BoundBelow(b, w.completeness)
    ensures AccountsFor(w, EvalArguments(env, b, args, w))
    decreases args, 0
  {
    hide EvalExpr, Reported, BoundBelow;
    if args != [] {
      EvalAccounts(env, b, args[0].value, w);
      var first := EvalExpr(env, b, args[0].value, w);
      if first.res.Ok? {
        RaisedBound(b, w.completeness, first.w.completeness);
        ArgumentsAccount(env, b, args[1..], first.w);
      }
    }
  }

  lemma {:induction false} FieldsAccount(env: Env, b: Bindings, fields: seq<Argument>, w: Ledger)
    requires Exact(w) && BoundBelow(b, w.completeness)
    requires forall i | 0 <= i < |fields| :: fields[i].name in OutputNames(env.outputs)
    ensures AccountsFor(w, EmitFields(env, b, fields, w))
    decreases |fields|
  {
    hide EvalExpr, Reported, BoundBelow;
    if fields != [] {
      EvalAccounts(env, b, fields[0].value, w);
      var first := EvalExpr(env, b, fields[0].value, w);
      if first.res.Ok? {
        RaisedBound(b, w.completeness, first.w.completeness);
        FieldsAccount(env, b, fields[1..], first.w);
      }
    }
  }

  // ---------- the data flow of one expression ----------

  function JoinAll(tags: seq<Completeness>): Completeness {
    if tags == [] then COMPLETE else Combine(tags[0], JoinAll(tags[1..]))
  }

  lemma {:induction false} JoinOfBoth(a: seq<Completeness>, b: seq<Completeness>)
    ensures JoinAll(a + b) == Combine(JoinAll(a), JoinAll(b))
  {
    if a == [] {
      assert a + b == b;
    } else {
      assert (a + b)[1..] == a[1..] + b;
      JoinOfBoth(a[1..], b);
    }
  }

  // The completeness tags at the leaves data flows from: bound symbols and read results.  The
  // arguments of a read are no leaves; a literal contributes nothing.
  function Leaves(env: Env, b: Bindings, e: Expr, w: Ledger): seq<Completeness>
    decreases e
  {
    match e
    case Literal(_, _, _) => []
    case SymbolRef(_, symbol, _) => (match Resolve(b, symbol) case Some(x) => [x.completeness] case None => [])
    case Field(_, source, _, _) => Leaves(env, b, source, w)
    case Projection(_, source, _, _) => Leaves(env, b, source, w)
    case Call(_, _, operands, _) => if operands == [] then [] else Leaves(env, b, operands[0], w)
    case Binary(_, _, left, right, _) => Leaves(env, b, left, w) + Leaves(env, b, right, EvalExpr(env, b, left, w).w)
    case Read(_, _, _, _, _) =>
      var trace := EvalExpr(env, b, e, w).w.trace;
      if trace == [] then [] else [ReplyCompleteness(trace[|trace| - 1])]
    case Write(_, _, _, _, _) => []
  }

  // A value is as complete as the leaves it was computed from.
  lemma {:induction false} ValueIsAsCompleteAsItsLeaves(env: Env, b: Bindings, e: Expr, w: Ledger)
    requires EvalExpr(env, b, e, w).res.Ok?
    ensures EvalExpr(env, b, e, w).res.value.completeness == JoinAll(Leaves(env, b, e, w))
    decreases e
  {
    hide CallTool, EvaluateBuiltin;
    match e
    case Literal(_, _, _) =>
    case SymbolRef(_, _, _) =>
    case Field(_, source, _, _) => ValueIsAsCompleteAsItsLeaves(env, b, source, w);
    case Projection(_, source, _, _) => ValueIsAsCompleteAsItsLeaves(env, b, source, w);
    case Call(_, f, operands, ty) =>
      OneOperand(f, EvalOperands(env, b, operands, w).res.value, ty);
      ValueIsAsCompleteAsItsLeaves(env, b, operands[0], w);
    case Binary(_, _, left, right, _) =>
      var l := EvalExpr(env, b, left, w);
      ValueIsAsCompleteAsItsLeaves(env, b, left, w);
      ValueIsAsCompleteAsItsLeaves(env, b, right, l.w);
      JoinOfBoth(Leaves(env, b, left, w), Leaves(env, b, right, l.w));
    case Read(_, tool, arguments, _, policy) =>
      var r := EvalArguments(env, b, arguments, w);
      ReadLeaf(env, env.tools[tool], r.res.value, policy, r.w);
  }

  lemma ReadLeaf(env: Env, contract: Contract, args: seq<NamedEnvelope>, policy: ResultPolicy, w: Ledger)
    ensures var r := CallTool(env, contract, args, policy, w);
      r.res.Ok? ==> r.w.trace != [] && r.res.value.completeness == ReplyCompleteness(r.w.trace[|r.w.trace| - 1])
  {
  }

  // ---------- whole runs ----------

  // A check is decided exactly when its predicate is complete, and the run knows of its gaps.
  ghost predicate HonestCheck(c: CheckResult, observed: Completeness) {
    (c.status == UNDECIDED <==> c.completeness != COMPLETE) && AtMost(c.completeness, observed)
  }

  ghost predicate HonestChecks(w: Ledger) {
    forall i | 0 <= i < |w.checks| :: HonestCheck(w.checks[i], w.completeness)
  }

  ghost predicate Honest(s: State) {
    BoundBelow(s.b, s.w.completeness) && Exact(s.w) && HonestChecks(s.w)
  }

  ghost predicate HonestOutcome(s: State, r: Exec) {
    && AtMost(s.w.completeness, r.s.w.completeness)
    && HonestChecks(r.s.w)
    && (r.error.None? ==> Honest(r.s))
    && (r.error.Some? ==> AtMost(r.s.w.completeness, Reported(r.s.w.trace)))
  }

  lemma {:induction false} BindKeepsBelow(b: Bindings, c: Completeness, id: SymbolId, x: Envelope)
    requires Framed(b) && BoundBelow(b, c) && !IsBound(b, id) && AtMost(x.completeness, c)
    ensures BoundBelow(Bind(b, id, x), c) && BoundBelow(BindCheck(b, id, x), c)
  {
    forall other
      ensures Resolve(Bind(b, id, x), other) == if other == id then Some(x) else Resolve(b, other)
      ensures Resolve(BindCheck(b, id, x), other) == if other == id then Some(x) else Resolve(b, other)
    {
      BindResolves(b, id, x, other);
    }
  }

  lemma {:induction false} PushKeepsBelow(b: Bindings, c: Completeness)
    requires BoundBelow(b, c)
    ensures BoundBelow(Push(b), c)
  {
    forall id ensures Resolve(Push(b), id) == Resolve(b, id) {
      PushResolves(b, id);
    }
  }

  // Later observations never make an earlier check dishonest.
  lemma ChecksStayHonest(w: Ledger, v: Ledger)
    requires HonestChecks(w) && v.checks == w.checks && AtMost(w.completeness, v.completeness)
    ensures HonestChecks(v)
  {
  }

  lemma {:induction false} BlockIsHonest(env: Env, stmts: seq<Stmt>, s: State)
    requires Framed(s.b) && Honest(s)
    ensures HonestOutcome(s, ExecBlock(env, stmts, s))
    decreases stmts, 3, 0
  {
    hide ExecStmt, Honest;
    if stmts == [] {
      assert HonestChecks(s.w) by { UnfoldHonest(s); }
    } else {
      StmtIsHonest(env, stmts[0], s);
      var first := ExecStmt(env, stmts[0], s);
      if first.error.None? {
        BlockIsHonest(env, stmts[1..], first.s);
      }
    }
  }

  lemma UnfoldHonest(s: State)
    requires Honest(s)
    ensures HonestChecks(s.w)
  {
  }

  lemma {:induction false} StmtIsHonest(env: Env, stmt: Stmt, s: State)
    requires Framed(s.b) && Honest(s)
    ensures HonestOutcome(s, ExecStmt(env, stmt, s))
    decreases stmt, 2, 0
  {
    hide Reported;
    match stmt
    case Let(_, _, _) => LetIsHonest(env, stmt, s);
    case Check(_, _, _, _, _, _, _) => CheckIsHonest(env, stmt, s);
    case Emit(_, fields) =>
      if EmitSchemaOk(env.outputs, fields) {
        hide EmitFields;
        SchemaNamesKnown(env.outputs, fields);
        FieldsAccount(env, s.b, fields, s.w);
        EmitFieldsOnlyCalls(env, s.b, fields, s.w);
        var r := EmitFields(env, s.b, fields, s.w);
        RaisedBound(s.b, s.w.completeness, r.w.completeness);
        ChecksStayHonest(s.w, r.w);
      }
    case Foreach(_, _, _, _, _) => ForeachIsHonest(env, stmt, s);
    case Approval(_, _, _, _) =>
  }

  lemma {:induction false} LetIsHonest(env: Env, stmt: Stmt, s: State)
    requires stmt.Let? && Framed(s.b) && Honest(s)
    ensures HonestOutcome(s, ExecStmt(env, stmt, s))
  {
    EvalAccounts(env, s.b, stmt.value, s.w);
    EvalOnlyCalls(env, s.b, stmt.value, s.w);
    var r := EvalExpr(env, s.b, stmt.value, s.w);
    RaisedBound(s.b, s.w.completeness, r.w.completeness);
    ChecksStayHonest(s.w, r.w);
    hide EvalExpr, BoundBelow, Reported, HonestChecks;
    if r.res.Ok? && !IsBound(s.b, stmt.target) {
      BindKeepsBelow(s.b, r.w.completeness, stmt.target, r.res.value);
    }
  }

  lemma {:induction false} CheckIsHonest(env: Env, stmt: Stmt, s: State)
    requires stmt.Check? && Framed(s.b) && Honest(s)
    ensures HonestOutcome(s, ExecStmt(env, stmt, s))
  {
    EvalAccounts(env, s.b, stmt.condition, s.w);
    EvalOnlyCalls(env, s.b, stmt.condition, s.w);
    var r := EvalExpr(env, s.b, stmt.condition, s.w);
    RaisedBound(s.b, s.w.completeness, r.w.completeness);
    ChecksStayHonest(s.w, r.w);
    hide EvalExpr, BoundBelow, Reported;
    if r.res.Ok? {
      var c := JudgeCheck(stmt.checkId, stmt.severity, stmt.message, r.res.value);
      if c.Ok? && !IsBound(s.b, stmt.result) {
        BindKeepsBelow(s.b, r.w.completeness, stmt.result, CheckEnvelope(c.value));
      }
    }
  }

  lemma {:induction false} ForeachIsHonest(env: Env, stmt: Stmt, s: State)
    requires stmt.Foreach? && Framed(s.b) && Honest(s)
    ensures HonestOutcome(s, ExecForeach(env, stmt, s))
    decreases stmt, 1, 0
  {
    hide EvalExpr, Elements, ExecLoop, Reported, BoundBelow, HonestChecks;
    EvalAccounts(env, s.b, stmt.collection, s.w);
    EvalOnlyCalls(env, s.b, stmt.collection, s.w);
    var r := EvalExpr(env, s.b, stmt.collection, s.w);
    RaisedBound(s.b, s.w.completeness, r.w.completeness);
    ChecksStayHonest(s.w, r.w);
    if s.depth < MAX_FOREACH_NESTING_DEPTH && r.res.Ok? && Elements(r.res.value.value).Some? {
      var items := Elements(r.res.value.value).value;
      if |items| <= stmt.maxIterations {
        LoopIsHonest(env, stmt, r.res.value, items, State(s.b, r.w, s.depth + 1));
      }
    }
  }

  lemma {:induction false} LoopIsHonest(env: Env, stmt: Stmt, collection: Envelope, items: seq<Value>, s: State)
    requires stmt.Foreach? && Framed(s.b) && Honest(s) && AtMost(collection.completeness, s.w.completeness)
    ensures HonestOutcome(s, ExecLoop(env, stmt, collection, items, s))
    decreases stmt, 0, |items|
  {
    hide ExecBlock, Reported, BoundBelow, HonestChecks, IsBound;
    if items != [] && s.w.meter.loopIterations < env.limits.loopIterations {
      var w := s.w.(meter := s.w.meter.(loopIterations := s.w.meter.loopIterations + 1));
      ChecksStayHonest(s.w, w);
      PushKeepsBelow(s.b, s.w.completeness);
      if !IsBound(Push(s.b), stmt.loopVariable) {
        LoopStep(env, stmt, collection, items, s);
        var entry := LoopEntry(stmt, collection, items, s);
        BindKeepsBelow(Push(s.b), s.w.completeness, stmt.loopVariable, ItemEnvelope(collection, items[0]));
        BlockIsHonest(env, stmt.body, entry);
        var body := ExecBlock(env, stmt.body, entry);
        RaisedBound(s.b, s.w.completeness, body.s.w.completeness);
        if body.error.None? {
          LoopIsHonest(env, stmt, collection, items[1..], State(s.b, body.s.w, s.depth));
        }
      }
    }
  }

  // ---------- results ----------

  lemma {:induction false} AdmittedIsComplete(skill: Skill, request: Request)
    requires Start(skill, request).Ok?
    ensures Honest(Start(skill, request).value)
  {
    var s := Start(skill, request).value;
    var inputs := AdmitInputs(skill.limits, Fields(skill.inputs), request.inputs, 0).value;
    var contexts := AdmitContexts(skill.limits, Fields(skill.contexts), request.context, inputs.seen).value;
    InputsComplete(skill.limits, Fields(skill.inputs), request.inputs, 0);
    ContextsComplete(skill.limits, Fields(skill.contexts), request.context, inputs.seen);
    BindAllComplete(skill.inputs, inputs.values, map[]);
    BindAllComplete(skill.contexts, contexts.values, map[]);
    forall id | IsBound(s.b, id) ensures Resolve(s.b, id).value.completeness == COMPLETE {
      assert Innermost([map[]], id) == None;
    }
  }

  ghost predicate AllComplete(values: seq<Envelope>) {
    forall i | 0 <= i < |values| :: values[i].completeness == COMPLETE
  }

  lemma {:induction false} InputsComplete(limits: Limits, fields: seq<Ast.AstField>, inputs: map<string, Value>, seen: nat)
    ensures var r := AdmitInputs(limits, fields, inputs, seen); r.Ok? ==> AllComplete(r.value.values)
    decreases |fields|
  {
    if fields != [] && fields[0].name in inputs {
      var first := Admit(limits, fields[0], inputs[fields[0].name], seen);
      if first.Ok? {
        InputsComplete(limits, fields[1..], inputs, first.value.1);
      }
    }
  }

  lemma {:induction false} ContextsComplete(limits: Limits, fields: seq<Ast.AstField>, context: Value, seen: nat)
    ensures var r := AdmitContexts(limits, fields, context, seen); r.Ok? ==> AllComplete(r.value.values)
    decreases |fields|
  {
    if fields != [] && ValueAt(context, fields[0].path).Some? {
      var first := Admit(limits, fields[0], ValueAt(context, fields[0].path).value, seen);
      if first.Ok? {
        ContextsComplete(limits, fields[1..], context, first.value.1);
      }
    }
  }

  lemma {:induction false} BindAllComplete(specs: seq<Spec>, values: seq<Envelope>, frame: SymbolFrame)
    requires |specs| == |values| && AllComplete(values)
    requires forall id | id in frame :: frame[id].completeness == COMPLETE
    ensures forall id | id in BindAll(specs, values, frame) :: BindAll(specs, values, frame)[id].completeness == COMPLETE
    decreases |specs|
  {
    if specs != [] {
      assert values[0].completeness == COMPLETE;
      BindAllComplete(specs[1..], values[1..], frame[specs[0].symbol := values[0]]);
    }
  }

  // A completed run reports exactly the join of what its tools reported. In any run every recorded check
  // was made by a CHECK of the skill on what its condition evaluated to: PASS on complete truth, FAIL on
  // complete falsehood, UNKNOWN exactly on incomplete data. And a run that reports COMPLETE data has
  // decided every check it made.
  lemma {:induction false} NoFalsePass(skill: Skill, request: Request, refs: set<ToolRef>, port: Port)
    requires Execute(skill, request, refs, port).Ok?
    ensures var r := Execute(skill, request, refs, port).value; var w := r.s.w;
      && (r.error.None? ==> ResultCompleteness(r) == Reported(w.trace))
      && (forall i | 0 <= i < |w.checks| :: w.checks[i].status == UNDECIDED <==> w.checks[i].completeness != COMPLETE)
      && AllJustified(EnvOf(skill, refs, port), ChecksIn(skill.body), w)
      && (ResultCompleteness(r) == COMPLETE ==> r.error.None? && forall i | 0 <= i < |w.checks| :: w.checks[i].status != UNDECIDED)
  {
    AdmittedIsComplete(skill, request);
    var s := Start(skill, request).value;
    BlockIsHonest(EnvOf(skill, refs, port), skill.body, s);
    BlockJustifies(EnvOf(skill, refs, port), skill.body, s, ChecksIn(skill.body));
    hide AllJustified, ChecksIn, ExecBlock, Reported, Start, BoundBelow;
    var r := Execute(skill, request, refs, port).value;
    forall i | 0 <= i < |r.s.w.checks| ensures HonestCheck(r.s.w.checks[i], r.s.w.completeness) {
    }
  }
}
