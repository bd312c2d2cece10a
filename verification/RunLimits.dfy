// When runs stop and how they report it: limits are met exactly, replies are accepted exactly, and
// statuses tell which kind of failure ended a run.

module RunLimits {
  import opened Wrappers
  import opened Core
  import opened Failures
  import opened Operators
  import opened Ir
  import opened Semantics
  import opened Effects
  import opened Execution
  import opened Ast
  import opened Compiler
  import opened CompiledSkills

  // ---------- counters ----------

  predicate Within(env: Env, w: Ledger) {
    && w.meter.toolCalls <= env.limits.toolCalls
    && w.meter.loopIterations <= env.limits.loopIterations
    && w.meter.emittedRows <= env.limits.emittedRows
  }

  // The counter a limit is about has reached it.
  predicate Reached(env: Env, w: Ledger, limit: Limit) {
    && (limit.ToolCalls? ==> w.meter.toolCalls == env.limits.toolCalls)
    && (limit.LoopIterations? ==> w.meter.loopIterations == env.limits.loopIterations)
    && (limit.EmittedRows? ==> w.meter.emittedRows == env.limits.emittedRows)
  }

  predicate Stopped(env: Env, w: Ledger, f: Failure) {
    f.LimitExceeded? ==> Reached(env, w, f.limit)
  }

  ghost predicate Counted<T>(env: Env, r: Eval<T>) {
    Within(env, r.w) && (r.res.Err? ==> Stopped(env, r.w, r.res.error))
  }

  lemma {:induction false} ExprIsCounted(env: Env, b: Bindings, e: Expr, w: Ledger)
    requires Within(env, w)
    ensures Counted(env, EvalExpr(env, b, e, w))
    decreases e, 2
  {
    if !e.Write? {
      NodeIsCounted(env, b, e, w);
      hide EvalNode;
    }
  }

  lemma {:induction false} NodeIsCounted(env: Env, b: Bindings, e: Expr, w: Ledger)
    requires !e.Write? && Within(env, w)
    ensures Counted(env, EvalNode(env, b, e, w))
    decreases e, 1
  {
    hide EvalExpr, ApplyBinary, EvaluateBuiltin, CallTool;
    match e
    case Literal(_, _, _) =>
    case SymbolRef(_, _, _) =>
    case Field(_, source, _, _) => ExprIsCounted(env, b, source, w);
    case Projection(_, source, _, _) => ExprIsCounted(env, b, source, w);
    case Call(_, _, operands, _) => OperandsAreCounted(env, b, operands, w);
    case Binary(_, _, left, right, _) =>
      ExprIsCounted(env, b, left, w);
      ExprIsCounted(env, b, right, EvalExpr(env, b, left, w).w);
    case Read(_, tool, arguments, _, policy) =>
      ArgumentsAreCounted(env, b, arguments, w);
      var r := EvalArguments(env, b, arguments, w);
      if tool in env.tools && r.res.Ok? {
        CallIsCounted(env, env.tools[tool], r.res.value, policy, r.w);
      }
  }

  lemma CallIsCounted(env: Env, contract: Contract, args: seq<NamedEnvelope>, policy: ResultPolicy, w: Ledger)
    requires Within(env, w)
    ensures Counted(env, CallTool(env, contract, args, policy, w))
  {
    hide ArgumentsConform;
  }

  lemma {:induction false} OperandsAreCounted(env: Env, b: Bindings, es: seq<Expr>, w: Ledger)
    requires Within(env, w)
    ensures Counted(env, EvalOperands(env, b, es, w))
    decreases es, 0
  {
    hide EvalExpr;
    if es != [] {
      ExprIsCounted(env, b, es[0], w);
      OperandsAreCounted(env, b, es[1..], EvalExpr(env, b, es[0], w).w);
    }
  }

  lemma {:induction false} ArgumentsAreCounted(env: Env, b: Bindings, args: seq<Argument>, w: Ledger)
    requires Within(env, w)
    ensures Counted(env, EvalArguments(env, b, args, w))
    decreases args, 0
  {
    hide EvalExpr;
    if args != [] {
      ExprIsCounted(env, b, args[0].value, w);
      ArgumentsAreCounted(env, b, args[1..], EvalExpr(env, b, args[0].value, w).w);
    }
  }

  lemma {:induction false} FieldsAreCounted(env: Env, b: Bindings, fields: seq<Argument>, w: Ledger)
    requires Within(env, w) && forall i | 0 <= i < |fields| :: fields[i].name in OutputNames(env.outputs)
    ensures Counted(env, EmitFields(env, b, fields, w)) && EmitFields(env, b, fields, w).w.meter.emittedRows == w.meter.emittedRows
    decreases |fields|
  {
    hide EvalExpr;
    if fields != [] {
      ExprIsCounted(env, b, fields[0].value, w);
      RowsAreUntouched(env, b, fields[0].value, w);
      FieldsAreCounted(env, b, fields[1..], EvalExpr(env, b, fields[0].value, w).w);
    }
  }

  lemma {:induction false} RowsAreUntouched(env: Env, b: Bindings, e: Expr, w: Ledger)
    ensures EvalExpr(env, b, e, w).w.meter.emittedRows == w.meter.emittedRows
    decreases e, 1
  {
    hide ApplyBinary, EvaluateBuiltin;
    match e
    case Literal(_, _, _) =>
    case SymbolRef(_, _, _) =>
    case Field(_, source, _, _) => RowsAreUntouched(env, b, source, w);
    case Projection(_, source, _, _) => RowsAreUntouched(env, b, source, w);
    case Call(_, _, operands, _) => OperandsTouchNoRows(env, b, operands, w);
    case Binary(_, _, left, right, _) =>
      RowsAreUntouched(env, b, left, w);
      RowsAreUntouched(env, b, right, EvalExpr(env, b, left, w).w);
    case Read(_, _, arguments, _, _) => ArgumentsTouchNoRows(env, b, arguments, w);
    case Write(_, _, _, _, _) =>
  }

  lemma {:induction false} OperandsTouchNoRows(env: Env, b: Bindings, es: seq<Expr>, w: Ledger)
    ensures EvalOperands(env, b, es, w).w.meter.emittedRows == w.meter.emittedRows
    decreases es, 0
  {
    hide EvalExpr;
    if es != [] {
      RowsAreUntouched(env, b, es[0], w);
      OperandsTouchNoRows(env, b, es[1..], EvalExpr(env, b, es[0], w).w);
    }
  }

  lemma {:induction false} ArgumentsTouchNoRows(env: Env, b: Bindings, args: seq<Argument>, w: Ledger)
    ensures EvalArguments(env, b, args, w).w.meter.emittedRows == w.meter.emittedRows
    decreases args, 0
  {
    hide EvalExpr;
    if args != [] {
      RowsAreUntouched(env, b, args[0].value, w);
      ArgumentsTouchNoRows(env, b, args[1..], EvalExpr(env, b, args[0].value, w).w);
    }
  }

  ghost predicate Kept(env: Env, r: Exec) {
    Within(env, r.s.w) && (r.error.Some? ==> Stopped(env, r.s.w, r.error.value))
  }

  // From counters within the limits no run exceeds them, and one that stops for a counter has used its
  // limit up.
  lemma {:induction false} BlockKeepsCounters(env: Env, stmts: seq<Stmt>, s: State)
    requires Framed(s.b) && Within(env, s.w)
    ensures Kept(env, ExecBlock(env, stmts, s))
    decreases stmts, 2, 0
  {
    hide ExecStmt;
    if stmts != [] {
      StmtKeepsCounters(env, stmts[0], s);
      var first := ExecStmt(env, stmts[0], s);
      if first.error.None? {
        BlockKeepsCounters(env, stmts[1..], first.s);
      }
    }
  }

  lemma {:induction false} StmtKeepsCounters(env: Env, stmt: Stmt, s: State)
    requires Framed(s.b) && Within(env, s.w)
    ensures Kept(env, ExecStmt(env, stmt, s))
    decreases stmt, 1, 0
  {
    hide EvalExpr, EmitFields, ExecLoop;
    match stmt
    case Let(_, _, value) => ExprIsCounted(env, s.b, value, s.w);
    case Check(_, _, condition, _, _, _, _) => ExprIsCounted(env, s.b, condition, s.w);
    case Emit(_, fields) =>
      if EmitSchemaOk(env.outputs, fields) {
        SchemaNamesKnown(env.outputs, fields);
        FieldsAreCounted(env, s.b, fields, s.w);
      }
    case Foreach(_, _, collection, _, _) =>
      ExprIsCounted(env, s.b, collection, s.w);
      var r := EvalExpr(env, s.b, collection, s.w);
      if r.res.Ok? && Elements(r.res.value.value).Some? {
        LoopKeepsCounters(env, stmt, r.res.value, Elements(r.res.value.value).value, State(s.b, r.w, s.depth + 1));
      }
    case Approval(_, _, _, _) =>
  }

  lemma {:induction false} LoopKeepsCounters(env: Env, stmt: Stmt, collection: Envelope, items: seq<Value>, s: State)
    requires stmt.Foreach? && Framed(s.b) && Within(env, s.w)
    ensures Kept(env, ExecLoop(env, stmt, collection, items, s))
    decreases stmt, 0, |items|
  {
    hide ExecBlock;
    if items != [] && s.w.meter.loopIterations < env.limits.loopIterations && !IsBound(Push(s.b), stmt.loopVariable) {
      LoopStep(env, stmt, collection, items, s);
      var entry := LoopEntry(stmt, collection, items, s);
      BlockKeepsCounters(env, stmt.body, entry);
      var body := ExecBlock(env, stmt.body, entry);
      if body.error.None? {
        LoopKeepsCounters(env, stmt, collection, items[1..], State(s.b, body.s.w, s.depth));
      }
    }
  }

  // ---------- replies ----------

  // The reply answers the request within the contract.
  predicate Answers(contract: Contract, request: ToolRequest, policy: ResultPolicy, reply: Reply) {
    && reply.Returned?
    && reply.result.invocation == request.invocation && reply.result.toolId == contract.toolId == request.toolId
    && reply.result.version == contract.version == request.version
    && reply.result.ty == contract.output && reply.result.cls == contract.outputClass && Conforms(reply.result.value, contract.output)
    && reply.result.digest == reply.result.value
    && (policy.required && !policy.emptyIsValid ==> reply.result.presence == PRESENT)
  }

  // A call happens below its limit and on fitting arguments; it succeeds exactly when the port's reply
  // answers it and a list is not too long; and then the value is the reply's, and its size is seen.
  lemma CallsAreExact(env: Env, contract: Contract, args: seq<NamedEnvelope>, policy: ResultPolicy, w: Ledger)
    ensures var request := ToolRequest(w.invocations + 1, contract.toolId, contract.version, args);
      var reply := env.port(w.trace, request);
      var called := w.meter.toolCalls < env.limits.toolCalls && ArgumentsConform(contract, args);
      var r := CallTool(env, contract, args, policy, w);
      && r.w.trace == w.trace + (if called then [ToolEvent(request, reply)] else [])
      && r.w.meter.toolCalls == w.meter.toolCalls + (if w.meter.toolCalls < env.limits.toolCalls then 1 else 0)
      && r.w.invocations == w.invocations + (if w.meter.toolCalls < env.limits.toolCalls then 1 else 0)
      && (r.res.Ok? <==> called && Answers(contract, request, policy, reply) && (reply.result.value.VList? ==> |reply.result.value.items| <= env.limits.collectionSize))
      && (r.res.Ok? ==>
        && r.res.value.value == reply.result.value && r.res.value.ty == contract.output && r.res.value.cls == contract.outputClass
        && r.res.value.presence == reply.result.presence && r.res.value.completeness == reply.result.completeness
        && r.res.value.prov == [Provenance(w.invocations + 1, reply.result.value)])
      && (called && Answers(contract, request, policy, reply) ==>
        && r.w.meter.maxCollectionSeen >= w.meter.maxCollectionSeen
        && (if reply.result.value.VList? then
              && r.w.meter.maxCollectionSeen >= |reply.result.value.items|
              && (r.w.meter.maxCollectionSeen == w.meter.maxCollectionSeen || r.w.meter.maxCollectionSeen == |reply.result.value.items|)
            else r.w.meter.maxCollectionSeen == w.meter.maxCollectionSeen))
  {
    hide ArgumentsConform, Conforms;
  }

  // Why a reply is refused: what the port raised, or the first check that fails.
  lemma RefusalsAreExact(contract: Contract, request: ToolRequest, policy: ResultPolicy, reply: Reply)
    ensures var r := ValidateReply(contract, request, policy, reply);
      && (r == Err(RawError) <==> reply.RaisedPlainError?)
      && (r == Err(PortCrashed) <==> reply.RaisedOther?)
      && (forall code :: r == Err(Tool(RaisedByTool(code))) <==> reply == RaisedToolError(code))
      && (r == Err(Tool(Malformed)) <==> reply.NotAnEnvelope?)
      && (reply.Returned? ==> (var t := reply.result;
        var mine := t.invocation == request.invocation && t.toolId == request.toolId && t.version == request.version;
        var fits := t.ty == contract.output && t.cls == contract.outputClass && Conforms(t.value, contract.output);
        var missing := policy.required && t.presence == EMPTY && !policy.emptyIsValid;
        && (r == Err(Tool(ResultIdentity)) <==> !mine)
        && (r == Err(Tool(OutputContract)) <==> mine && !fits)
        && (r == Err(Tool(ResultHash)) <==> mine && fits && t.digest != t.value)
        && (r == Err(Tool(RequiredResultMissing)) <==> mine && fits && t.digest == t.value && missing)
        && (r == Ok(t) <==> mine && fits && t.digest == t.value && !missing)))
  {
    hide Conforms;
  }

  // The arguments are the contract's, by name and type, inside lists and records too.
  lemma FittingArguments(contract: Contract, args: seq<NamedEnvelope>)
    ensures ArgumentsConform(contract, args) <==>
      forall i | 0 <= i < |args| ::
        && args[i].name in FieldNames(contract.inputs)
        && LookupField(contract.inputs, args[i].name) == Some(args[i].value.ty) && Conforms(args[i].value.value, args[i].value.ty)
  {
    hide Conforms;
  }

  // ---------- values ----------

  // No expression yields a list above the limit, and one is refused only for being above it.
  lemma ListsAreBounded(env: Env, b: Bindings, e: Expr, w: Ledger)
    requires !e.Write?
    ensures var r := EvalExpr(env, b, e, w).res; var n := EvalNode(env, b, e, w).res;
      && (r.Ok? && r.value.value.VList? ==> |r.value.value.items| <= env.limits.collectionSize)
      && (n.Ok? && n.value.ty == e.ty && (n.value.value.VList? ==> |n.value.value.items| <= env.limits.collectionSize) ==> r == n)
  {
    hide EvalNode;
  }

  // A literal or a declared value is EMPTY exactly when it is null, an empty list or an empty record.
  lemma PresenceIsExact(v: Value, ty: Type, cls: Classification, prov: seq<Provenance>)
    ensures var x := CompleteEnvelope(v, ty, cls, prov);
      && x.value == v && x.ty == ty && x.cls == cls && x.prov == prov && x.completeness == COMPLETE
      && (x.presence == EMPTY <==> v.VNull? || (v.VList? && |v.items| == 0) || (v.VRecord? && v.fields.Keys == {}))
      && (x.presence == PRESENT <==> x.presence != EMPTY)
  {
    if v.VRecord? && v.fields.Keys == {} {
      assert v.fields == map[];
    }
  }

  // ---------- emitting ----------

  predicate Gives(fields: seq<Argument>, name: string) {
    exists i :: 0 <= i < |fields| && fields[i].name == name
  }

  predicate Wants(outputs: seq<OutputField>, name: string) {
    exists i :: 0 <= i < |outputs| && outputs[i].name == name
  }

  // The outputs are distinct, and the fields are the outputs, each once.
  lemma EmitSchemaIsExact(outputs: seq<OutputField>, fields: seq<Argument>)
    ensures EmitSchemaOk(outputs, fields) <==>
      && (forall i, j | 0 <= i < j < |outputs| :: outputs[i].name != outputs[j].name)
      && (forall i, j | 0 <= i < j < |fields| :: fields[i].name != fields[j].name)
      && (forall name :: Gives(fields, name) <==> Wants(outputs, name))
  {
    DistinctNames(fields, outputs);
    var given := set n | n in ArgumentNames(fields);
    forall name ensures name in given <==> Gives(fields, name) {
      NameIsGiven(fields, name);
    }
    assert forall name :: name in OutputNames(outputs) <==> Wants(outputs, name);
    hide Distinct, ArgumentNames, OutputNameSeq, OutputNames, Gives, Wants;
    assert given == OutputNames(outputs) <==> forall name :: name in given <==> name in OutputNames(outputs);
  }

  lemma DistinctNames(fields: seq<Argument>, outputs: seq<OutputField>)
    ensures Distinct(ArgumentNames(fields)) <==> forall i, j | 0 <= i < j < |fields| :: fields[i].name != fields[j].name
    ensures Distinct(OutputNameSeq(outputs)) <==> forall i, j | 0 <= i < j < |outputs| :: outputs[i].name != outputs[j].name
  {
    var given, wanted := ArgumentNames(fields), OutputNameSeq(outputs);
    assert forall i | 0 <= i < |fields| :: fields[i].name == given[i];
    assert forall i | 0 <= i < |outputs| :: outputs[i].name == wanted[i];
  }

  lemma NameIsGiven(fields: seq<Argument>, name: string)
    ensures name in ArgumentNames(fields) <==> Gives(fields, name)
  {
    if i :| 0 <= i < |fields| && fields[i].name == name {
      assert ArgumentNames(fields)[i] == name;
    }
    if name in ArgumentNames(fields) {
      var i :| 0 <= i < |fields| && ArgumentNames(fields)[i] == name;
      assert fields[i].name == name;
    }
  }

  // The sixteenth loop inside another may still run, and no deeper one: it stops before its list is read.
  lemma NestingIsExact(env: Env, stmt: Stmt, s: State)
    requires stmt.Foreach? && Framed(s.b)
    ensures s.depth >= 16 ==> ExecForeach(env, stmt, s) == Exec(Some(LimitExceeded(ForeachNesting)), s)
    ensures s.depth < 16 ==> (var r := EvalExpr(env, s.b, stmt.collection, s.w); var x := ExecForeach(env, stmt, s);
      && (r.res.Err? ==> x == Exec(Some(r.res.error), s.(w := r.w)))
      && (r.res.Ok? && Elements(r.res.value.value) == Some([]) ==> x == Exec(None, s.(w := r.w))))
  {
    hide EvalExpr, Elements;
  }

  // ---------- how a run starts ----------

  // A declared value must be of its type, except inside lists and records, and not too long a list.
  predicate Admissible(limits: Limits, f: AstField, v: Value) {
    && (f.ty.TList? || f.ty.TRecord? || Conforms(v, f.ty))
    && (v.VList? ==> |v.items| <= limits.collectionSize)
  }

  // The envelope holds the value as it was given, tagged as declared.
  predicate Stands(x: Envelope, f: AstField, v: Value) {
    && x.value == v && x.ty == f.ty && x.cls == f.cls && x.completeness == COMPLETE && x.prov == []
    && (x.presence == EMPTY <==> v.VNull? || (v.VList? && v.items == []) || (v.VRecord? && v.fields == map[]))
  }

  lemma AdmittingIsExact(limits: Limits, f: AstField, v: Value, seen: nat)
    ensures var r := Admit(limits, f, v, seen);
      && (r.Ok? <==> Admissible(limits, f, v))
      && (r.Ok? ==> Stands(r.value.0, f, v) && r.value.1 >= seen && (v.VList? ==> r.value.1 >= |v.items|) && (r.value.1 == seen || (v.VList? && r.value.1 == |v.items|)))
      && (r == Err(InputTooLarge) <==> !Admissible(limits, f, v) && (f.ty.TList? || f.ty.TRecord? || Conforms(v, f.ty)))
  {
  }

  predicate InputGiven(limits: Limits, f: AstField, inputs: map<string, Value>) {
    f.name in inputs && Admissible(limits, f, inputs[f.name])
  }

  predicate ContextGiven(limits: Limits, f: AstField, context: Value) {
    ValueAt(context, f.path).Some? && Admissible(limits, f, ValueAt(context, f.path).value)
  }

  lemma {:induction false} InputsAreExact(limits: Limits, fields: seq<AstField>, inputs: map<string, Value>, seen: nat)
    ensures var r := AdmitInputs(limits, fields, inputs, seen);
      && (r.Ok? <==> forall i | 0 <= i < |fields| :: InputGiven(limits, fields[i], inputs))
      && (r.Ok? ==> forall i | 0 <= i < |fields| :: InputGiven(limits, fields[i], inputs) && Stands(r.value.values[i], fields[i], inputs[fields[i].name]))
    decreases |fields|
  {
    hide Admit, Stands, Admissible;
    if fields != [] && fields[0].name in inputs {
      AdmittingIsExact(limits, fields[0], inputs[fields[0].name], seen);
      var first := Admit(limits, fields[0], inputs[fields[0].name], seen);
      if first.Ok? {
        InputsAreExact(limits, fields[1..], inputs, first.value.1);
        assert forall i | 1 <= i < |fields| :: fields[i] == fields[1..][i - 1];
        assert forall i | 0 <= i < |fields[1..]| :: fields[1..][i] == fields[i + 1];
      }
    }
  }

  lemma {:induction false} ContextsAreExact(limits: Limits, fields: seq<AstField>, context: Value, seen: nat)
    ensures var r := AdmitContexts(limits, fields, context, seen);
      && (r.Ok? <==> forall i | 0 <= i < |fields| :: ContextGiven(limits, fields[i], context))
      && (r.Ok? ==> forall i | 0 <= i < |fields| :: ContextGiven(limits, fields[i], context) && Stands(r.value.values[i], fields[i], ValueAt(context, fields[i].path).value))
    decreases |fields|
  {
    hide Admit, Stands, Admissible, ValueAt;
    if fields != [] && ValueAt(context, fields[0].path).Some? {
      var v := ValueAt(context, fields[0].path).value;
      AdmittingIsExact(limits, fields[0], v, seen);
      var first := Admit(limits, fields[0], v, seen);
      if first.Ok? {
        ContextsAreExact(limits, fields[1..], context, first.value.1);
        assert forall i | 1 <= i < |fields| :: fields[i] == fields[1..][i - 1];
        assert forall i | 0 <= i < |fields[1..]| :: fields[1..][i] == fields[i + 1];
      }
    }
  }

  lemma {:induction false} AllAreBound(specs: seq<Spec>, values: seq<Envelope>, frame: SymbolFrame)
    requires |specs| == |values| && SymbolsDistinct(specs)
    ensures var bound := BindAll(specs, values, frame);
      && (forall i | 0 <= i < |specs| :: specs[i].symbol in bound && bound[specs[i].symbol] == values[i])
      && (forall id | id in frame && (forall i | 0 <= i < |specs| :: specs[i].symbol != id) :: id in bound && bound[id] == frame[id])
      && (forall id | id in bound :: id in frame || exists i :: 0 <= i < |specs| && specs[i].symbol == id)
    decreases |specs|
  {
    if specs != [] {
      var next := frame[specs[0].symbol := values[0]];
      assert forall i | 0 <= i < |specs[1..]| :: specs[1..][i] == specs[i + 1] && values[1..][i] == values[i + 1];
      AllAreBound(specs[1..], values[1..], next);
    }
  }

  // A run starts exactly when every declared input is given, every declared context value is found, each is
  // admissible, and no symbol is declared twice; and then every symbol resolves to its own value.
  lemma {:induction false} StartsAreExact(skill: Skill, request: Request)
    ensures var limits := skill.limits;
      Start(skill, request).Ok? <==>
        && (forall i | 0 <= i < |skill.inputs| :: InputGiven(limits, skill.inputs[i].field, request.inputs))
        && (forall i | 0 <= i < |skill.contexts| :: ContextGiven(limits, skill.contexts[i].field, request.context))
        && SymbolsDistinct(skill.inputs + skill.contexts)
    ensures Start(skill, request).Ok? ==> StartedOn(skill, request, Start(skill, request).value.b)
  {
    var limits := skill.limits;
    InputsAreExact(limits, Fields(skill.inputs), request.inputs, 0);
    assert forall i | 0 <= i < |skill.inputs| :: Fields(skill.inputs)[i] == skill.inputs[i].field;
    assert forall i | 0 <= i < |skill.contexts| :: Fields(skill.contexts)[i] == skill.contexts[i].field;
    var inputs := AdmitInputs(limits, Fields(skill.inputs), request.inputs, 0);
    if inputs.Ok? {
      ContextsAreExact(limits, Fields(skill.contexts), request.context, inputs.value.seen);
      var contexts := AdmitContexts(limits, Fields(skill.contexts), request.context, inputs.value.seen);
      if contexts.Ok? && SymbolsDistinct(skill.inputs + skill.contexts) {
        ValuesStandFor(skill, request, inputs.value.values, contexts.value.values);
      }
    }
    hide AdmitInputs, AdmitContexts, BindAll, InputGiven, ContextGiven, Stands, SymbolsDistinct, StartedOn;
  }

  ghost predicate StartedOn(skill: Skill, request: Request, b: Bindings) {
    && (forall i | 0 <= i < |skill.inputs| :: InputStands(b, skill.inputs[i], request.inputs))
    && (forall i | 0 <= i < |skill.contexts| :: ContextStands(b, skill.contexts[i], request.context))
  }

  predicate InputStands(b: Bindings, spec: Spec, inputs: map<string, Value>) {
    Resolve(b, spec.symbol).Some? && spec.field.name in inputs && Stands(Resolve(b, spec.symbol).value, spec.field, inputs[spec.field.name])
  }

  predicate ContextStands(b: Bindings, spec: Spec, context: Value) {
    && Resolve(b, spec.symbol).Some? && ValueAt(context, spec.field.path).Some?
    && Stands(Resolve(b, spec.symbol).value, spec.field, ValueAt(context, spec.field.path).value)
  }

  lemma SymbolsApart(skill: Skill, contexts: seq<Envelope>, i: nat)
    requires |contexts| == |skill.contexts| && SymbolsDistinct(skill.inputs + skill.contexts) && i < |skill.inputs|
    ensures skill.inputs[i].symbol !in BindAll(skill.contexts, contexts, map[])
    ensures SymbolsDistinct(skill.inputs) && SymbolsDistinct(skill.contexts)
  {
    SymbolsOfBoth(skill);
    AllAreBound(skill.contexts, contexts, map[]);
    var all, n := skill.inputs + skill.contexts, |skill.inputs|;
    assert forall j | 0 <= j < |skill.contexts| :: skill.contexts[j] == all[n + j] && all[i].symbol != all[n + j].symbol;
    hide BindAll;
  }

  lemma SymbolsOfBoth(skill: Skill)
    requires SymbolsDistinct(skill.inputs + skill.contexts)
    ensures SymbolsDistinct(skill.inputs) && SymbolsDistinct(skill.contexts)
  {
    var all, n := skill.inputs + skill.contexts, |skill.inputs|;
    assert forall i | 0 <= i < n :: skill.inputs[i] == all[i];
    assert forall i | 0 <= i < |skill.contexts| :: skill.contexts[i] == all[n + i];
  }

  lemma ValuesStandFor(skill: Skill, request: Request, inputs: seq<Envelope>, contexts: seq<Envelope>)
    requires |inputs| == |skill.inputs| && |contexts| == |skill.contexts| && SymbolsDistinct(skill.inputs + skill.contexts)
    requires forall i | 0 <= i < |inputs| ::
      skill.inputs[i].field.name in request.inputs && Stands(inputs[i], skill.inputs[i].field, request.inputs[skill.inputs[i].field.name])
    requires forall i | 0 <= i < |contexts| ::
      ValueAt(request.context, skill.contexts[i].field.path).Some? && Stands(contexts[i], skill.contexts[i].field, ValueAt(request.context, skill.contexts[i].field.path).value)
    ensures StartedOn(skill, request, Bindings(BindAll(skill.inputs, inputs, map[]), BindAll(skill.contexts, contexts, map[]), [map[]], [map[]]))
  {
    hide BindAll, Stands, ValueAt, SymbolsDistinct, Resolve;
    var b := Bindings(BindAll(skill.inputs, inputs, map[]), BindAll(skill.contexts, contexts, map[]), [map[]], [map[]]);
    SymbolsOfBoth(skill);
    AllAreBound(skill.inputs, inputs, map[]);
    AllAreBound(skill.contexts, contexts, map[]);
    forall i | 0 <= i < |skill.inputs| ensures InputStands(b, skill.inputs[i], request.inputs) {
      EmptyFramesResolve(b, skill.inputs[i].symbol);
      SymbolsApart(skill, contexts, i);
    }
    forall i | 0 <= i < |skill.contexts| ensures ContextStands(b, skill.contexts[i], request.context) {
      EmptyFramesResolve(b, skill.contexts[i].symbol);
    }
  }

  // ---------- what a run reports ----------

  // The status names the kind of failure, and an incomplete run never reports complete data.
  lemma {:induction false} RunsReportTheirEnd(skill: Skill, request: Request, refs: set<ToolRef>, port: Port)
    requires Execute(skill, request, refs, port).Ok?
    ensures var r := Execute(skill, request, refs, port).value; var view := View(r);
      && view.error == r.error
      && (view.status == COMPLETED <==> r.error.None?)
      && (view.status == LIMIT_EXCEEDED <==> r.error.Some? && r.error.value.LimitExceeded?)
      && (view.status == TOOL_ERROR <==> r.error.Some? && r.error.value.Tool?)
      && (view.status == FAILED <==> r.error.Some? && !r.error.value.LimitExceeded? && !r.error.value.Tool?)
      && view.completeness == (if r.error.None? then r.s.w.completeness else if r.s.w.checks == [] && r.s.w.outputs == [] then UNKNOWN else PARTIAL)
      && |view.checks| == |r.s.w.checks| && |view.outputs| == |r.s.w.outputs|
      && (forall i | 0 <= i < |view.checks| :: (var c := r.s.w.checks[i];
            view.checks[i] == CheckView(c.checkId, c.status, c.severity, c.message, c.presence, c.completeness)))
      && view.meter == r.s.w.meter
      && (forall i | 0 <= i < |view.outputs| ::
            view.outputs[i].Keys == r.s.w.outputs[i].Keys && forall name | name in view.outputs[i] :: view.outputs[i][name] == r.s.w.outputs[i][name].value)
      && Within(EnvOf(skill, refs, port), r.s.w)
      && (r.error.Some? ==> Stopped(EnvOf(skill, refs, port), r.s.w, r.error.value))
  {
    var env := EnvOf(skill, refs, port);
    StartsBelow(skill, request, env);
    BlockKeepsCounters(env, skill.body, Start(skill, request).value);
    hide ExecBlock, Start;
  }

  lemma StartsBelow(skill: Skill, request: Request, env: Env)
    requires Start(skill, request).Ok?
    ensures Framed(Start(skill, request).value.b) && Within(env, Start(skill, request).value.w)
  {
  }
}
