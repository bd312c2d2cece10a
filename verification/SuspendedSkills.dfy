// When a run of an accepted skill can be suspended and resumed: its values conform to types the
// compiler knows, so that nothing but a decimal without a finite text can stand in the way.

module SuspendedSkills {
  import opened Wrappers
  import opened Core
  import opened Failures
  import opened Operators
  import opened Ir
  import opened Semantics
  import opened Effects
  import opened Symbols
  import opened Ast
  import opened Compiler
  import opened Execution
  import opened Typing
  import opened CompiledSkills
  import opened ControlledExecution
  import opened ControlledTyping
  import opened Runtime
  import opened Json
  import opened Checkpoint
  import opened Suspension

  // ---------- types without the type tag ----------

  // No literal of the expression has a type with a field named like the type tag.
  predicate TagFreeLiterals(e: Expr)
    decreases e
  {
    match e
    case Literal(_, _, ty) => TagFree(ty)
    case SymbolRef(_, _, _) => true
    case Field(_, source, _, _) => TagFreeLiterals(source)
    case Projection(_, source, _, _) => TagFreeLiterals(source)
    case Call(_, _, operands, _) => forall i | 0 <= i < |operands| :: TagFreeLiterals(operands[i])
    case Binary(_, _, left, right, _) => TagFreeLiterals(left) && TagFreeLiterals(right)
    case Read(_, _, _, _, _) => true
    case Write(_, _, _, _, _) => true
  }

  predicate TagFreeScope(g: Typing.Scope) {
    forall id | id in g :: TagFree(g[id].ty)
  }

  // What tools return and what rows hold is free of the tag.
  predicate TagFreeSignature(sig: Signature) {
    && (forall tool | tool in sig.tools :: TagFree(sig.tools[tool].output))
    && (forall i | 0 <= i < |sig.outputs| :: TagFree(sig.outputs[i].ty))
  }

  lemma {:induction false} ExprTypeIsTagFree(sig: Signature, g: Typing.Scope, e: Expr)
    requires WellTyped(sig, g, e) && TagFreeScope(g) && TagFreeSignature(sig) && TagFreeLiterals(e)
    ensures TagFree(e.ty)
    decreases e
  {
    match e
    case Literal(_, _, _) =>
    case SymbolRef(_, _, _) =>
    case Field(_, source, field, _) =>
      ExprTypeIsTagFree(sig, g, source);
    case Projection(_, source, field, _) =>
      ExprTypeIsTagFree(sig, g, source);
    case Call(_, _, operands, _) =>
      ExprTypeIsTagFree(sig, g, operands[0]);
      assert TypesOf(operands)[0] == operands[0].ty;
    case Binary(_, _, _, _, _) =>
    case Read(_, _, _, _, _) =>
  }

  // All names the statements bind have types free of the tag, if those they start from have.
  lemma {:induction false} ScopeStaysTagFree(sig: Signature, g: Typing.Scope, stmts: seq<Stmt>)
    requires WellTypedBlock(sig, g, stmts) && TagFreeScope(g) && TagFreeSignature(sig)
    requires forall i | 0 <= i < |stmts| && stmts[i].Let? :: TagFreeLiterals(stmts[i].value)
    ensures TagFreeScope(ScopeAfterBlock(sig, g, stmts))
    decreases |stmts|
  {
    if stmts != [] {
      if stmts[0].Let? {
        ExprTypeIsTagFree(sig, g, stmts[0].value);
      }
      assert TagFree(CHECK_RESULT) by {
        assert CHECK_RESULT.fields[0] == FieldType("status", CHECK_STATUS);
        assert FieldNames(CHECK_RESULT.fields) == {"status"};
      }
      assert forall i | 0 <= i < |stmts[1..]| :: stmts[1..][i] == stmts[i + 1];
      hide WellTyped, WellTypedFields, TagFreeLiterals, TagFree, TagFreeSignature;
      ScopeStaysTagFree(sig, ScopeAfter(sig, g, stmts[0]), stmts[1..]);
    }
  }

  // ---------- every binding is the one its symbol resolves to ----------

  // At the top level of a body: one frame of each sort, and no symbol bound in two places.
  predicate Flat(b: Bindings) {
    && |b.frames| == 1 && |b.checkFrames| == 1
    && b.inputs.Keys !! b.contexts.Keys !! b.frames[0].Keys !! b.checkFrames[0].Keys
  }

  lemma FlatBindingsResolve(b: Bindings, id: SymbolId)
    requires Flat(b)
    ensures IsBound(b, id) <==> id in b.inputs || id in b.contexts || id in b.frames[0] || id in b.checkFrames[0]
    ensures id in b.inputs ==> Resolve(b, id) == Some(b.inputs[id])
    ensures id in b.contexts ==> Resolve(b, id) == Some(b.contexts[id])
    ensures id in b.frames[0] ==> Resolve(b, id) == Some(b.frames[0][id])
    ensures id in b.checkFrames[0] ==> Resolve(b, id) == Some(b.checkFrames[0][id])
  {
    assert b.frames[..0] == [] && b.checkFrames[..0] == [];
    assert Innermost(b.frames, id) == if id in b.frames[0] then Some(b.frames[0][id]) else None;
    assert Innermost(b.checkFrames, id) == if id in b.checkFrames[0] then Some(b.checkFrames[0][id]) else None;
  }

  lemma {:induction false} BindingsStayFlat(env: Env, stmts: seq<Stmt>, s: State)
    requires Flat(s.b)
    ensures Flat(ExecBlock(env, stmts, s).s.b)
    decreases |stmts|
  {
    hide EvalExpr, Flat;
    if stmts != [] {
      StmtKeepsFlat(env, stmts[0], s);
      var first := ExecStmt(env, stmts[0], s);
      if first.error.None? {
        BindingsStayFlat(env, stmts[1..], first.s);
      }
    }
  }

  lemma StmtKeepsFlat(env: Env, stmt: Stmt, s: State)
    requires Flat(s.b)
    ensures Framed(s.b) && Flat(ExecStmt(env, stmt, s).s.b)
  {
    hide EvalExpr, EmitFields, ExecLoop;
    forall id { FlatBindingsResolve(s.b, id); }
    hide IsBound;
  }

  lemma {:induction false} BoundKeys(specs: seq<Spec>, values: seq<Envelope>, frame: Semantics.Frame, id: SymbolId)
    requires |specs| == |values|
    ensures id in BindAll(specs, values, frame) <==> id in frame || exists i :: 0 <= i < |specs| && specs[i].symbol == id
    decreases |specs|
  {
    if specs != [] {
      BoundKeys(specs[1..], values[1..], frame[specs[0].symbol := values[0]], id);
      if i :| 0 <= i < |specs[1..]| && specs[1..][i].symbol == id {
        assert specs[i + 1].symbol == id;
      }
      if i :| 0 <= i < |specs| && specs[i].symbol == id {
        assert i > 0 ==> specs[1..][i - 1].symbol == id;
      }
    }
  }

  lemma SymbolsApart(a: seq<Spec>, b: seq<Spec>)
    requires SymbolsDistinct(a + b)
    ensures forall i, j | 0 <= i < |a| && 0 <= j < |b| :: a[i].symbol != b[j].symbol
  {
    forall i, j | 0 <= i < |a| && 0 <= j < |b| ensures a[i].symbol != b[j].symbol {
      assert (a + b)[i] == a[i] && (a + b)[|a| + j] == b[j];
    }
  }

  lemma RunsStartFlat(skill: Skill, request: Request)
    requires Start(skill, request).Ok?
    ensures Flat(Start(skill, request).value.b)
  {
    var inputs := AdmitInputs(skill.limits, Fields(skill.inputs), request.inputs, 0).value;
    var contexts := AdmitContexts(skill.limits, Fields(skill.contexts), request.context, inputs.seen).value;
    var b := Start(skill, request).value.b;
    SymbolsApart(skill.inputs, skill.contexts);
    forall id ensures !(id in b.inputs && id in b.contexts) {
      BoundKeys(skill.inputs, inputs.values, map[], id);
      BoundKeys(skill.contexts, contexts.values, map[], id);
    }
  }

  // ---------- names that are not blank ----------

  // Every CHECK of the statement has an id and a severity.
  predicate ChecksNamed(stmt: Stmt)
    decreases stmt
  {
    match stmt
    case Check(_, checkId, _, severity, _, _, _) => !Blank(checkId) && !Blank(severity)
    case Foreach(_, _, _, _, body) => forall i | 0 <= i < |body| :: ChecksNamed(body[i])
    case _ => true
  }

  predicate AllNamed(checks: seq<CheckResult>) {
    forall i | 0 <= i < |checks| :: CheckNamed(checks[i])
  }

  lemma {:induction false} RecordedAreNamed(env: Env, stmts: seq<Stmt>, s: State)
    requires Framed(s.b) && (forall i | 0 <= i < |stmts| :: ChecksNamed(stmts[i])) && AllNamed(s.w.checks)
    ensures AllNamed(ExecBlock(env, stmts, s).s.w.checks)
    decreases stmts, 2, 0
  {
    hide ExecStmt, ChecksNamed, AllNamed;
    if stmts != [] {
      StmtRecordsNamed(env, stmts[0], s);
      var first := ExecStmt(env, stmts[0], s);
      if first.error.None? {
        RecordedAreNamed(env, stmts[1..], first.s);
      }
    }
  }

  lemma {:induction false} StmtRecordsNamed(env: Env, stmt: Stmt, s: State)
    requires Framed(s.b) && ChecksNamed(stmt) && AllNamed(s.w.checks)
    ensures AllNamed(ExecStmt(env, stmt, s).s.w.checks)
    decreases stmt, 1, 0
  {
    hide EvalExpr, EmitFields, ExecLoop, Blank;
    match stmt
    case Let(_, _, value) => EvalOnlyCalls(env, s.b, value, s.w);
    case Check(_, _, condition, _, _, _, _) => EvalOnlyCalls(env, s.b, condition, s.w);
    case Emit(_, fields) =>
      if EmitSchemaOk(env.outputs, fields) {
        SchemaNamesKnown(env.outputs, fields);
        EmitFieldsOnlyCalls(env, s.b, fields, s.w);
      }
    case Foreach(_, _, collection, _, _) =>
      EvalOnlyCalls(env, s.b, collection, s.w);
      var r := EvalExpr(env, s.b, collection, s.w);
      if r.res.Ok? && Elements(r.res.value.value).Some? {
        LoopRecordsNamed(env, stmt, r.res.value, Elements(r.res.value.value).value, State(s.b, r.w, s.depth + 1));
      }
    case Approval(_, _, _, _) =>
  }

  lemma {:induction false} LoopRecordsNamed(env: Env, stmt: Stmt, collection: Envelope, items: seq<Value>, s: State)
    requires stmt.Foreach? && Framed(s.b) && ChecksNamed(stmt) && AllNamed(s.w.checks)
    ensures AllNamed(ExecLoop(env, stmt, collection, items, s).s.w.checks)
    decreases stmt, 0, |items|
  {
    hide ExecBlock, AllNamed;
    if items != [] && s.w.meter.loopIterations < env.limits.loopIterations && !IsBound(Push(s.b), stmt.loopVariable) {
      LoopStep(env, stmt, collection, items, s);
      var entry := LoopEntry(stmt, collection, items, s);
      RecordedAreNamed(env, stmt.body, entry);
      var body := ExecBlock(env, stmt.body, entry);
      if body.error.None? {
        LoopRecordsNamed(env, stmt, collection, items[1..], State(s.b, body.s.w, s.depth));
      }
    }
  }

  // ---------- states that can be restored ----------

  ghost predicate FiniteFrame(f: Semantics.Frame) {
    forall id | id in f :: FiniteDecimals(f[id].value)
  }

  ghost predicate FiniteRow(row: Row) {
    forall n | n in row :: FiniteDecimals(row[n].value)
  }

  // All decimals that are bound or were emitted have finite texts.
  ghost predicate FiniteState(s: State) {
    && FiniteFrame(s.b.inputs) && FiniteFrame(s.b.contexts)
    && (forall i | 0 <= i < |s.b.frames| :: FiniteFrame(s.b.frames[i]))
    && (forall i | 0 <= i < |s.b.checkFrames| :: FiniteFrame(s.b.checkFrames[i]))
    && (forall i | 0 <= i < |s.w.outputs| :: FiniteRow(s.w.outputs[i]))
  }

  // The frame's values are what their symbols resolve to.
  ghost predicate Resolved(b: Bindings, f: Semantics.Frame) {
    forall id | id in f :: Resolve(b, id) == Some(f[id])
  }

  lemma FrameOfTypes(g: Typing.Scope, b: Bindings, f: Semantics.Frame)
    requires TagFreeScope(g) && ScopeHolds(g, b, true) && Resolved(b, f)
    ensures FrameEncodable(f) <==> FiniteFrame(f)
  {
    forall id | id in f ensures Encodable(f[id].value) <==> FiniteDecimals(f[id].value) {
      assert Resolve(b, id) == Some(f[id]) && IsBound(b, id) && id in g;
      ConformingValuesAreEncodable(f[id].value, g[id].ty);
    }
    hide Encodable, FiniteDecimals;
  }

  lemma RowOfTypes(outputs: seq<OutputField>, row: Row)
    requires RowFits(outputs, row, true) && forall i | 0 <= i < |outputs| :: TagFree(outputs[i].ty) && !Blank(outputs[i].name)
    ensures RowEncodable(row) <==> FiniteRow(row)
  {
    forall n | n in row ensures !Blank(n) && (Encodable(row[n].value) <==> FiniteDecimals(row[n].value)) {
      assert n in OutputNames(outputs);
      var i :| 0 <= i < |outputs| && outputs[i].name == n;
      ConformingValuesAreEncodable(row[n].value, outputs[i].ty);
    }
    hide Encodable, FiniteDecimals, Blank;
  }

  // A state whose values have types free of the tag is restorable exactly when its decimals are finite
  // and what belongs to the checkpoint itself is in order.
  lemma TypedStateIsRestorable(g: Typing.Scope, outputs: seq<OutputField>, s: State, controls: Controls)
    requires TagFreeScope(g) && ScopeHolds(g, s.b, true) && Flat(s.b) && RowsFit(outputs, s.w.outputs, true) && AllNamed(s.w.checks)
    requires forall i | 0 <= i < |outputs| :: TagFree(outputs[i].ty) && !Blank(outputs[i].name)
    ensures Restorable(SnapshotOf(s, controls)) <==> FiniteState(s) && ControlsGiven(controls, controls.checkpoint.version + 1)
  {
    forall id { FlatBindingsResolve(s.b, id); }
    hide ControlsGiven, FrameEncodable, FiniteFrame, RowEncodable, FiniteRow, TagFreeScope, ScopeHolds, RowFits, CheckNamed, TagFree, Blank;
    assert Resolved(s.b, s.b.inputs) && Resolved(s.b, s.b.contexts) && Resolved(s.b, s.b.frames[0]) && Resolved(s.b, s.b.checkFrames[0]);
    hide Resolved, Resolve, IsBound;
    FrameOfTypes(g, s.b, s.b.inputs);
    FrameOfTypes(g, s.b, s.b.contexts);
    FrameOfTypes(g, s.b, s.b.frames[0]);
    FrameOfTypes(g, s.b, s.b.checkFrames[0]);
    forall i | 0 <= i < |s.w.outputs| ensures RowEncodable(s.w.outputs[i]) <==> FiniteRow(s.w.outputs[i]) {
      RowOfTypes(outputs, s.w.outputs[i]);
    }
  }

  // Declared types, tool results and literals are free of the tag, and names are not blank.
  ghost predicate Plainly(catalog: Catalog, ast: AstSkill)
    requires Compile(catalog, ast).Ok?
  {
    var skill := Compile(catalog, ast).value;
    && (forall i | 0 <= i < |ast.inputs| :: TagFree(ast.inputs[i].ty))
    && (forall i | 0 <= i < |ast.contexts| :: TagFree(ast.contexts[i].ty))
    && TagFreeSignature(Signature(skill.tools, skill.outputs))
    && (forall i | 0 <= i < |skill.outputs| :: !Blank(skill.outputs[i].name))
    && (forall i | 0 <= i < |skill.body| && skill.body[i].Let? :: TagFreeLiterals(skill.body[i].value))
    && (forall i | 0 <= i < |skill.body| :: ChecksNamed(skill.body[i]))
  }

  // In every run of an accepted skill on a conforming request, the state between any two top-level
  // statements before an approval or WRITE is restorable exactly when its decimals have finite texts.
  lemma {:induction false} RunsAreSuspendable(catalog: Catalog, ast: AstSkill, request: Request, refs: set<ToolRef>, port: Port, n: nat, controls: Controls)
    requires Compile(catalog, ast).Ok? && ControlledForm(ast.body) && Plainly(catalog, ast)
    requires InputsConform(ast.inputs, request.inputs) && ContextConforms(ast.contexts, request.context)
    requires Start(Compile(catalog, ast).value, request).Ok?
    requires n <= |Compile(catalog, ast).value.body|
    requires forall i | 0 <= i < n :: !IsApproval(Compile(catalog, ast).value.body[i]) && !IsWrite(Compile(catalog, ast).value.body[i])
    ensures var skill := Compile(catalog, ast).value;
      var r := ExecBlock(EnvOf(skill, refs, port), skill.body[..n], Start(skill, request).value);
      r.error.None? ==>
        (Restorable(SnapshotOf(r.s, controls)) <==> FiniteState(r.s) && ControlsGiven(controls, controls.checkpoint.version + 1))
  {
    hide Compile, PartsOf, Start, StartScope, ControlledForm, WellTypedBody, ScopeHolds, RowsFit, ExecBlock, TagFree, TagFreeLiterals, ChecksNamed,
      Blank, Flat, AllNamed, Restorable, FiniteState, ControlsGiven, InputsConform, ContextConforms;
    var skill := Compile(catalog, ast).value;
    StartOfTypedBody(catalog, ast, request, refs, port, true);
    TagFreeStart(catalog, ast);
    RunsStartFlat(skill, request);
    StartsWithoutChecks(skill, request);
    TypedRunIsSuspendable(EnvOf(skill, refs, port), StartScope(PartsOf(catalog, ast)), skill.body, Start(skill, request).value, n, controls);
  }

  lemma {:induction false} TypedRunIsSuspendable(env: Env, g: Typing.Scope, body: seq<Stmt>, s: State, n: nat, controls: Controls)
    requires Framed(s.b) && WellTypedBody(SignatureOf(env), g, body) && ScopeHolds(g, s.b, true) && RowsFit(env.outputs, s.w.outputs, true)
    requires Flat(s.b) && AllNamed(s.w.checks) && TagFreeScope(g) && TagFreeSignature(SignatureOf(env))
    requires forall i | 0 <= i < |env.outputs| :: !Blank(env.outputs[i].name)
    requires (forall i | 0 <= i < |body| && body[i].Let? :: TagFreeLiterals(body[i].value)) && forall i | 0 <= i < |body| :: ChecksNamed(body[i])
    requires n <= |body| && forall i | 0 <= i < n :: !IsApproval(body[i]) && !IsWrite(body[i])
    ensures var r := ExecBlock(env, body[..n], s);
      r.error.None? ==>
        (Restorable(SnapshotOf(r.s, controls)) <==> FiniteState(r.s) && ControlsGiven(controls, controls.checkpoint.version + 1))
  {
    var sig := SignatureOf(env);
    var first := body[..n];
    assert body == first + body[n..];
    assert forall i | 0 <= i < |env.outputs| :: TagFree(env.outputs[i].ty);
    hide *;
    BodySplits(sig, g, first, body[n..]);
    PlainPart(sig, g, first);
    WellTypedRunIsSafe(env, g, first, s, true);
    ScopeStaysTagFree(sig, g, first);
    BindingsStayFlat(env, first, s);
    RecordedAreNamed(env, first, s);
    var r := ExecBlock(env, first, s);
    if r.error.None? {
      TypedStateIsRestorable(ScopeAfterBlock(sig, g, first), env.outputs, r.s, controls);
    }
  }

  // So a checkpoint taken there restores what was captured exactly in that case.
  lemma SuspendedSkillsResume(t: Texts, identity: Identity, security: Json, catalog: Catalog, ast: AstSkill, request: Request, refs: set<ToolRef>, port: Port, n: nat, controls: Controls)
    requires Readable(t) && identity.operationId.Some? && controls.journal == []
    requires Compile(catalog, ast).Ok? && ControlledForm(ast.body) && Plainly(catalog, ast)
    requires InputsConform(ast.inputs, request.inputs) && ContextConforms(ast.contexts, request.context)
    requires Start(Compile(catalog, ast).value, request).Ok?
    requires n <= |Compile(catalog, ast).value.body|
    requires forall i | 0 <= i < n :: !IsApproval(Compile(catalog, ast).value.body[i]) && !IsWrite(Compile(catalog, ast).value.body[i])
    ensures var skill := Compile(catalog, ast).value;
      var r := ExecBlock(EnvOf(skill, refs, port), skill.body[..n], Start(skill, request).value);
      var snapshot := SnapshotOf(r.s, controls);
      r.error.None? ==>
        && Capture(t, identity, security, snapshot).Ok?
        && (Restore(t, Capture(t, identity, security, snapshot).value, identity, security) == Ok(Bumped(snapshot))
            <==> FiniteState(r.s) && ControlsGiven(controls, controls.checkpoint.version + 1))
  {
    var skill := Compile(catalog, ast).value;
    var r := ExecBlock(EnvOf(skill, refs, port), skill.body[..n], Start(skill, request).value);
    RunsAreSuspendable(catalog, ast, request, refs, port, n, controls);
    assert Framed(r.s.b);
    hide ExecBlock, Capture, Restore, Restorable, Readable, FiniteState, ControlsGiven, Compile, Start, Plainly, ControlledForm, Framed;
    RestoreUndoesCapture(t, identity, security, SnapshotOf(r.s, controls));
  }

  lemma StartsWithoutChecks(skill: Skill, request: Request)
    requires Start(skill, request).Ok?
    ensures AllNamed(Start(skill, request).value.w.checks)
  {
  }

  lemma TagFreeStart(catalog: Catalog, ast: AstSkill)
    requires Compile(catalog, ast).Ok?
    requires (forall i | 0 <= i < |ast.inputs| :: TagFree(ast.inputs[i].ty)) && forall i | 0 <= i < |ast.contexts| :: TagFree(ast.contexts[i].ty)
    ensures TagFreeScope(StartScope(PartsOf(catalog, ast)))
  {
    hide Compile, PartsOf, LowerBlock, ResolveTools, DeclareSpecs, TagFree;
    CompiledFromParts(catalog, ast);
    var p := PartsOf(catalog, ast);
    assert StartScope(p) == SpecScope(p.contexts.specs, SpecScope(p.inputs.specs, map[])) && TagFreeScope(map[]);
    assert ROOT_TABLE.frames != [];
    hide *;
    DeclaredAreTagFree(ast.inputs, ROOT_TABLE);
    DeclaredAreTagFree(ast.contexts, p.inputs.table);
    SpecsAreTagFree(p.inputs.specs, map[]);
    SpecsAreTagFree(p.contexts.specs, SpecScope(p.inputs.specs, map[]));
  }

  lemma DeclaredAreTagFree(fields: seq<AstField>, t: Table)
    requires t.frames != [] && DeclareSpecs(fields, t).Ok? && forall i | 0 <= i < |fields| :: TagFree(fields[i].ty)
    ensures forall i | 0 <= i < |fields| :: TagFree(DeclareSpecs(fields, t).value.specs[i].field.ty)
  {
    hide TagFree;
  }

  lemma {:induction false} SpecsAreTagFree(specs: seq<Spec>, g: Typing.Scope)
    requires TagFreeScope(g) && forall i | 0 <= i < |specs| :: TagFree(specs[i].field.ty)
    ensures TagFreeScope(SpecScope(specs, g))
    decreases |specs|
  {
    hide TagFree;
    if specs != [] {
      assert forall i | 0 <= i < |specs[1..]| :: specs[1..][i] == specs[i + 1];
      SpecsAreTagFree(specs[1..], g[specs[0].symbol := Tag(specs[0].field.ty, specs[0].field.cls)]);
    }
  }
}
