// Type safety of controlled skills: what typing guarantees about the part before the approval, the
// WRITE's arguments, and the part that runs after a commit without the statements left out.

module ControlledTyping {
  import opened Wrappers
  import opened Core
  import opened Failures
  import opened Operators
  import opened Ir
  import opened Semantics
  import opened Effects
  import opened Symbols
  import opened Ast
  import opened Compiler
  import opened Execution
  import opened Typing
  import opened LoweringTyped
  import opened CompiledSkills
  import opened ControlledExecution
  import opened ControlledScope

  // ---------- bodies with approvals and WRITEs at their top level ----------

  predicate WriteLet(stmt: AstStmt) {
    stmt.ALet? && stmt.value.AWrite? && forall i | 0 <= i < |stmt.value.arguments| :: PlainExpr(stmt.value.arguments[i].value)
  }

  // Approvals and WRITEs stand at the top level only, a WRITE as the whole value of a LET.
  predicate ControlledForm(stmts: seq<AstStmt>) {
    forall i | 0 <= i < |stmts| :: PlainStmt(stmts[i]) || stmts[i].AApprove? || WriteLet(stmts[i])
  }

  predicate TypedArguments(sig: Signature, g: Typing.Scope, contract: Contract, args: seq<Argument>) {
    forall i | 0 <= i < |args| :: WellTyped(sig, g, args[i].value) && LookupField(contract.inputs, args[i].name) == Some(args[i].value.ty)
  }

  // A WRITE's arguments fit its tool's contract, and so does the type of what it will be bound to.
  predicate WellTypedWrite(sig: Signature, g: Typing.Scope, stmt: Stmt)
    requires IsWrite(stmt)
  {
    && stmt.target !in g && stmt.value.tool in sig.tools && stmt.value.ty == sig.tools[stmt.value.tool].output
    && TypedArguments(sig, g, sig.tools[stmt.value.tool], stmt.value.arguments)
  }

  predicate WellTypedTop(sig: Signature, g: Typing.Scope, stmt: Stmt) {
    if IsApproval(stmt) then true else if IsWrite(stmt) then WellTypedWrite(sig, g, stmt) else WellTypedStmt(sig, g, stmt)
  }

  predicate WellTypedBody(sig: Signature, g: Typing.Scope, stmts: seq<Stmt>)
    decreases |stmts|
  {
    stmts == [] || (WellTypedTop(sig, g, stmts[0]) && WellTypedBody(sig, ScopeAfter(sig, g, stmts[0]), stmts[1..]))
  }

  // Every compiled body of this form is well typed.
  lemma {:induction false} LoweredBodyIsTyped(tools: Tools, sig: Signature, stmts: seq<AstStmt>, s: LState, g: Typing.Scope)
    requires ControlledForm(stmts) && Unambiguous(s.table) && Describes(s.table, g) && SignatureFits(tools, sig) && Distinct(OutputNameSeq(sig.outputs))
    requires s.table.frames != [] && LowerBlock(tools, sig.outputs, stmts, s).Ok?
    ensures WellTypedBody(sig, g, LowerBlock(tools, sig.outputs, stmts, s).value.stmts)
    decreases |stmts|
  {
    hide LowerStmt, WellTypedTop, Unambiguous, Describes, SignatureFits, PlainStmt, WriteLet;
    if stmts != [] {
      LoweredTopIsTyped(tools, sig, stmts[0], s, g);
      var first := LowerStmt(tools, sig.outputs, stmts[0], s).value;
      LoweredBodyIsTyped(tools, sig, stmts[1..], first.state, ScopeAfter(sig, g, first.stmt));
      var rest := LowerBlock(tools, sig.outputs, stmts[1..], first.state).value;
      assert ([first.stmt] + rest.stmts)[1..] == rest.stmts;
    }
  }

  lemma {:induction false} LoweredTopIsTyped(tools: Tools, sig: Signature, stmt: AstStmt, s: LState, g: Typing.Scope)
    requires PlainStmt(stmt) || stmt.AApprove? || WriteLet(stmt)
    requires Unambiguous(s.table) && Describes(s.table, g) && SignatureFits(tools, sig) && Distinct(OutputNameSeq(sig.outputs))
    requires s.table.frames != [] && LowerStmt(tools, sig.outputs, stmt, s).Ok?
    ensures var l := LowerStmt(tools, sig.outputs, stmt, s).value;
      && WellTypedTop(sig, g, l.stmt)
      && l.state.table.frames != [] && Unambiguous(l.state.table) && Describes(l.state.table, ScopeAfter(sig, g, l.stmt))
  {
    if PlainStmt(stmt) {
      hide LowerStmt, WellTypedStmt, Unambiguous, Describes, Extends, SignatureFits, PlainStmt;
      LoweredStmtIsTyped(tools, sig, stmt, s, g);
      PlainIsNoWrite(sig, g, LowerStmt(tools, sig.outputs, stmt, s).value.stmt);
    } else if stmt.AApprove? {
      hide Unambiguous, Describes;
      SameNames(s.table, TakeNode(s, ApprovalNode).table, g);
    } else {
      LoweredWriteIsTyped(tools, sig, stmt, s, g);
    }
  }

  lemma PlainIsNoWrite(sig: Signature, g: Typing.Scope, stmt: Stmt)
    requires WellTypedStmt(sig, g, stmt)
    ensures !IsWrite(stmt) && !IsApproval(stmt)
  {
  }

  lemma SameNames(t: Table, u: Table, g: Typing.Scope)
    requires t == u && Unambiguous(t) && Describes(t, g)
    ensures Unambiguous(u) && Describes(u, g)
  {
  }

  lemma {:induction false} LoweredWriteIsTyped(tools: Tools, sig: Signature, stmt: AstStmt, s: LState, g: Typing.Scope)
    requires WriteLet(stmt) && Unambiguous(s.table) && Describes(s.table, g) && SignatureFits(tools, sig)
    requires s.table.frames != [] && LowerStmt(tools, sig.outputs, stmt, s).Ok?
    ensures var l := LowerStmt(tools, sig.outputs, stmt, s).value;
      && WellTypedTop(sig, g, l.stmt)
      && l.state.table.frames != [] && Unambiguous(l.state.table) && Describes(l.state.table, ScopeAfter(sig, g, l.stmt))
  {
    hide LowerArguments, WellTyped, Unambiguous, Describes;
    var contract := tools[stmt.value.tool].contract;
    LoweredArgumentsAreTyped(tools, sig, s.table, g, contract, stmt.value.arguments, s.nodes);
    var l := LowerExpr(tools, s.table, stmt.value, s.nodes).value;
    DeclaringDescribes(s.table, g, stmt.name, VALUE, l.expr.ty, l.cls);
  }

  // ---------- scopes of the parts ----------

  lemma {:induction false} BodySplits(sig: Signature, g: Typing.Scope, a: seq<Stmt>, b: seq<Stmt>)
    ensures WellTypedBody(sig, g, a + b) <==> WellTypedBody(sig, g, a) && WellTypedBody(sig, ScopeAfterBlock(sig, g, a), b)
    decreases |a|
  {
    if a == [] {
      assert a + b == b;
    } else {
      assert (a + b)[1..] == a[1..] + b;
      BodySplits(sig, ScopeAfter(sig, g, a[0]), a[1..], b);
      hide WellTypedTop, ScopeAfter;
    }
  }

  // A part without approval and WRITE is well typed by itself.
  lemma {:induction false} PlainPart(sig: Signature, g: Typing.Scope, stmts: seq<Stmt>)
    requires WellTypedBody(sig, g, stmts) && forall i | 0 <= i < |stmts| :: !IsApproval(stmts[i]) && !IsWrite(stmts[i])
    ensures WellTypedBlock(sig, g, stmts)
    decreases |stmts|
  {
    if stmts != [] {
      assert forall i | 0 <= i < |stmts[1..]| :: stmts[1..][i] == stmts[i + 1];
      PlainPart(sig, ScopeAfter(sig, g, stmts[0]), stmts[1..]);
      hide WellTypedStmt, ScopeAfter;
    }
  }

  // The scope only grows, by what the statements introduce.
  lemma {:induction false} ScopeGrows(sig: Signature, g: Typing.Scope, stmts: seq<Stmt>)
    requires WellTypedBody(sig, g, stmts)
    ensures var h := ScopeAfterBlock(sig, g, stmts); Agree(g, h, g.Keys) && h.Keys == g.Keys + IntroducedBy(stmts)
    decreases |stmts|
  {
    if stmts != [] {
      ScopeGrows(sig, ScopeAfter(sig, g, stmts[0]), stmts[1..]);
      hide WellTyped, WellTypedBlock, WellTypedFields, TypedArguments;
    }
  }

  // Both scopes know these symbols, with the same tags.
  ghost predicate Agree(g: Typing.Scope, h: Typing.Scope, ids: set<SymbolId>) {
    forall id | id in ids :: id in g && id in h && g[id] == h[id]
  }

  // ---------- typing in a smaller scope ----------

  lemma {:induction false} ExprNarrows(sig: Signature, g: Typing.Scope, h: Typing.Scope, e: Expr)
    requires WellTyped(sig, h, e) && Agree(g, h, Free(e))
    ensures WellTyped(sig, g, e) && ClassOf(sig, g, e) == ClassOf(sig, h, e)
    decreases e, 2
  {
    match e
    case Literal(_, _, _) =>
    case SymbolRef(_, _, _) =>
    case Field(_, source, _, _) => ExprNarrows(sig, g, h, source);
    case Projection(_, source, _, _) => ExprNarrows(sig, g, h, source);
    case Call(_, _, operands, _) =>
      OperandsNarrow(sig, g, h, operands);
      hide BuiltinResult;
    case Binary(_, _, left, right, _) =>
      ExprNarrows(sig, g, h, left);
      ExprNarrows(sig, g, h, right);
      hide BinaryResult;
    case Read(_, _, arguments, _, _) => ArgumentsNarrow(sig, g, h, arguments);
  }

  lemma {:induction false} OperandsNarrow(sig: Signature, g: Typing.Scope, h: Typing.Scope, es: seq<Expr>)
    requires (forall i | 0 <= i < |es| :: WellTyped(sig, h, es[i])) && Agree(g, h, FreeInAll(es))
    ensures forall i | 0 <= i < |es| :: WellTyped(sig, g, es[i]) && ClassOf(sig, g, es[i]) == ClassOf(sig, h, es[i])
    decreases es, 0
  {
    hide WellTyped, ClassOf;
    if es != [] {
      ExprNarrows(sig, g, h, es[0]);
      assert forall i | 0 <= i < |es[1..]| :: es[1..][i] == es[i + 1];
      OperandsNarrow(sig, g, h, es[1..]);
      forall i | 1 <= i < |es| ensures WellTyped(sig, g, es[i]) && ClassOf(sig, g, es[i]) == ClassOf(sig, h, es[i]) {
        assert es[i] == es[1..][i - 1];
      }
    }
  }

  lemma {:induction false} ArgumentsNarrow(sig: Signature, g: Typing.Scope, h: Typing.Scope, args: seq<Argument>)
    requires (forall i | 0 <= i < |args| :: WellTyped(sig, h, args[i].value)) && Agree(g, h, FreeInArguments(args))
    ensures forall i | 0 <= i < |args| :: WellTyped(sig, g, args[i].value) && ClassOf(sig, g, args[i].value) == ClassOf(sig, h, args[i].value)
    decreases args, 0
  {
    hide WellTyped, ClassOf;
    if args != [] {
      ExprNarrows(sig, g, h, args[0].value);
      assert forall i | 0 <= i < |args[1..]| :: args[1..][i] == args[i + 1];
      ArgumentsNarrow(sig, g, h, args[1..]);
      forall i | 1 <= i < |args| ensures WellTyped(sig, g, args[i].value) && ClassOf(sig, g, args[i].value) == ClassOf(sig, h, args[i].value) {
        assert args[i] == args[1..][i - 1];
      }
    }
  }

  // A block is still well typed in a smaller scope that knows what it uses.
  lemma {:induction false} BlockNarrows(sig: Signature, g: Typing.Scope, h: Typing.Scope, stmts: seq<Stmt>)
    requires WellTypedBlock(sig, h, stmts) && Agree(g, h, FreeIn(stmts)) && g.Keys <= h.Keys
    ensures WellTypedBlock(sig, g, stmts)
    decreases stmts, 3
  {
    hide WellTypedStmt, FreeStmt;
    if stmts != [] {
      StmtNarrows(sig, g, h, stmts[0]);
      BlockNarrows(sig, ScopeAfter(sig, g, stmts[0]), ScopeAfter(sig, h, stmts[0]), stmts[1..]);
    }
  }

  lemma {:induction false} StmtNarrows(sig: Signature, g: Typing.Scope, h: Typing.Scope, stmt: Stmt)
    requires WellTypedStmt(sig, h, stmt) && Agree(g, h, FreeStmt(stmt)) && g.Keys <= h.Keys
    ensures WellTypedStmt(sig, g, stmt)
    ensures var g', h' := ScopeAfter(sig, g, stmt), ScopeAfter(sig, h, stmt);
      g'.Keys <= h'.Keys && forall ids | Agree(g, h, ids - Introduced(stmt)) :: Agree(g', h', ids)
    decreases stmt, 2
  {
    match stmt
    case Let(_, _, value) =>
      ExprNarrows(sig, g, h, value);
      hide WellTyped, ClassOf;
    case Check(_, _, condition, _, _, _, _) =>
      ExprNarrows(sig, g, h, condition);
      hide WellTyped, ClassOf;
    case Emit(_, fields) =>
      ArgumentsNarrow(sig, g, h, fields);
      hide WellTyped, ClassOf, EmitSchemaOk;
    case Foreach(_, loopVariable, collection, _, body) =>
      assert Agree(g, h, Free(collection));
      ExprNarrows(sig, g, h, collection);
      hide WellTyped, ClassOf;
      BlockNarrows(sig, LoopScope(sig, g, stmt), LoopScope(sig, h, stmt), body);
  }

  // ---------- the runs of a controlled skill ----------

  // What evaluating the WRITE's arguments comes to: values of the contract's types, conforming
  // ones on conforming inputs, or an explained failure.
  ghost predicate ArgumentsFitContract(contract: Contract, args: seq<Argument>, r: Eval<seq<NamedEnvelope>>, deep: bool) {
    match r.res
    case Ok(xs) =>
      && |xs| == |args|
      && (forall i | 0 <= i < |xs| :: xs[i].name == args[i].name && LookupField(contract.inputs, xs[i].name) == Some(xs[i].value.ty))
      && (deep ==> ArgumentsConform(contract, xs))
    case Err(f) => !RuledOut(f, deep)
  }

  lemma {:induction false} WriteArgumentsAreSafe(env: Env, g: Typing.Scope, b: Bindings, contract: Contract, args: seq<Argument>, w: Ledger, deep: bool)
    requires ScopeHolds(g, b, deep) && TypedArguments(SignatureOf(env), g, contract, args)
    ensures ArgumentsFitContract(contract, args, EvalArguments(env, b, args, w), deep)
  {
    ArgumentsAreSafe(env, g, b, args, w, deep);
    var r := EvalArguments(env, b, args, w);
    if r.res.Ok? {
      ArgumentsFit(contract, args, r.res.value, deep);
    } else {
      var i :| 0 <= i < |args| && ArgumentExplains(args[i], r.res.error, deep);
    }
    hide EvalArguments, ScopeHolds, WellTyped, ArgumentsConform, HasDivision, HasExtremum, HasRead;
  }

  // The suffix is safe whatever well-typed value was committed.
  lemma {:induction false} SuffixIsSafe(env: Env, g: Typing.Scope, plan: Plan, x: Envelope, s: State, tag: Tag, deep: bool)
    requires Framed(s.b) && plan.write.Let? && ScopeHolds(g, s.b, deep) && RowsFit(env.outputs, s.w.outputs, deep)
    requires plan.write.target !in g && Typed(x, tag, deep) && WellTypedBlock(SignatureOf(env), g[plan.write.target := tag], plan.suffix)
    ensures var r := SuffixRun(env, plan, x, s);
      && RowsFit(env.outputs, r.s.w.outputs, deep)
      && (r.error.Some? ==> !RuledOut(r.error.value, deep))
  {
    BindKeepsScope(g, s.b, plan.write.target, tag, x, deep);
    assert !IsBound(s.b, plan.write.target);
    assert Framed(Bind(s.b, plan.write.target, x));
    hide ScopeHolds, RowsFit, ExecBlock, WellTypedBlock, Bind, IsBound, RuledOut;
    WellTypedRunIsSafe(env, g[plan.write.target := tag], plan.suffix, s.(b := Bind(s.b, plan.write.target, x)), deep);
  }

  // The scopes that the parts of a plan are well typed in.
  lemma {:induction false} PlanIsTyped(sig: Signature, g: Typing.Scope, body: seq<Stmt>, a: nat, w: nat, c: nat)
    requires WellTypedBody(sig, g, body) && ControlledAt(body, a, w)
    requires FreeIn(body) <= g.Keys && (forall id | id in g :: id <= c) && Ascending(c, body)
    ensures var h := ScopeAfterBlock(sig, g, body[..a]);
      var e := body[w].value;
      && WellTypedBlock(sig, g, body[..a])
      && e.tool in sig.tools && e.ty == sig.tools[e.tool].output && body[w].target !in h
      && (FreeInArguments(e.arguments) !! Between(body, a, w) ==> TypedArguments(sig, h, sig.tools[e.tool], e.arguments))
      && (FreeIn(body[w + 1..]) !! Between(body, a, w) ==>
            WellTypedBlock(sig, h[body[w].target := Tag(e.ty, sig.tools[e.tool].outputClass)], body[w + 1..]))
  {
    var prefix, middle, suffix := body[..a], body[a + 1..w], body[w + 1..];
    var tail := middle + ([body[w]] + suffix);
    assert body == prefix + ([body[a]] + tail);
    BodySplits(sig, g, prefix, [body[a]] + tail);
    var h := ScopeAfterBlock(sig, g, prefix);
    assert ([body[a]] + tail)[1..] == tail;
    assert WellTypedBody(sig, h, tail);
    BodySplits(sig, h, middle, [body[w]] + suffix);
    var k := ScopeAfterBlock(sig, h, middle);
    assert ([body[w]] + suffix)[1..] == suffix;
    PlainPart(sig, g, prefix);
    forall i | 0 <= i < |suffix| ensures !IsApproval(suffix[i]) && !IsWrite(suffix[i]) {
      assert suffix[i] == body[w + 1 + i];
    }
    ScopeGrows(sig, g, prefix);
    ScopeGrows(sig, h, middle);
    PlanScopes(body, a, w, g.Keys, c);
    assert WellTypedTop(sig, k, body[w]) && WellTypedBody(sig, ScopeAfter(sig, k, body[w]), suffix);
    PlainPart(sig, ScopeAfter(sig, k, body[w]), suffix);
    hide WellTypedBody, WellTypedBlock, WellTyped, FreeIn, FreeInArguments, IntroducedBy, ScopeAfterBlock, Ascending;
    NarrowedParts(sig, h, k, body, a, w);
  }

  lemma NarrowedParts(sig: Signature, h: Typing.Scope, k: Typing.Scope, body: seq<Stmt>, a: nat, w: nat)
    requires ControlledAt(body, a, w) && Agree(h, k, h.Keys) && WellTypedWrite(sig, k, body[w])
    requires WellTypedBlock(sig, ScopeAfter(sig, k, body[w]), body[w + 1..])
    requires forall id | id in FreeInArguments(body[w].value.arguments) :: id in h || id in Between(body, a, w)
    requires forall id | id in FreeIn(body[w + 1..]) :: id in h || id == body[w].target || id in Between(body, a, w)
    ensures var e := body[w].value;
      && e.tool in sig.tools && e.ty == sig.tools[e.tool].output && body[w].target !in h
      && (FreeInArguments(e.arguments) !! Between(body, a, w) ==> TypedArguments(sig, h, sig.tools[e.tool], e.arguments))
      && (FreeIn(body[w + 1..]) !! Between(body, a, w) ==>
            WellTypedBlock(sig, h[body[w].target := Tag(e.ty, sig.tools[e.tool].outputClass)], body[w + 1..]))
  {
    var e := body[w].value;
    var tag := Tag(e.ty, sig.tools[e.tool].outputClass);
    hide WellTypedBlock, WellTyped, FreeIn, FreeInArguments, Between;
    if FreeInArguments(e.arguments) !! Between(body, a, w) {
      ArgumentsNarrow(sig, h, k, e.arguments);
    }
    if FreeIn(body[w + 1..]) !! Between(body, a, w) {
      BlockNarrows(sig, h[body[w].target := tag], k[body[w].target := tag], body[w + 1..]);
    }
  }

  // Type safety of controlled skills, on any request, and more on conforming ones. The part before the
  // approval meets no name, binding, type, classification or schema error; if nothing introduced
  // between approval and WRITE is used after it, the WRITE's arguments fit its contract, and
  // the suffix is as safe, whatever value of the contract's type and classification was committed.
  lemma {:induction false} ControlledSkillIsTypeSafe(catalog: Catalog, ast: AstSkill, request: Request, refs: set<ToolRef>, port: Port, a: nat, w: nat, deep: bool)
    requires Compile(catalog, ast).Ok? && ControlledForm(ast.body) && ControlledAt(Compile(catalog, ast).value.body, a, w)
    requires deep ==> InputsConform(ast.inputs, request.inputs) && ContextConforms(ast.contexts, request.context)
    requires Start(Compile(catalog, ast).value, request).Ok?
    ensures var skill := Compile(catalog, ast).value;
      var env := EnvOf(skill, refs, port);
      var plan := Plan(skill.body[a], skill.body[w], skill.body[..a], skill.body[w + 1..]);
      var dropped := Between(skill.body, a, w);
      var e := plan.write.value;
      var r := ExecBlock(env, plan.prefix, Start(skill, request).value);
      && RowsFit(ast.outputs, r.s.w.outputs, deep)
      && (r.error.Some? ==> !RuledOut(r.error.value, deep))
      && e.tool in skill.tools && e.ty == skill.tools[e.tool].output
      && (r.error.None? && FreeInArguments(e.arguments) !! dropped ==>
            forall v :: ArgumentsFitContract(skill.tools[e.tool], e.arguments, EvalArguments(env, r.s.b, e.arguments, v), deep))
      && (r.error.None? && FreeIn(plan.suffix) !! dropped ==>
            forall x | Typed(x, Tag(e.ty, skill.tools[e.tool].outputClass), deep) :: SafeSuffix(env, plan, x, r.s, deep))
  {
    var skill := Compile(catalog, ast).value;
    var body := skill.body;
    var env := EnvOf(skill, refs, port);
    var sig := SignatureOf(env);
    var s := Start(skill, request).value;
    var g := StartScope(PartsOf(catalog, ast));
    var plan := Plan(body[a], body[w], body[..a], body[w + 1..]);
    var c := StartOfBody(catalog, ast, request);
    StartOfTypedBody(catalog, ast, request, refs, port, deep);
    assert IsWrite(body[w]) && sig.tools == skill.tools;
    hide *;
    PlanIsTyped(sig, g, body, a, w, c);
    WellTypedRunIsSafe(env, g, plan.prefix, s, deep);
    var h := ScopeAfterBlock(sig, g, plan.prefix);
    var e := plan.write.value;
    var tag := Tag(e.ty, skill.tools[e.tool].outputClass);
    var r := ExecBlock(env, plan.prefix, s);
    if r.error.None? {
      if FreeInArguments(e.arguments) !! Between(body, a, w) {
        forall v ensures ArgumentsFitContract(skill.tools[e.tool], e.arguments, EvalArguments(env, r.s.b, e.arguments, v), deep) {
          WriteArgumentsAreSafe(env, h, r.s.b, skill.tools[e.tool], e.arguments, v, deep);
        }
      }
      if FreeIn(plan.suffix) !! Between(body, a, w) {
        forall x | Typed(x, tag, deep) ensures SafeSuffix(env, plan, x, r.s, deep) {
          SuffixOfScope(env, h, plan, x, r.s, tag, deep);
        }
      }
    }
  }

  ghost predicate SafeSuffix(env: Env, plan: Plan, x: Envelope, s: State, deep: bool)
    requires plan.write.Let? && Framed(s.b)
  {
    var r := SuffixRun(env, plan, x, s);
    RowsFit(env.outputs, r.s.w.outputs, deep) && (r.error.Some? ==> !RuledOut(r.error.value, deep))
  }

  lemma SuffixOfScope(env: Env, g: Typing.Scope, plan: Plan, x: Envelope, s: State, tag: Tag, deep: bool)
    requires Framed(s.b) && plan.write.Let? && ScopeHolds(g, s.b, deep) && RowsFit(env.outputs, s.w.outputs, deep)
    requires plan.write.target !in g && Typed(x, tag, deep) && WellTypedBlock(SignatureOf(env), g[plan.write.target := tag], plan.suffix)
    ensures SafeSuffix(env, plan, x, s, deep)
  {
    hide ScopeHolds, RowsFit, SuffixRun, WellTypedBlock, RuledOut;
    SuffixIsSafe(env, g, plan, x, s, tag, deep);
  }

  // Where a run of a compiled body starts, and the typing of the body from there.
  lemma {:induction false} StartOfTypedBody(catalog: Catalog, ast: AstSkill, request: Request, refs: set<ToolRef>, port: Port, deep: bool)
    requires Compile(catalog, ast).Ok? && ControlledForm(ast.body) && Start(Compile(catalog, ast).value, request).Ok?
    requires deep ==> InputsConform(ast.inputs, request.inputs) && ContextConforms(ast.contexts, request.context)
    ensures var skill := Compile(catalog, ast).value;
      var env := EnvOf(skill, refs, port);
      var g := StartScope(PartsOf(catalog, ast));
      var s := Start(skill, request).value;
      && WellTypedBody(SignatureOf(env), g, skill.body) && env.outputs == ast.outputs
      && Framed(s.b) && ScopeHolds(g, s.b, deep) && RowsFit(env.outputs, s.w.outputs, deep)
  {
    CompiledFromParts(catalog, ast);
    var p := PartsOf(catalog, ast);
    var skill := Compile(catalog, ast).value;
    RootStarts(false);
    assert StartScope(p) == SpecScope(p.contexts.specs, SpecScope(p.inputs.specs, map[]));
    var sig := SignatureOf(EnvOf(skill, refs, port));
    assert sig == Signature(skill.tools, skill.outputs);
    assert Unambiguous(ROOT_TABLE) && Describes(ROOT_TABLE, map[]);
    assert Start(skill, request).value.w.outputs == [];
    assert RowsFit(ast.outputs, [], deep);
    hide *;
    StartedScopeHolds(catalog, ast, request, deep);
    ContractsFit(p.tools, ast.outputs);
    SpecsAreDescribed(ast.inputs, ROOT_TABLE, map[]);
    SpecsAreDescribed(ast.contexts, p.inputs.table, SpecScope(p.inputs.specs, map[]));
    LoweredBodyIsTyped(p.tools, sig, ast.body, LState(p.contexts.table, map[]), StartScope(p));
  }
}
