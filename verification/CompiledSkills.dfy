// The guarantees of a compiled skill, for every request and every tool behaviour.

module CompiledSkills {
  import opened Wrappers
  import opened Core
  import opened Failures
  import opened Operators
  import opened Ir
  import opened Semantics
  import opened Effects
  import opened Symbols
  import opened Ast
  import opened Bounds
  import opened Compiler
  import opened Execution
  import opened Typing
  import opened LoweringTyped
  import opened LoweringCorrect
  import Source = SourceSemantics

  // ---------- the source's own execution ----------

  function DefineAll(fields: seq<AstField>, values: seq<Envelope>, scope: Source.Scope): Source.Scope
    requires |fields| == |values|
  {
    if fields == [] then scope else DefineAll(fields[1..], values[1..], scope[fields[0].name := values[0]])
  }

  function SourceStart(ast: AstSkill, request: Request): Result<Source.SourceState, BindFailure> {
    var inputs :- AdmitInputs(ast.limits, ast.inputs, request.inputs, 0);
    var contexts :- AdmitContexts(ast.limits, ast.contexts, request.context, inputs.seen);
    var scope := DefineAll(ast.contexts, contexts.values, DefineAll(ast.inputs, inputs.values, map[]));
    Ok(Source.SourceState([scope], FRESH_LEDGER.(meter := Meter(0, 0, 0, contexts.seen)), 0))
  }

  function SourceEnvOf(tools: Tools, ast: AstSkill, authorized: set<string>, port: Port): Source.SourceEnv {
    Source.SourceEnv(ast.limits, ast.outputs, map id | id in tools :: tools[id].contract, authorized, port)
  }

  function SourceExecute(tools: Tools, ast: AstSkill, request: Request, authorized: set<string>, port: Port): Result<Source.SourceExec, BindFailure> {
    var s :- SourceStart(ast, request);
    Ok(Source.RunBlock(SourceEnvOf(tools, ast, authorized, port), ast.body, s))
  }

  // ---------- starting a run ----------

  function SpecScope(specs: seq<Spec>, g: Typing.Scope): Typing.Scope {
    if specs == [] then g else SpecScope(specs[1..], g[specs[0].symbol := Tag(specs[0].field.ty, specs[0].field.cls)])
  }

  ghost predicate Started(t: Table, g: Typing.Scope, scope: Source.Scope, b: Bindings, deep: bool) {
    && Unambiguous(t) && Describes(t, g)
    && |t.frames| == 1
    && Matches(t, [scope], b)
    && ScopeHolds(g, b, deep)
    && b.frames == [map[]] && b.checkFrames == [map[]]
  }

  // The values are wrapped with their declared tags.
  ghost predicate Wrapped(specs: seq<Spec>, values: seq<Envelope>, deep: bool) {
    |values| == |specs| && forall i | 0 <= i < |specs| :: Typed(values[i], Tag(specs[i].field.ty, specs[i].field.cls), deep)
  }

  lemma {:induction false} EmptyFramesResolve(b: Bindings, id: SymbolId)
    requires b.frames == [map[]] && b.checkFrames == [map[]]
    ensures Resolve(b, id) == if id in b.contexts then Some(b.contexts[id]) else if id in b.inputs then Some(b.inputs[id]) else None
  {
    assert Innermost([map[]], id) == None;
  }

  lemma {:induction false} AddedValueResolves(g: Typing.Scope, b: Bindings, symbol: SymbolId, x: Envelope, context: bool, tag: Tag, deep: bool)
    requires b.frames == [map[]] && b.checkFrames == [map[]] && ScopeHolds(g, b, deep) && symbol !in g && Typed(x, tag, deep)
    ensures var c := if context then b.(contexts := b.contexts[symbol := x]) else b.(inputs := b.inputs[symbol := x]);
      && (forall id :: Resolve(c, id) == if id == symbol then Some(x) else Resolve(b, id))
      && ScopeHolds(g[symbol := tag], c, deep)
  {
    var c := if context then b.(contexts := b.contexts[symbol := x]) else b.(inputs := b.inputs[symbol := x]);
    assert !IsBound(b, symbol);
    forall id
      ensures Resolve(c, id) == if id == symbol then Some(x) else Resolve(b, id)
      ensures IsBound(c, id) <==> id == symbol || IsBound(b, id)
    {
      EmptyFramesResolve(b, id);
      EmptyFramesResolve(c, id);
    }
    hide Resolve, IsBound;
  }

  // One more declared input or context value.
  lemma {:induction false} SpecStarts(t: Table, g: Typing.Scope, scope: Source.Scope, b: Bindings, spec: Spec, x: Envelope, context: bool, deep: bool)
    requires Started(t, g, scope, b, deep) && !Visible(t.frames, spec.field.name) && spec.symbol == t.symbolCounter + 1
    requires Typed(x, Tag(spec.field.ty, spec.field.cls), deep)
    ensures var d := Declared(t, spec.field.name, VALUE, spec.field.ty, spec.field.cls);
      var c := if context then b.(contexts := b.contexts[spec.symbol := x]) else b.(inputs := b.inputs[spec.symbol := x]);
      Started(d, g[spec.symbol := Tag(spec.field.ty, spec.field.cls)], scope[spec.field.name := x], c, deep)
  {
    var f := spec.field;
    DeclaringDescribes(t, g, f.name, VALUE, f.ty, f.cls);
    var d := Declared(t, f.name, VALUE, f.ty, f.cls);
    var c := if context then b.(contexts := b.contexts[spec.symbol := x]) else b.(inputs := b.inputs[spec.symbol := x]);
    assert spec.symbol !in g;
    AddedValueResolves(g, b, spec.symbol, x, context, Tag(f.ty, f.cls), deep);
    var defined := scope[f.name := x];
    hide Resolve, IsBound, ScopeHolds, Describes, Find, Declared;
    forall i, name
      ensures InFrame(d, i, name) <==> InFrame(t, i, name) || (i == 0 && name == f.name)
      ensures InFrame(d, i, name) ==> Resolve(c, d.frames[i].names[name].id) == Some([defined][i][name])
    {
      DeclaredNames(t, f.name, VALUE, f.ty, f.cls, i, name);
    }
  }

  lemma {:induction false} SpecsStart(fields: seq<AstField>, t: Table, g: Typing.Scope, scope: Source.Scope, b: Bindings, values: seq<Envelope>, context: bool, deep: bool)
    requires Started(t, g, scope, b, deep) && DeclareSpecs(fields, t).Ok?
    requires Wrapped(DeclareSpecs(fields, t).value.specs, values, deep)
    ensures var d := DeclareSpecs(fields, t).value;
      var c := if context then b.(contexts := BindAll(d.specs, values, b.contexts)) else b.(inputs := BindAll(d.specs, values, b.inputs));
      Started(d.table, SpecScope(d.specs, g), DefineAll(fields, values, scope), c, deep)
    decreases |fields|
  {
    if fields != [] {
      var f := fields[0];
      var spec := Spec(t.symbolCounter + 1, f);
      var x := values[0];
      assert DeclareSpecs(fields, t).value.specs[0] == spec;
      SpecStarts(t, g, scope, b, spec, x, context, deep);
      var next := Declared(t, f.name, VALUE, f.ty, f.cls);
      var c := if context then b.(contexts := b.contexts[spec.symbol := x]) else b.(inputs := b.inputs[spec.symbol := x]);
      var rest := DeclareSpecs(fields[1..], next).value;
      assert DeclareSpecs(fields, t).value.specs[1..] == rest.specs;
      assert Wrapped(rest.specs, values[1..], deep) by {
        forall i | 0 <= i < |rest.specs| ensures Typed(values[1..][i], Tag(rest.specs[i].field.ty, rest.specs[i].field.cls), deep) {
          assert DeclareSpecs(fields, t).value.specs[i + 1] == rest.specs[i];
        }
      }
      hide Started;
      SpecsStart(fields[1..], next, g[spec.symbol := Tag(f.ty, f.cls)], scope[f.name := x], c, values[1..], context, deep);
    }
  }

  // The request's values conform to their declared types, inside lists and records too.
  ghost predicate InputsConform(fields: seq<AstField>, inputs: map<string, Value>) {
    forall i | 0 <= i < |fields| && fields[i].name in inputs :: Conforms(inputs[fields[i].name], fields[i].ty)
  }

  ghost predicate ContextConforms(fields: seq<AstField>, context: Value) {
    forall i | 0 <= i < |fields| && ValueAt(context, fields[i].path).Some? :: Conforms(ValueAt(context, fields[i].path).value, fields[i].ty)
  }

  ghost predicate TaggedAs(fields: seq<AstField>, values: seq<Envelope>, deep: bool) {
    |values| == |fields| && forall i | 0 <= i < |fields| :: Typed(values[i], Tag(fields[i].ty, fields[i].cls), deep)
  }

  lemma {:induction false} InputsAreTagged(limits: Limits, fields: seq<AstField>, inputs: map<string, Value>, seen: nat, deep: bool)
    requires AdmitInputs(limits, fields, inputs, seen).Ok? && (deep ==> InputsConform(fields, inputs))
    ensures TaggedAs(fields, AdmitInputs(limits, fields, inputs, seen).value.values, deep)
    decreases |fields|
  {
    if fields != [] {
      var first := Admit(limits, fields[0], inputs[fields[0].name], seen).value;
      assert deep ==> forall i | 0 <= i < |fields[1..]| :: fields[1..][i] == fields[i + 1];
      InputsAreTagged(limits, fields[1..], inputs, first.1, deep);
    }
  }

  lemma {:induction false} ContextsAreTagged(limits: Limits, fields: seq<AstField>, context: Value, seen: nat, deep: bool)
    requires AdmitContexts(limits, fields, context, seen).Ok? && (deep ==> ContextConforms(fields, context))
    ensures TaggedAs(fields, AdmitContexts(limits, fields, context, seen).value.values, deep)
    decreases |fields|
  {
    if fields != [] {
      var first := Admit(limits, fields[0], ValueAt(context, fields[0].path).value, seen).value;
      assert deep ==> forall i | 0 <= i < |fields[1..]| :: fields[1..][i] == fields[i + 1];
      ContextsAreTagged(limits, fields[1..], context, first.1, deep);
    }
  }

  lemma RootStarts(deep: bool)
    ensures Started(ROOT_TABLE, map[], map[], Bindings(map[], map[], [map[]], [map[]]), deep)
  {
    forall id ensures !IsBound(Bindings(map[], map[], [map[]], [map[]]), id) {
    }
  }

  // The pieces a successful compilation is made of.
  datatype Parts = Parts(tools: Tools, inputs: Declarations, contexts: Declarations, block: LoweredBlock)

  function PartsOf(catalog: Catalog, ast: AstSkill): Parts
    requires Compile(catalog, ast).Ok?
  {
    var tools := ResolveTools(catalog, ast.requires_).value;
    var inputs := DeclareSpecs(ast.inputs, ROOT_TABLE).value;
    var contexts := DeclareSpecs(ast.contexts, inputs.table).value;
    Parts(tools, inputs, contexts, LowerBlock(tools, ast.outputs, ast.body, LState(contexts.table, map[])).value)
  }

  lemma CompiledFromParts(catalog: Catalog, ast: AstSkill)
    requires Compile(catalog, ast).Ok?
    ensures var p := PartsOf(catalog, ast); var skill := Compile(catalog, ast).value;
      && ResolveTools(catalog, ast.requires_) == Ok(p.tools)
      && DeclareSpecs(ast.inputs, ROOT_TABLE) == Ok(p.inputs)
      && p.inputs.table.frames != [] && DeclareSpecs(ast.contexts, p.inputs.table) == Ok(p.contexts)
      && p.contexts.table.frames != [] && LowerBlock(p.tools, ast.outputs, ast.body, LState(p.contexts.table, map[])) == Ok(p.block)
      && Distinct(OutputNameSeq(ast.outputs))
      && skill.tools == ContractsByRef(p.tools) && skill.limits == ast.limits && skill.outputs == ast.outputs
      && skill.inputs == p.inputs.specs && skill.contexts == p.contexts.specs && skill.body == p.block.stmts
      && skill.bound == BlockBound(skill.body) && Bounded(skill.body)
      && Fits(Meter(0, 0, 0, 0), skill.bound, skill.limits)
  {
    hide LowerBlock, BlockBound, Bounded, DeclareSpecs, ResolveTools, Distinct;
  }

  function StartScope(p: Parts): Typing.Scope {
    SpecScope(p.contexts.specs, SpecScope(p.inputs.specs, map[]))
  }

  lemma FieldsOfSpecs(fields: seq<AstField>, t: Table)
    requires t.frames != [] && DeclareSpecs(fields, t).Ok?
    ensures Fields(DeclareSpecs(fields, t).value.specs) == fields
  {
  }

  // Declarations are numbered consecutively.
  lemma {:induction false} DeclaredSymbolsFollow(fields: seq<AstField>, t: Table)
    requires t.frames != [] && DeclareSpecs(fields, t).Ok?
    ensures var d := DeclareSpecs(fields, t).value;
      d.table.symbolCounter == t.symbolCounter + |fields| &&
      forall i | 0 <= i < |fields| :: d.specs[i].symbol == t.symbolCounter + 1 + i
    decreases |fields|
  {
    if fields != [] {
      var f := fields[0];
      DeclaredSymbolsFollow(fields[1..], Declared(t, f.name, VALUE, f.ty, f.cls));
    }
  }

  lemma CompiledSymbolsDistinct(catalog: Catalog, ast: AstSkill)
    requires Compile(catalog, ast).Ok?
    ensures SymbolsDistinct(Compile(catalog, ast).value.inputs + Compile(catalog, ast).value.contexts)
  {
    CompiledFromParts(catalog, ast);
    DeclaredSymbolsFollow(ast.inputs, ROOT_TABLE);
    DeclaredSymbolsFollow(ast.contexts, PartsOf(catalog, ast).inputs.table);
    hide Compile, PartsOf, DeclareSpecs, LowerBlock, ResolveTools, BlockBound, Bounded;
  }

  // A run starts with exactly the declared symbols bound, tagged as declared, in the code as in the source.
  lemma {:induction false} RunsStartAlike(catalog: Catalog, ast: AstSkill, request: Request, deep: bool)
    requires Compile(catalog, ast).Ok?
    requires deep ==> InputsConform(ast.inputs, request.inputs) && ContextConforms(ast.contexts, request.context)
    ensures var p := PartsOf(catalog, ast); var skill := Compile(catalog, ast).value;
      match Start(skill, request)
      case Err(f) => SourceStart(ast, request) == Err(f)
      case Ok(s) =>
        && SourceStart(ast, request).Ok?
        && var q := SourceStart(ast, request).value;
          && s.w == q.w && s.depth == q.depth == 0 && |q.scopes| == 1
          && Started(p.contexts.table, StartScope(p), q.scopes[0], s.b, deep)
  {
    hide DeclareSpecs, LowerBlock, ResolveTools, BlockBound, Bounded, Started;
    var p := PartsOf(catalog, ast);
    var skill := Compile(catalog, ast).value;
    CompiledFromParts(catalog, ast);
    FieldsOfSpecs(ast.inputs, ROOT_TABLE);
    FieldsOfSpecs(ast.contexts, p.inputs.table);
    CompiledSymbolsDistinct(catalog, ast);
    hide Compile, PartsOf, SymbolsDistinct;
    if Start(skill, request).Ok? {
      var inputs := AdmitInputs(ast.limits, ast.inputs, request.inputs, 0).value;
      var contexts := AdmitContexts(ast.limits, ast.contexts, request.context, inputs.seen).value;
      InputsAreTagged(ast.limits, ast.inputs, request.inputs, 0, deep);
      ContextsAreTagged(ast.limits, ast.contexts, request.context, inputs.seen, deep);
      hide AdmitInputs, AdmitContexts, Started, InputsConform, ContextConforms;
      AdmittedValuesStart(catalog, ast, inputs.values, contexts.values, deep);
    }
  }

  // The bindings and the source scope that admitted values make.
  lemma {:induction false} AdmittedValuesStart(catalog: Catalog, ast: AstSkill, inputs: seq<Envelope>, contexts: seq<Envelope>, deep: bool)
    requires Compile(catalog, ast).Ok? && TaggedAs(ast.inputs, inputs, deep) && TaggedAs(ast.contexts, contexts, deep)
    ensures var p := PartsOf(catalog, ast);
      var b := Bindings(BindAll(p.inputs.specs, inputs, map[]), BindAll(p.contexts.specs, contexts, map[]), [map[]], [map[]]);
      Started(p.contexts.table, StartScope(p), DefineAll(ast.contexts, contexts, DefineAll(ast.inputs, inputs, map[])), b, deep)
  {
    var p := PartsOf(catalog, ast);
    CompiledFromParts(catalog, ast);
    hide Compile, PartsOf, LowerBlock, ResolveTools, BlockBound, Bounded, Started;
    assert Wrapped(p.inputs.specs, inputs, deep);
    assert Wrapped(p.contexts.specs, contexts, deep);
    RootStarts(deep);
    var b0 := Bindings(map[], map[], [map[]], [map[]]);
    SpecsStart(ast.inputs, ROOT_TABLE, map[], map[], b0, inputs, false, deep);
    var b1 := b0.(inputs := BindAll(p.inputs.specs, inputs, map[]));
    SpecsStart(ast.contexts, p.inputs.table, SpecScope(p.inputs.specs, map[]), DefineAll(ast.inputs, inputs, map[]), b1, contexts, true, deep);
  }

  // ---------- the theorems ----------

  ghost predicate SameAuthorizations(tools: Tools, authorized: set<string>, refs: set<ToolRef>) {
    forall id | id in tools :: id in authorized <==> tools[id].ref in refs
  }

  lemma ContractsFit(tools: Tools, outputs: seq<OutputField>)
    requires forall a, b | a in tools && b in tools && tools[a].ref == tools[b].ref :: a == b
    ensures SignatureFits(tools, Signature(ContractsByRef(tools), outputs))
  {
    forall id | id in tools ensures tools[id].ref in ContractsByRef(tools) && ContractsByRef(tools)[tools[id].ref] == tools[id].contract {
    }
  }

  lemma {:induction false} StartIsReady(tools: Tools, source: Source.SourceEnv, env: Env, t: Table, g: Typing.Scope, scopes: seq<Source.Scope>, b: Bindings)
    requires SameSurroundings(tools, source, env) && |scopes| == 1 && Started(t, g, scopes[0], b, false)
    ensures Ready(tools, source, env, t, g, scopes, b)
  {
    assert scopes == [scopes[0]];
  }

  lemma SurroundingsAgree(catalog: Catalog, ast: AstSkill, authorized: set<string>, refs: set<ToolRef>, port: Port)
    requires Compile(catalog, ast).Ok? && SameAuthorizations(PartsOf(catalog, ast).tools, authorized, refs)
    ensures var p := PartsOf(catalog, ast);
      SameSurroundings(p.tools, SourceEnvOf(p.tools, ast, authorized, port), EnvOf(Compile(catalog, ast).value, refs, port))
  {
    ContractsFit(PartsOf(catalog, ast).tools, ast.outputs);
  }

  // The two runs of a body, from where a request starts them.
  lemma {:induction false} BodiesMeanTheSame(catalog: Catalog, ast: AstSkill, request: Request, authorized: set<string>, refs: set<ToolRef>, port: Port)
    requires Compile(catalog, ast).Ok? && PlainBody(ast.body)
    requires SameAuthorizations(PartsOf(catalog, ast).tools, authorized, refs)
    requires Start(Compile(catalog, ast).value, request).Ok? && SourceStart(ast, request).Ok?
    requires SourceStart(ast, request).value.scopes != []
    ensures var p := PartsOf(catalog, ast); var skill := Compile(catalog, ast).value;
      var source := SourceEnvOf(p.tools, ast, authorized, port); var env := EnvOf(skill, refs, port);
      SameOutcome(p.tools, source, env, p.block.state.table, ScopeAfterBlock(SignatureOf(env), StartScope(p), skill.body),
        ExecBlock(env, skill.body, Start(skill, request).value), Source.RunBlock(source, ast.body, SourceStart(ast, request).value))
  {
    RunsStartAlike(catalog, ast, request, false);
    SurroundingsAgree(catalog, ast, authorized, refs, port);
    CompiledFromParts(catalog, ast);
    hide Compile, PartsOf, LowerBlock, DeclareSpecs, ExecBlock, Source.RunBlock, Start, SourceStart, PlainBody, SameSurroundings;
    var p := PartsOf(catalog, ast);
    var skill := Compile(catalog, ast).value;
    var s := Start(skill, request).value;
    var q := SourceStart(ast, request).value;
    var source := SourceEnvOf(p.tools, ast, authorized, port);
    var env := EnvOf(skill, refs, port);
    StartIsReady(p.tools, source, env, p.contexts.table, StartScope(p), q.scopes, s.b);
    assert Distinct(OutputNameSeq(env.outputs)) && skill.body == p.block.stmts && Framed(s.b);
    var lowering := LState(p.contexts.table, map[]);
    assert p.contexts.table.frames != [] && LowerBlock(p.tools, env.outputs, ast.body, lowering) == Ok(p.block);
    hide *;
    BlockMeansTheSame(p.tools, source, env, ast.body, lowering, StartScope(p), s, q);
  }

  // Compilation preserves meaning: the compiled skill and its source accept the same requests,
  // stop alike, and leave the same checks, rows, meters, completeness and tool-call trace, and
  // every name visible at the end holds what its symbol resolves to.
  lemma {:induction false} CompilationPreservesMeaning(catalog: Catalog, ast: AstSkill, request: Request, authorized: set<string>, refs: set<ToolRef>, port: Port)
    requires Compile(catalog, ast).Ok? && PlainBody(ast.body)
    requires SameAuthorizations(PartsOf(catalog, ast).tools, authorized, refs)
    ensures match Execute(Compile(catalog, ast).value, request, refs, port)
      case Err(f) => SourceExecute(PartsOf(catalog, ast).tools, ast, request, authorized, port) == Err(f)
      case Ok(r) =>
        && SourceExecute(PartsOf(catalog, ast).tools, ast, request, authorized, port).Ok?
        && var q := SourceExecute(PartsOf(catalog, ast).tools, ast, request, authorized, port).value;
          && r.error == q.error && r.s.w == q.s.w
          && (r.error.None? ==> Matches(PartsOf(catalog, ast).block.state.table, q.s.scopes, r.s.b))
  {
    RunsStartAlike(catalog, ast, request, false);
    if Start(Compile(catalog, ast).value, request).Ok? {
      BodiesMeanTheSame(catalog, ast, request, authorized, refs, port);
    }
    hide ExecBlock, Source.RunBlock, Compile, PartsOf, Started, Start, SourceStart;
  }

  lemma {:induction false} CompiledBodyIsTyped(catalog: Catalog, ast: AstSkill, refs: set<ToolRef>, port: Port)
    requires Compile(catalog, ast).Ok? && PlainBody(ast.body)
    ensures WellTypedBlock(SignatureOf(EnvOf(Compile(catalog, ast).value, refs, port)), StartScope(PartsOf(catalog, ast)), Compile(catalog, ast).value.body)
  {
    CompiledFromParts(catalog, ast);
    var p := PartsOf(catalog, ast);
    var skill := Compile(catalog, ast).value;
    RootStarts(false);
    assert StartScope(p) == SpecScope(p.contexts.specs, SpecScope(p.inputs.specs, map[]));
    var sig := SignatureOf(EnvOf(skill, refs, port));
    assert sig == Signature(skill.tools, skill.outputs);
    assert Unambiguous(ROOT_TABLE) && Describes(ROOT_TABLE, map[]);
    hide *;
    ContractsFit(p.tools, ast.outputs);
    SpecsAreDescribed(ast.inputs, ROOT_TABLE, map[]);
    SpecsAreDescribed(ast.contexts, p.inputs.table, SpecScope(p.inputs.specs, map[]));
    LoweredBlockIsTyped(p.tools, sig, ast.body, LState(p.contexts.table, map[]), StartScope(p));
  }

  lemma {:induction false} SpecsAreDescribed(fields: seq<AstField>, t: Table, g: Typing.Scope)
    requires Unambiguous(t) && Describes(t, g) && DeclareSpecs(fields, t).Ok?
    ensures var d := DeclareSpecs(fields, t).value; Unambiguous(d.table) && Describes(d.table, SpecScope(d.specs, g))
    decreases |fields|
  {
    if fields != [] {
      var f := fields[0];
      DeclaringDescribes(t, g, f.name, VALUE, f.ty, f.cls);
      var next := Declared(t, f.name, VALUE, f.ty, f.cls);
      var rest := DeclareSpecs(fields[1..], next).value;
      assert DeclareSpecs(fields, t).value.specs[1..] == rest.specs;
      hide Unambiguous, Describes;
      SpecsAreDescribed(fields[1..], next, g[t.symbolCounter + 1 := Tag(f.ty, f.cls)]);
    }
  }

  // Type safety of compiled skills: on any request no name, binding, type, classification or
  // schema error is reachable; on conforming requests no conformance error either, and every
  // emitted row fits the declared output schema.
  lemma {:induction false} CompiledSkillIsTypeSafe(catalog: Catalog, ast: AstSkill, request: Request, refs: set<ToolRef>, port: Port, deep: bool)
    requires Compile(catalog, ast).Ok? && PlainBody(ast.body)
    requires deep ==> InputsConform(ast.inputs, request.inputs) && ContextConforms(ast.contexts, request.context)
    requires Execute(Compile(catalog, ast).value, request, refs, port).Ok?
    ensures var r := Execute(Compile(catalog, ast).value, request, refs, port).value;
      && RowsFit(ast.outputs, r.s.w.outputs, deep)
      && (r.error.Some? ==> !RuledOut(r.error.value, deep))
      && (r.error.None? ==> ScopeHolds(ScopeAfterBlock(SignatureOf(EnvOf(Compile(catalog, ast).value, refs, port)), StartScope(PartsOf(catalog, ast)), Compile(catalog, ast).value.body), r.s.b, deep))
  {
    CompiledBodyIsTyped(catalog, ast, refs, port);
    CompiledRunStarts(catalog, ast, request, refs, port, deep);
    hide *;
    var skill := Compile(catalog, ast).value;
    WellTypedRunIsSafe(EnvOf(skill, refs, port), StartScope(PartsOf(catalog, ast)), skill.body, Start(skill, request).value, deep);
  }

  // A run that starts executes the compiled body from bindings that match its static scope.
  lemma {:induction false} CompiledRunStarts(catalog: Catalog, ast: AstSkill, request: Request, refs: set<ToolRef>, port: Port, deep: bool)
    requires Compile(catalog, ast).Ok?
    requires deep ==> InputsConform(ast.inputs, request.inputs) && ContextConforms(ast.contexts, request.context)
    requires Execute(Compile(catalog, ast).value, request, refs, port).Ok?
    ensures var skill := Compile(catalog, ast).value; var env := EnvOf(skill, refs, port);
      && Start(skill, request).Ok? && env.outputs == ast.outputs
      && var s := Start(skill, request).value;
        && Framed(s.b) && ScopeHolds(StartScope(PartsOf(catalog, ast)), s.b, deep)
        && RowsFit(env.outputs, s.w.outputs, deep)
        && Execute(skill, request, refs, port) == Ok(ExecBlock(env, skill.body, s))
  {
    CompiledFromParts(catalog, ast);
    hide *;
    ExecuteRunsTheBody(Compile(catalog, ast).value, request, refs, port, deep);
    StartedScopeHolds(catalog, ast, request, deep);
  }

  lemma ExecuteRunsTheBody(skill: Skill, request: Request, refs: set<ToolRef>, port: Port, deep: bool)
    requires Execute(skill, request, refs, port).Ok?
    ensures Start(skill, request).Ok? && EnvOf(skill, refs, port).outputs == skill.outputs
    ensures Execute(skill, request, refs, port) == Ok(ExecBlock(EnvOf(skill, refs, port), skill.body, Start(skill, request).value))
    ensures RowsFit(skill.outputs, Start(skill, request).value.w.outputs, deep)
  {
    hide ExecBlock;
  }

  lemma {:induction false} StartedScopeHolds(catalog: Catalog, ast: AstSkill, request: Request, deep: bool)
    requires Compile(catalog, ast).Ok? && Start(Compile(catalog, ast).value, request).Ok?
    requires deep ==> InputsConform(ast.inputs, request.inputs) && ContextConforms(ast.contexts, request.context)
    ensures ScopeHolds(StartScope(PartsOf(catalog, ast)), Start(Compile(catalog, ast).value, request).value.b, deep)
  {
    hide Compile, PartsOf, Start, ScopeHolds, Unambiguous, Describes, Matches, SourceStart, StartScope, InputsConform, ContextConforms;
    RunsStartAlike(catalog, ast, request, deep);
  }

  // The static resource bounds of an accepted skill hold in every run of it.
  lemma {:induction false} CompiledSkillKeepsItsLimits(catalog: Catalog, ast: AstSkill, request: Request, refs: set<ToolRef>, port: Port)
    requires Compile(catalog, ast).Ok? && Execute(Compile(catalog, ast).value, request, refs, port).Ok?
    ensures var r := Execute(Compile(catalog, ast).value, request, refs, port).value;
      && (r.error.Some? ==> !CountLimit(r.error.value))
      && r.s.w.meter.toolCalls <= Compile(catalog, ast).value.bound.toolCalls <= ast.limits.toolCalls
      && r.s.w.meter.loopIterations <= Compile(catalog, ast).value.bound.loopIterations <= ast.limits.loopIterations
      && r.s.w.meter.emittedRows <= Compile(catalog, ast).value.bound.emitRecords <= ast.limits.emittedRows
  {
    hide ExecBlock, BlockBound, Bounded, DeclareSpecs, LowerBlock, ResolveTools;
    var skill := Compile(catalog, ast).value;
    var s := Start(skill, request).value;
    CompiledFromParts(catalog, ast);
    var env := EnvOf(skill, refs, port);
    FreshMeter(skill, request);
    assert Execute(skill, request, refs, port).value == ExecBlock(env, skill.body, s);
    assert env.limits == skill.limits == ast.limits && skill.bound == BlockBound(skill.body);
    assert Fits(s.w.meter, BlockBound(skill.body), env.limits);
    hide *;
    AcceptedBodyKeepsItsLimits(env, skill.body, s);
  }

  lemma FreshMeter(skill: Skill, request: Request)
    requires Start(skill, request).Ok?
    ensures var s := Start(skill, request).value;
      Framed(s.b) && s.w.meter.toolCalls == s.w.meter.loopIterations == s.w.meter.emittedRows == 0
  {
  }
}
