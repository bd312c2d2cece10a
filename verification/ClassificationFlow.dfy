// No classification is ever lowered: a value is classified as its most classified source, names every
// invocation it came from, and reaches an output only if all its sources may.

module ClassificationFlow {
  import opened Wrappers
  import opened Core
  import opened Failures
  import opened Operators
  import opened Ir
  import opened Semantics
  import opened Effects
  import opened Symbols
  import opened Ast
  import opened Compiler
  import opened Execution
  import opened Typing
  import opened LoweringTyped
  import opened CompiledSkills

  // ---------- the order ----------

  // PUBLIC, INTERNAL, CONFIDENTIAL, RESTRICTED.
  predicate NoMoreThan(a: Classification, b: Classification) {
    match a
    case PUBLIC => true
    case INTERNAL => b != PUBLIC
    case CONFIDENTIAL => b == CONFIDENTIAL || b == RESTRICTED
    case RESTRICTED => b == RESTRICTED
  }

  lemma AllowsIsTheOrder(a: Classification, b: Classification)
    ensures Allows(a, b) <==> NoMoreThan(a, b)
  {
  }

  // The classification is that of one of them, and no lower than any.
  ghost predicate IsHighest(c: Classification, classes: seq<Classification>) {
    c in classes && forall i | 0 <= i < |classes| :: NoMoreThan(classes[i], c)
  }

  lemma HighestOfBoth(a: Classification, b: Classification, xs: seq<Classification>, ys: seq<Classification>)
    requires IsHighest(a, xs) && IsHighest(b, ys)
    ensures IsHighest(Highest(a, b), xs + ys)
  {
    var c := Highest(a, b);
    assert NoMoreThan(a, c) && NoMoreThan(b, c) && (c == a || c == b);
    forall i | 0 <= i < |xs + ys| ensures NoMoreThan((xs + ys)[i], c) {
    }
    var i :| 0 <= i < |xs| && xs[i] == a;
    var j :| 0 <= j < |ys| && ys[j] == b;
    assert (xs + ys)[i] == a && (xs + ys)[|xs| + j] == b;
  }

  // ---------- where a value comes from ----------

  datatype Leaf = Leaf(cls: Classification, prov: seq<Provenance>)

  function LastReply(trace: seq<ToolEvent>): Leaf {
    if trace != [] && trace[|trace| - 1].reply.Returned? then
      var t := trace[|trace| - 1].reply.result;
      Leaf(t.cls, [Provenance(t.invocation, t.digest)])
    else Leaf(PUBLIC, [])
  }

  // The literals, bound symbols and read results that data flows from. The arguments of a read are no
  // sources of its result.
  function Leaves(env: Env, b: Bindings, e: Expr, w: Ledger): seq<Leaf>
    decreases e
  {
    match e
    case Literal(_, _, _) => [Leaf(PUBLIC, [])]
    case SymbolRef(_, symbol, _) => (match Resolve(b, symbol) case Some(x) => [Leaf(x.cls, x.prov)] case None => [])
    case Field(_, source, _, _) => Leaves(env, b, source, w)
    case Projection(_, source, _, _) => Leaves(env, b, source, w)
    case Call(_, _, operands, _) => if operands == [] then [] else Leaves(env, b, operands[0], w)
    case Binary(_, _, left, right, _) => Leaves(env, b, left, w) + Leaves(env, b, right, EvalExpr(env, b, left, w).w)
    case Read(_, _, _, _, _) => [LastReply(EvalExpr(env, b, e, w).w.trace)]
    case Write(_, _, _, _, _) => []
  }

  function Classes(leaves: seq<Leaf>): (r: seq<Classification>)
    ensures |r| == |leaves| && forall i | 0 <= i < |r| :: r[i] == leaves[i].cls
  {
    seq(|leaves|, i requires 0 <= i < |leaves| => leaves[i].cls)
  }

  // The references are just those of the leaves.
  ghost predicate Names(prov: seq<Provenance>, leaves: seq<Leaf>) {
    forall p :: p in prov <==> exists i :: 0 <= i < |leaves| && p in leaves[i].prov
  }

  lemma {:induction false} DedupKeeps(refs: seq<Provenance>)
    ensures Distinct(Dedup(refs)) && forall p :: p in Dedup(refs) <==> p in refs
    decreases |refs|
  {
    if refs != [] {
      DedupKeeps(refs[..|refs| - 1]);
      assert refs == refs[..|refs| - 1] + [refs[|refs| - 1]];
    }
  }

  // It is kept where it first stands.
  predicate FirstAt(refs: seq<Provenance>, p: Provenance, i: nat) {
    i < |refs| && refs[i] == p && p !in refs[..i]
  }

  // Each reference is kept once, in the order of first occurrence.
  lemma {:induction false} DedupKeepsOrder(refs: seq<Provenance>) returns (at: seq<nat>)
    ensures |at| == |Dedup(refs)| && forall k | 0 <= k < |at| :: FirstAt(refs, Dedup(refs)[k], at[k])
    ensures forall j, k | 0 <= j < k < |at| :: at[j] < at[k]
    decreases |refs|
  {
    if refs == [] {
      return [];
    }
    var n := |refs| - 1;
    var front := refs[..n];
    at := DedupKeepsOrder(front);
    DedupKeeps(front);
    forall k | 0 <= k < |at| ensures FirstAt(refs, Dedup(front)[k], at[k]) {
      assert FirstAt(front, Dedup(front)[k], at[k]) && refs[..at[k]] == front[..at[k]];
    }
    if refs[n] !in Dedup(front) {
      at := at + [n];
      assert FirstAt(refs, refs[n], n);
    }
  }

  lemma NamesOfBoth(a: seq<Provenance>, b: seq<Provenance>, xs: seq<Leaf>, ys: seq<Leaf>)
    requires Names(a, xs) && Names(b, ys)
    ensures Names(Dedup(a + b), xs + ys)
  {
    DedupKeeps(a + b);
    forall p ensures p in Dedup(a + b) <==> exists i :: 0 <= i < |xs + ys| && p in (xs + ys)[i].prov {
      if p in a {
        var i :| 0 <= i < |xs| && p in xs[i].prov;
        assert (xs + ys)[i] == xs[i];
      }
      if p in b {
        var i :| 0 <= i < |ys| && p in ys[i].prov;
        assert (xs + ys)[|xs| + i] == ys[i];
      }
      if i :| 0 <= i < |xs + ys| && p in (xs + ys)[i].prov {
        if i < |xs| {
          assert p in xs[i].prov && p in a;
        } else {
          assert p in ys[i - |xs|].prov && p in b;
        }
      }
    }
  }

  ghost predicate Carries(x: Envelope, leaves: seq<Leaf>) {
    IsHighest(x.cls, Classes(leaves)) && Names(x.prov, leaves)
  }

  lemma CarriesOne(x: Envelope, leaf: Leaf)
    requires x.cls == leaf.cls && x.prov == leaf.prov
    ensures Carries(x, [leaf])
  {
    assert Classes([leaf]) == [leaf.cls];
    forall p ensures p in x.prov <==> exists i :: 0 <= i < |[leaf]| && p in [leaf][i].prov {
      if p in x.prov {
        assert p in [leaf][0].prov;
      }
    }
  }

  // A value is classified as the most classified of its sources, and refers to all their invocations.
  lemma {:induction false} ValueCarriesItsLeaves(env: Env, b: Bindings, e: Expr, w: Ledger)
    requires EvalExpr(env, b, e, w).res.Ok?
    ensures Carries(EvalExpr(env, b, e, w).res.value, Leaves(env, b, e, w))
    decreases e
  {
    hide CallTool, EvaluateBuiltin, ApplyBinary, Carries, Resolve, IsBound;
    match e
    case Literal(_, v, ty) => CarriesOne(EvalExpr(env, b, e, w).res.value, Leaf(PUBLIC, []));
    case SymbolRef(_, symbol, _) =>
      var x := Resolve(b, symbol).value;
      CarriesOne(x, Leaf(x.cls, x.prov));
    case Field(_, source, _, _) => SourceIsCarried(env, b, e, w);
    case Projection(_, source, _, _) => SourceIsCarried(env, b, e, w);
    case Call(_, _, _, _) => OperandIsCarried(env, b, e, w);
    case Binary(_, _, left, right, _) =>
      var l := EvalExpr(env, b, left, w);
      ValueCarriesItsLeaves(env, b, left, w);
      ValueCarriesItsLeaves(env, b, right, l.w);
      BothAreCarried(env, b, e, w);
    case Read(_, tool, arguments, _, policy) =>
      var r := EvalArguments(env, b, arguments, w);
      var x := EvalExpr(env, b, e, w);
      hide EvalArguments;
      ReplyIsCarried(env, env.tools[tool], r.res.value, policy, r.w);
      CarriesOne(x.res.value, LastReply(x.w.trace));
  }

  lemma {:induction false} SourceIsCarried(env: Env, b: Bindings, e: Expr, w: Ledger)
    requires (e.Field? || e.Projection?) && EvalExpr(env, b, e, w).res.Ok?
    ensures Carries(EvalExpr(env, b, e, w).res.value, Leaves(env, b, e, w))
    decreases e, 0
  {
    ValueCarriesItsLeaves(env, b, e.source, w);
    var x, y := EvalExpr(env, b, e.source, w).res.value, EvalExpr(env, b, e, w).res.value;
    assert x.cls == y.cls && x.prov == y.prov;
    hide IsHighest, Names;
  }

  lemma {:induction false} OperandIsCarried(env: Env, b: Bindings, e: Expr, w: Ledger)
    requires e.Call? && EvalExpr(env, b, e, w).res.Ok?
    ensures Carries(EvalExpr(env, b, e, w).res.value, Leaves(env, b, e, w))
    decreases e, 0
  {
    hide EvaluateBuiltin;
    var xs := EvalOperands(env, b, e.operands, w).res.value;
    OnlyOperand(e.function_, xs, e.ty);
    var x, y := EvalExpr(env, b, e.operands[0], w).res.value, EvalExpr(env, b, e, w).res.value;
    assert xs[0] == x;
    ValueCarriesItsLeaves(env, b, e.operands[0], w);
    assert x.cls == y.cls && x.prov == y.prov;
    hide IsHighest, Names;
  }

  lemma OnlyOperand(f: Builtin, xs: seq<Envelope>, ty: Type)
    ensures ApplyCall(f, xs, ty).Ok? ==> |xs| == 1 && ApplyCall(f, xs, ty).value.cls == xs[0].cls && ApplyCall(f, xs, ty).value.prov == xs[0].prov
  {
  }

  lemma {:induction false} BothAreCarried(env: Env, b: Bindings, e: Expr, w: Ledger)
    requires e.Binary? && EvalExpr(env, b, e, w).res.Ok?
    requires var l := EvalExpr(env, b, e.left, w); var r := EvalExpr(env, b, e.right, l.w);
      && l.res.Ok? && r.res.Ok?
      && Carries(l.res.value, Leaves(env, b, e.left, w)) && Carries(r.res.value, Leaves(env, b, e.right, l.w))
    ensures Carries(EvalExpr(env, b, e, w).res.value, Leaves(env, b, e, w))
  {
    hide ApplyBinary;
    var l := EvalExpr(env, b, e.left, w);
    var r := EvalExpr(env, b, e.right, l.w);
    var xs, ys := Leaves(env, b, e.left, w), Leaves(env, b, e.right, l.w);
    HighestOfBoth(l.res.value.cls, r.res.value.cls, Classes(xs), Classes(ys));
    NamesOfBoth(l.res.value.prov, r.res.value.prov, xs, ys);
    assert Classes(xs + ys) == Classes(xs) + Classes(ys);
    var v := EvalExpr(env, b, e, w).res.value;
    assert v.cls == Highest(l.res.value.cls, r.res.value.cls) && v.prov == Dedup(l.res.value.prov + r.res.value.prov);
    hide IsHighest, Names, Highest, EvalExpr;
  }

  lemma ReplyIsCarried(env: Env, contract: Contract, args: seq<NamedEnvelope>, policy: ResultPolicy, w: Ledger)
    ensures var r := CallTool(env, contract, args, policy, w);
      r.res.Ok? ==>
        && r.res.value.cls == LastReply(r.w.trace).cls == contract.outputClass && r.res.value.prov == LastReply(r.w.trace).prov
        && r.w.trace != [] && r.w.trace[|r.w.trace| - 1].request.invocation == r.w.invocations
        && r.res.value.prov[0].invocation == r.w.invocations
  {
  }

  // ---------- what reaches the outputs ----------

  ghost predicate AllMay(leaves: seq<Leaf>, maximum: Classification) {
    forall i | 0 <= i < |leaves| :: NoMoreThan(leaves[i].cls, maximum)
  }

  lemma HighestMay(x: Envelope, leaves: seq<Leaf>, maximum: Classification)
    requires Carries(x, leaves)
    ensures Allows(x.cls, maximum) <==> AllMay(leaves, maximum)
  {
    AllowsIsTheOrder(x.cls, maximum);
    if AllMay(leaves, maximum) {
      var i :| 0 <= i < |Classes(leaves)| && Classes(leaves)[i] == x.cls;
      assert NoMoreThan(leaves[i].cls, maximum);
    } else {
      var i :| 0 <= i < |leaves| && !NoMoreThan(leaves[i].cls, maximum);
      assert NoMoreThan(Classes(leaves)[i], x.cls);
    }
  }

  // Every source of every field may reach the field's output.
  ghost predicate FieldsMay(env: Env, b: Bindings, fields: seq<Argument>, w: Ledger)
    requires forall i | 0 <= i < |fields| :: fields[i].name in OutputNames(env.outputs)
    decreases |fields|
  {
    fields == []
    || (AllMay(Leaves(env, b, fields[0].value, w), LookupOutput(env.outputs, fields[0].name).cls)
        && FieldsMay(env, b, fields[1..], EvalExpr(env, b, fields[0].value, w).w))
  }

  // A row is emitted only if all sources of all its fields may reach their outputs, and is refused for
  // its classification only if one of them may not.
  lemma {:induction false} EmittedSourcesMay(env: Env, b: Bindings, fields: seq<Argument>, w: Ledger)
    requires forall i | 0 <= i < |fields| :: fields[i].name in OutputNames(env.outputs)
    ensures EmitFields(env, b, fields, w).res.Ok? ==> FieldsMay(env, b, fields, w)
    ensures EmitFields(env, b, fields, w).res == Err(EmitClassification) ==> !FieldsMay(env, b, fields, w)
    decreases |fields|
  {
    if fields != [] {
      var r := EvalExpr(env, b, fields[0].value, w);
      NoClassificationFault(env, b, fields[0].value, w);
      if r.res.Ok? {
        ValueCarriesItsLeaves(env, b, fields[0].value, w);
        HighestMay(r.res.value, Leaves(env, b, fields[0].value, w), LookupOutput(env.outputs, fields[0].name).cls);
      }
      EmittedSourcesMay(env, b, fields[1..], r.w);
      hide EvalExpr, Leaves, AllMay, Carries, Allows;
    }
  }

  lemma {:induction false} NoClassificationFault(env: Env, b: Bindings, e: Expr, w: Ledger)
    ensures EvalExpr(env, b, e, w).res != Err(EmitClassification)
    decreases e, 1
  {
    hide ApplyBinary, EvaluateBuiltin, Elements, Dedup, Conforms, Resolve;
    match e
    case Literal(_, _, _) =>
    case SymbolRef(_, _, _) =>
    case Field(_, source, _, _) => NoClassificationFault(env, b, source, w);
    case Projection(_, source, _, _) => NoClassificationFault(env, b, source, w);
    case Call(_, _, operands, _) => OperandsNoFault(env, b, operands, w);
    case Binary(_, _, left, right, _) =>
      NoClassificationFault(env, b, left, w);
      NoClassificationFault(env, b, right, EvalExpr(env, b, left, w).w);
    case Read(_, _, arguments, _, _) => ArgumentsNoFault(env, b, arguments, w);
    case Write(_, _, _, _, _) =>
  }

  lemma {:induction false} OperandsNoFault(env: Env, b: Bindings, es: seq<Expr>, w: Ledger)
    ensures EvalOperands(env, b, es, w).res != Err(EmitClassification)
    decreases es, 0
  {
    hide EvalExpr;
    if es != [] {
      NoClassificationFault(env, b, es[0], w);
      OperandsNoFault(env, b, es[1..], EvalExpr(env, b, es[0], w).w);
    }
  }

  lemma {:induction false} ArgumentsNoFault(env: Env, b: Bindings, args: seq<Argument>, w: Ledger)
    ensures EvalArguments(env, b, args, w).res != Err(EmitClassification)
    decreases args, 0
  {
    hide EvalExpr;
    if args != [] {
      NoClassificationFault(env, b, args[0].value, w);
      ArgumentsNoFault(env, b, args[1..], EvalExpr(env, b, args[0].value, w).w);
    }
  }

  // The same for the statement: it stops for a classification exactly when a source may not pass,
  // unless it stops for something else first.
  lemma EmitStatementsMay(env: Env, stmt: Stmt, s: State)
    requires stmt.Emit? && Framed(s.b) && EmitSchemaOk(env.outputs, stmt.fields)
    ensures forall i | 0 <= i < |stmt.fields| :: stmt.fields[i].name in OutputNames(env.outputs)
    ensures var r := ExecStmt(env, stmt, s);
      && (r.error.None? ==> FieldsMay(env, s.b, stmt.fields, s.w))
      && (r.error == Some(EmitClassification) ==> !FieldsMay(env, s.b, stmt.fields, s.w))
  {
    SchemaNamesKnown(env.outputs, stmt.fields);
    EmittedSourcesMay(env, s.b, stmt.fields, s.w);
    hide EmitFields, FieldsMay;
  }

  // In every run of an accepted skill, whatever it is emitted under is classified at least as high.
  lemma {:induction false} NothingIsDeclassified(catalog: Catalog, ast: AstSkill, request: Request, refs: set<ToolRef>, port: Port)
    requires Compile(catalog, ast).Ok? && PlainBody(ast.body)
    requires Execute(Compile(catalog, ast).value, request, refs, port).Ok?
    ensures var rows := Execute(Compile(catalog, ast).value, request, refs, port).value.s.w.outputs;
      forall k, i | 0 <= k < |rows| && 0 <= i < |ast.outputs| ::
        ast.outputs[i].name in rows[k] && NoMoreThan(rows[k][ast.outputs[i].name].cls, ast.outputs[i].cls)
  {
    CompiledSkillIsTypeSafe(catalog, ast, request, refs, port, false);
    hide Compile, Execute, PartsOf, PlainBody;
    var rows: seq<Row> := Execute(Compile(catalog, ast).value, request, refs, port).value.s.w.outputs;
    forall k, i | 0 <= k < |rows| && 0 <= i < |ast.outputs|
      ensures ast.outputs[i].name in rows[k] && NoMoreThan(rows[k][ast.outputs[i].name].cls, ast.outputs[i].cls)
    {
      assert RowFits(ast.outputs, rows[k], false);
      assert ast.outputs[i].name in OutputNames(ast.outputs);
      AllowsIsTheOrder(rows[k][ast.outputs[i].name].cls, ast.outputs[i].cls);
    }
  }

  // ---------- what the compiler knows ----------

  // The classifications of the sources an expression names.
  function StaticLeaves(sig: Signature, g: Typing.Scope, e: Expr): seq<Classification>
    decreases e
  {
    match e
    case Literal(_, _, _) => [PUBLIC]
    case SymbolRef(_, symbol, _) => if symbol in g then [g[symbol].cls] else [PUBLIC]
    case Field(_, source, _, _) => StaticLeaves(sig, g, source)
    case Projection(_, source, _, _) => StaticLeaves(sig, g, source)
    case Call(_, _, operands, _) => if operands == [] then [PUBLIC] else StaticLeaves(sig, g, operands[0])
    case Binary(_, _, left, right, _) => StaticLeaves(sig, g, left) + StaticLeaves(sig, g, right)
    case Read(_, tool, _, _, _) => if tool in sig.tools then [sig.tools[tool].outputClass] else [PUBLIC]
    case Write(_, tool, _, _, _) => if tool in sig.tools then [sig.tools[tool].outputClass] else [PUBLIC]
  }

  lemma {:induction false} ClassOfIsHighest(sig: Signature, g: Typing.Scope, e: Expr)
    ensures IsHighest(ClassOf(sig, g, e), StaticLeaves(sig, g, e))
    decreases e
  {
    match e
    case Literal(_, _, _) =>
    case SymbolRef(_, _, _) =>
    case Field(_, source, _, _) => ClassOfIsHighest(sig, g, source);
    case Projection(_, source, _, _) => ClassOfIsHighest(sig, g, source);
    case Call(_, _, operands, _) =>
      if operands != [] {
        ClassOfIsHighest(sig, g, operands[0]);
      }
    case Binary(_, _, left, right, _) =>
      ClassOfIsHighest(sig, g, left);
      ClassOfIsHighest(sig, g, right);
      HighestOfBoth(ClassOf(sig, g, left), ClassOf(sig, g, right), StaticLeaves(sig, g, left), StaticLeaves(sig, g, right));
      hide Highest, IsHighest;
    case Read(_, _, _, _, _) =>
    case Write(_, _, _, _, _) =>
  }

  // The compiler records for an expression the highest classification among its sources.
  lemma {:induction false} CompilerRecordsTheHighest(tools: Tools, sig: Signature, t: Table, g: Typing.Scope, e: AstExpr, n: Nodes)
    requires PlainExpr(e) && Unambiguous(t) && Describes(t, g) && SignatureFits(tools, sig)
    requires LowerExpr(tools, t, e, n).Ok?
    ensures var l := LowerExpr(tools, t, e, n).value; IsHighest(l.cls, StaticLeaves(sig, g, l.expr))
  {
    LoweredExprIsTyped(tools, sig, t, g, e, n);
    ClassOfIsHighest(sig, g, LowerExpr(tools, t, e, n).value.expr);
    hide LowerExpr, ClassOf, StaticLeaves, IsHighest, Describes, Unambiguous;
  }

  // It accepts an EMIT only if no source it names is more classified than the output.
  lemma {:induction false} AcceptedEmitsMay(tools: Tools, sig: Signature, t: Table, g: Typing.Scope, fields: seq<AstArgument>, n: Nodes)
    requires forall i | 0 <= i < |fields| :: PlainExpr(fields[i].value) && fields[i].name in OutputNames(sig.outputs)
    requires Unambiguous(t) && Describes(t, g) && SignatureFits(tools, sig) && LowerFields(tools, t, sig.outputs, fields, n).Ok?
    ensures var l := LowerFields(tools, t, sig.outputs, fields, n).value.arguments;
      |l| == |fields| && forall i | 0 <= i < |l| :: StaticMay(sig, g, l[i].value, LookupOutput(sig.outputs, fields[i].name).cls)
  {
    LoweredFieldsAreTyped(tools, sig, t, g, fields, n);
    var l := LowerFields(tools, t, sig.outputs, fields, n).value.arguments;
    hide LowerFields, Describes, Unambiguous, PlainExpr, WellTyped;
    forall i | 0 <= i < |l| ensures StaticMay(sig, g, l[i].value, LookupOutput(sig.outputs, fields[i].name).cls) {
      var output := LookupOutput(sig.outputs, l[i].name);
      ClassOfIsHighest(sig, g, l[i].value);
      AllowsIsTheOrder(ClassOf(sig, g, l[i].value), output.cls);
      forall k | 0 <= k < |StaticLeaves(sig, g, l[i].value)| ensures NoMoreThan(StaticLeaves(sig, g, l[i].value)[k], output.cls) {
        assert NoMoreThan(StaticLeaves(sig, g, l[i].value)[k], ClassOf(sig, g, l[i].value));
      }
    }
  }

  ghost predicate StaticMay(sig: Signature, g: Typing.Scope, e: Expr, maximum: Classification) {
    forall k | 0 <= k < |StaticLeaves(sig, g, e)| :: NoMoreThan(StaticLeaves(sig, g, e)[k], maximum)
  }
}
