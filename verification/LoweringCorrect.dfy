// The compiler is correct: accepted skills lower to well-typed code, and running that code is
// running the source.

module LoweringTyped {
  import opened Wrappers
  import opened Core
  import opened Operators
  import opened Ir
  import opened Semantics
  import opened Symbols
  import opened Ast
  import opened Compiler
  import opened Typing

  // The static scope agrees with the symbol table, and holds only symbols already issued.
  ghost predicate Describes(t: Table, g: Typing.Scope) {
    && (forall i, name :: InFrame(t, i, name) ==> DescribesBinding(t.frames[i].names[name], g))
    && (forall id | id in g :: id <= t.symbolCounter)
  }

  predicate DescribesBinding(b: Symbols.Binding, g: Typing.Scope) {
    b.id in g && g[b.id] == Tag(b.ty, b.cls)
  }

  predicate SignatureFits(tools: Tools, sig: Signature) {
    forall id | id in tools :: tools[id].ref in sig.tools && sig.tools[tools[id].ref] == tools[id].contract
  }

  // ---------- expressions ----------

  lemma {:induction false} LoweredExprIsTyped(tools: Tools, sig: Signature, t: Table, g: Typing.Scope, e: AstExpr, n: Nodes)
    requires PlainExpr(e) && Unambiguous(t) && Describes(t, g) && SignatureFits(tools, sig)
    requires LowerExpr(tools, t, e, n).Ok?
    ensures var l := LowerExpr(tools, t, e, n).value; WellTyped(sig, g, l.expr) && ClassOf(sig, g, l.expr) == l.cls
    decreases e, 1
  {
    hide LowerOperands, LowerArguments, LowerPath;
    match e
    case ALiteral(_, _) =>
    case APath(root, parts) =>
      var b := Find(t.frames, root).value;
      LoweredPathIsTyped(sig, g, SymbolRef(Next(n, ExprNode), b.id, b.ty), parts, Taken(n, ExprNode));
    case ACall(_, operands) =>
      LoweredOperandsAreTyped(tools, sig, t, g, operands, n);
      var l := LowerOperands(tools, t, operands, n).value;
      assert OperandTypes(l.operands) == TypesOf(l.operands);
    case ABinary(_, left, right) =>
      LoweredExprIsTyped(tools, sig, t, g, left, n);
      LoweredExprIsTyped(tools, sig, t, g, right, LowerExpr(tools, t, left, n).value.nodes);
    case ARead(_, _) => LoweredReadIsTyped(tools, sig, t, g, e, n);
  }

  lemma {:induction false} LoweredReadIsTyped(tools: Tools, sig: Signature, t: Table, g: Typing.Scope, e: AstExpr, n: Nodes)
    requires e.ARead? && PlainExpr(e) && Unambiguous(t) && Describes(t, g) && SignatureFits(tools, sig)
    requires LowerExpr(tools, t, e, n).Ok?
    ensures var l := LowerExpr(tools, t, e, n).value; WellTyped(sig, g, l.expr) && ClassOf(sig, g, l.expr) == l.cls
    decreases e, 0
  {
    var contract := tools[e.tool].contract;
    LoweredArgumentsAreTyped(tools, sig, t, g, contract, e.arguments, n);
    hide LowerArguments;
    var l := LowerArguments(tools, t, contract, e.arguments, n).value;
    assert ArgumentNames(l.arguments) == AstArgumentNames(e.arguments);
  }

  lemma {:induction false} LoweredPathIsTyped(sig: Signature, g: Typing.Scope, source: Expr, parts: seq<string>, n: Nodes)
    requires WellTyped(sig, g, source) && LowerPath(source, parts, n).Ok?
    ensures var l := LowerPath(source, parts, n).value; WellTyped(sig, g, l.0) && ClassOf(sig, g, l.0) == ClassOf(sig, g, source)
    decreases |parts|
  {
    if parts != [] {
      var (ty, projected) := FieldResult(source.ty, parts[0]).value;
      var id := Next(n, ExprNode);
      var next := if projected then Projection(id, source, parts[0], ty) else Field(id, source, parts[0], ty);
      LoweredPathIsTyped(sig, g, next, parts[1..], Taken(n, ExprNode));
    }
  }

  lemma {:induction false} LoweredOperandsAreTyped(tools: Tools, sig: Signature, t: Table, g: Typing.Scope, es: seq<AstExpr>, n: Nodes)
    requires (forall i | 0 <= i < |es| :: PlainExpr(es[i])) && Unambiguous(t) && Describes(t, g) && SignatureFits(tools, sig)
    requires LowerOperands(tools, t, es, n).Ok?
    ensures var l := LowerOperands(tools, t, es, n).value;
      forall i | 0 <= i < |es| :: WellTyped(sig, g, l.operands[i]) && ClassOf(sig, g, l.operands[i]) == l.classes[i]
    decreases es, 0
  {
    hide WellTyped, LowerExpr;
    if es != [] {
      LoweredExprIsTyped(tools, sig, t, g, es[0], n);
      LoweredOperandsAreTyped(tools, sig, t, g, es[1..], LowerExpr(tools, t, es[0], n).value.nodes);
    }
  }

  // Each argument is well typed at the contract's type for its name.
  ghost predicate ArgumentsTyped(sig: Signature, g: Typing.Scope, contract: Contract, source: seq<AstArgument>, args: seq<Argument>) {
    && |args| == |source|
    && forall i | 0 <= i < |args| ::
      && args[i].name == source[i].name
      && WellTyped(sig, g, args[i].value)
      && LookupField(contract.inputs, args[i].name) == Some(args[i].value.ty)
  }

  lemma {:induction false} LoweredArgumentsAreTyped(tools: Tools, sig: Signature, t: Table, g: Typing.Scope, contract: Contract, args: seq<AstArgument>, n: Nodes)
    requires (forall i | 0 <= i < |args| :: PlainExpr(args[i].value)) && Unambiguous(t) && Describes(t, g) && SignatureFits(tools, sig)
    requires LowerArguments(tools, t, contract, args, n).Ok?
    ensures ArgumentsTyped(sig, g, contract, args, LowerArguments(tools, t, contract, args, n).value.arguments)
    decreases args, 0
  {
    hide WellTyped, LowerExpr;
    if args != [] {
      LoweredExprIsTyped(tools, sig, t, g, args[0].value, n);
      LoweredArgumentsAreTyped(tools, sig, t, g, contract, args[1..], LowerExpr(tools, t, args[0].value, n).value.nodes);
    }
  }

  // ---------- statements ----------

  // Outer scopes are as they were; symbol numbers only grow.
  ghost predicate Extends(t: Table, u: Table) {
    && t.frames != [] && |u.frames| == |t.frames|
    && u.frames[..|t.frames| - 1] == t.frames[..|t.frames| - 1]
    && t.symbolCounter <= u.symbolCounter
  }

  lemma ExtendsTransitive(t: Table, u: Table, v: Table)
    requires Extends(t, u) && Extends(u, v)
    ensures Extends(t, v)
  {
  }

  lemma {:induction false} DeclaringDescribes(t: Table, g: Typing.Scope, name: string, namespace: Namespace, ty: Type, cls: Classification)
    requires Unambiguous(t) && Describes(t, g) && !Visible(t.frames, name)
    ensures var d := Declared(t, name, namespace, ty, cls);
      && Unambiguous(d) && Extends(t, d)
      && d.symbolCounter !in g
      && Describes(d, g[d.symbolCounter := Tag(ty, cls)])
  {
    DeclaringStaysUnambiguous(t, name, namespace, ty, cls);
    var d := Declared(t, name, namespace, ty, cls);
    forall i, other | InFrame(d, i, other) ensures DescribesBinding(d.frames[i].names[other], g[d.symbolCounter := Tag(ty, cls)]) {
      if InFrame(t, i, other) && d.frames[i].names[other] == t.frames[i].names[other] {
        assert Issued(t, other, t.frames[i].names[other]);
      }
    }
  }

  lemma {:induction false} EnteringDescribes(t: Table, g: Typing.Scope)
    requires Unambiguous(t) && Describes(t, g)
    ensures Unambiguous(Enter(t)) && Describes(Enter(t), g)
  {
    EnteringStaysUnambiguous(t);
    forall i, name | InFrame(Enter(t), i, name) ensures DescribesBinding(Enter(t).frames[i].names[name], g) {
      assert InFrame(t, i, name);
    }
  }

  // Leaving a loop's scope restores the table the loop started with, except for its counters.
  lemma {:induction false} LeavingDescribes(t: Table, g: Typing.Scope, u: Table)
    requires Unambiguous(t) && Describes(t, g)
    requires Unambiguous(u) && Extends(Enter(t), u)
    ensures Leave(u).frames == t.frames && Unambiguous(Leave(u)) && Extends(t, Leave(u)) && Describes(Leave(u), g)
  {
    assert Leave(u).frames == Enter(t).frames[..|t.frames|] == t.frames;
    forall i, name | InFrame(Leave(u), i, name)
      ensures InFrame(u, i, name) && InFrame(t, i, name) && Leave(u).frames[i].names[name] == u.frames[i].names[name]
    {
    }
  }

  lemma {:induction false} LoweredBlockIsTyped(tools: Tools, sig: Signature, stmts: seq<AstStmt>, s: LState, g: Typing.Scope)
    requires PlainBody(stmts) && Unambiguous(s.table) && Describes(s.table, g) && SignatureFits(tools, sig) && Distinct(OutputNameSeq(sig.outputs))
    requires LowerBlock(tools, sig.outputs, stmts, s).Ok?
    ensures var b := LowerBlock(tools, sig.outputs, stmts, s).value;
      && WellTypedBlock(sig, g, b.stmts)
      && Unambiguous(b.state.table) && Extends(s.table, b.state.table)
      && Describes(b.state.table, ScopeAfterBlock(sig, g, b.stmts))
    decreases stmts, 1
  {
    assert s.table.frames != [] && Extends(s.table, s.table);
    hide LowerStmt, WellTypedStmt, Unambiguous, Describes, Extends, SignatureFits, PlainStmt;
    if stmts != [] {
      LoweredStmtIsTyped(tools, sig, stmts[0], s, g);
      var first := LowerStmt(tools, sig.outputs, stmts[0], s).value;
      LoweredBlockIsTyped(tools, sig, stmts[1..], first.state, ScopeAfter(sig, g, first.stmt));
      var rest := LowerBlock(tools, sig.outputs, stmts[1..], first.state).value;
      ExtendsTransitive(s.table, first.state.table, rest.state.table);
      assert ([first.stmt] + rest.stmts)[1..] == rest.stmts;
    }
  }

  lemma {:induction false} LoweredStmtIsTyped(tools: Tools, sig: Signature, stmt: AstStmt, s: LState, g: Typing.Scope)
    requires PlainStmt(stmt) && Unambiguous(s.table) && Describes(s.table, g) && SignatureFits(tools, sig) && Distinct(OutputNameSeq(sig.outputs))
    requires LowerStmt(tools, sig.outputs, stmt, s).Ok?
    ensures var l := LowerStmt(tools, sig.outputs, stmt, s).value;
      && WellTypedStmt(sig, g, l.stmt)
      && Unambiguous(l.state.table) && Extends(s.table, l.state.table)
      && Describes(l.state.table, ScopeAfter(sig, g, l.stmt))
    decreases stmt, 1
  {
    assert s.table.frames != [];
    match stmt
    case ALet(_, _) => LoweredLetIsTyped(tools, sig, stmt, s, g);
    case ACheck(_, _, _, _, _) => LoweredCheckIsTyped(tools, sig, stmt, s, g);
    case AEmit(_) => LoweredEmitIsTyped(tools, sig, stmt, s, g);
    case AForeach(_, _, _, _) =>
      hide LowerStmt, WellTypedStmt, Unambiguous, Describes, Extends;
      LoweredForeachIsTyped(tools, sig, stmt, s, g);
  }

  lemma {:induction false} LoweredLetIsTyped(tools: Tools, sig: Signature, stmt: AstStmt, s: LState, g: Typing.Scope)
    requires stmt.ALet? && PlainStmt(stmt) && Unambiguous(s.table) && Describes(s.table, g) && SignatureFits(tools, sig) && Distinct(OutputNameSeq(sig.outputs))
    requires LowerStmt(tools, sig.outputs, stmt, s).Ok?
    ensures var l := LowerStmt(tools, sig.outputs, stmt, s).value;
      && WellTypedStmt(sig, g, l.stmt)
      && Unambiguous(l.state.table) && Extends(s.table, l.state.table)
      && Describes(l.state.table, ScopeAfter(sig, g, l.stmt))
  {
    assert s.table.frames != [];
    hide LowerExpr, WellTyped, Unambiguous, Describes;
    LoweredExprIsTyped(tools, sig, s.table, g, stmt.value, s.nodes);
    var l := LowerExpr(tools, s.table, stmt.value, s.nodes).value;
    DeclaringDescribes(s.table, g, stmt.name, VALUE, l.expr.ty, l.cls);
  }

  lemma {:induction false} LoweredCheckIsTyped(tools: Tools, sig: Signature, stmt: AstStmt, s: LState, g: Typing.Scope)
    requires stmt.ACheck? && PlainStmt(stmt) && Unambiguous(s.table) && Describes(s.table, g) && SignatureFits(tools, sig) && Distinct(OutputNameSeq(sig.outputs))
    requires LowerStmt(tools, sig.outputs, stmt, s).Ok?
    ensures var l := LowerStmt(tools, sig.outputs, stmt, s).value;
      && WellTypedStmt(sig, g, l.stmt)
      && Unambiguous(l.state.table) && Extends(s.table, l.state.table)
      && Describes(l.state.table, ScopeAfter(sig, g, l.stmt))
  {
    assert s.table.frames != [];
    hide LowerExpr, WellTyped, Unambiguous, Describes;
    LoweredExprIsTyped(tools, sig, s.table, g, stmt.condition, s.nodes);
    DeclaringDescribes(s.table, g, stmt.checkId, CHECKS, CHECK_RESULT, INTERNAL);
  }

  lemma {:induction false} LoweredEmitIsTyped(tools: Tools, sig: Signature, stmt: AstStmt, s: LState, g: Typing.Scope)
    requires stmt.AEmit? && PlainStmt(stmt) && Unambiguous(s.table) && Describes(s.table, g) && SignatureFits(tools, sig) && Distinct(OutputNameSeq(sig.outputs))
    requires LowerStmt(tools, sig.outputs, stmt, s).Ok?
    ensures var l := LowerStmt(tools, sig.outputs, stmt, s).value;
      && WellTypedStmt(sig, g, l.stmt)
      && Unambiguous(l.state.table) && Extends(s.table, l.state.table)
      && Describes(l.state.table, ScopeAfter(sig, g, l.stmt))
  {
    assert s.table.frames != [];
    hide LowerExpr, WellTyped, Unambiguous, Describes;
    hide LowerFields, WellTypedFields;
    FieldNamesKnown(sig.outputs, stmt.fields);
    LoweredFieldsAreTyped(tools, sig, s.table, g, stmt.fields, s.nodes);
    var l := LowerFields(tools, s.table, sig.outputs, stmt.fields, s.nodes).value;
    assert ArgumentNames(l.arguments) == AstArgumentNames(stmt.fields);
  }

  lemma {:induction false} LoweredForeachIsTyped(tools: Tools, sig: Signature, stmt: AstStmt, s: LState, g: Typing.Scope)
    requires stmt.AForeach? && PlainStmt(stmt) && Unambiguous(s.table) && Describes(s.table, g) && SignatureFits(tools, sig) && Distinct(OutputNameSeq(sig.outputs))
    requires LowerStmt(tools, sig.outputs, stmt, s).Ok?
    ensures var l := LowerStmt(tools, sig.outputs, stmt, s).value;
      && WellTypedStmt(sig, g, l.stmt)
      && l.state.table.frames == s.table.frames
      && Unambiguous(l.state.table) && Extends(s.table, l.state.table)
      && Describes(l.state.table, g)
    decreases stmt, 0
  {
    assert s.table.frames != [];
    var c := LowerExpr(tools, s.table, stmt.collection, s.nodes).value;
    LoweredExprIsTyped(tools, sig, s.table, g, stmt.collection, s.nodes);
    hide LowerExpr, WellTyped, Unambiguous, Describes, LowerBlock, WellTypedBlock;
    EnteringDescribes(s.table, g);
    DeclaringDescribes(Enter(s.table), g, stmt.loopName, VALUE, c.expr.ty.item, c.cls);
    var inner := DeclareIn(LState(Enter(s.table), c.nodes), stmt.loopName, VALUE, c.expr.ty.item, c.cls).value;
    LoweredBlockIsTyped(tools, sig, stmt.body, inner, g[inner.table.symbolCounter := Tag(c.expr.ty.item, c.cls)]);
    var u := LowerBlock(tools, sig.outputs, stmt.body, inner).value.state.table;
    ExtendsTransitive(Enter(s.table), inner.table, u);
    LeavingDescribes(s.table, g, u);
  }

  lemma {:induction false} LoweredFieldsAreTyped(tools: Tools, sig: Signature, t: Table, g: Typing.Scope, fields: seq<AstArgument>, n: Nodes)
    requires (forall i | 0 <= i < |fields| :: PlainExpr(fields[i].value) && fields[i].name in OutputNames(sig.outputs))
    requires Unambiguous(t) && Describes(t, g) && SignatureFits(tools, sig)
    requires LowerFields(tools, t, sig.outputs, fields, n).Ok?
    ensures var l := LowerFields(tools, t, sig.outputs, fields, n).value.arguments;
      && |l| == |fields| && (forall i | 0 <= i < |l| :: l[i].name == fields[i].name)
      && WellTypedFields(sig, g, l)
    decreases |fields|
  {
    hide LowerExpr, WellTyped, Unambiguous, Describes;
    if fields != [] {
      LoweredExprIsTyped(tools, sig, t, g, fields[0].value, n);
      LoweredFieldsAreTyped(tools, sig, t, g, fields[1..], LowerExpr(tools, t, fields[0].value, n).value.nodes);
    }
  }
}

// Running lowered code is running the source.
module LoweringCorrect {
  import opened Wrappers
  import opened Core
  import opened Failures
  import opened Operators
  import opened Ir
  import opened Semantics
  import opened Effects
  import opened Symbols
  import opened Ast
  import opened Compiler
  import opened Typing
  import opened LoweringTyped
  import Source = SourceSemantics

  // Each visible name holds in the source exactly what its symbol resolves to in the code.
  ghost predicate Matches(t: Table, scopes: seq<Source.Scope>, b: Bindings) {
    && |scopes| == |t.frames|
    && (forall i, name :: InFrame(t, i, name) <==> 0 <= i < |scopes| && name in scopes[i])
    && (forall i, name :: InFrame(t, i, name) ==> Resolve(b, t.frames[i].names[name].id) == Some(scopes[i][name]))
  }

  // The same tools, limits, schema and port on both sides.
  ghost predicate SameSurroundings(tools: Tools, source: Source.SourceEnv, env: Env) {
    && source.limits == env.limits && source.outputs == env.outputs && source.port == env.port
    && SignatureFits(tools, SignatureOf(env))
    && source.tools.Keys == tools.Keys
    && (forall id | id in tools :: source.tools[id] == tools[id].contract && (id in source.authorized <==> tools[id].ref in env.authorized))
  }

  ghost predicate Ready(tools: Tools, source: Source.SourceEnv, env: Env, t: Table, g: Typing.Scope, scopes: seq<Source.Scope>, b: Bindings) {
    && SameSurroundings(tools, source, env)
    && Unambiguous(t) && Describes(t, g)
    && Matches(t, scopes, b)
    && ScopeHolds(g, b, false)
  }

  // ---------- names ----------

  lemma {:induction false} LookupFinds(scopes: seq<Source.Scope>, i: nat, name: string)
    requires i < |scopes| && name in scopes[i] && forall j | i < j < |scopes| :: name !in scopes[j]
    ensures Source.Lookup(scopes, name) == Some(scopes[i][name])
  {
    if i < |scopes| - 1 {
      assert name !in scopes[|scopes| - 1];
      LookupFinds(scopes[..|scopes| - 1], i, name);
    }
  }

  lemma {:induction false} NameResolves(t: Table, scopes: seq<Source.Scope>, b: Bindings, name: string)
    requires Unambiguous(t) && Matches(t, scopes, b) && Visible(t.frames, name)
    ensures Source.Lookup(scopes, name) == Resolve(b, Find(t.frames, name).value.id)
  {
    var i :| 0 <= i < |t.frames| && name in t.frames[i].names;
    assert InFrame(t, i, name);
    FindIsTheOnlyBinding(t, i, name);
    forall j | i < j < |scopes| ensures name !in scopes[j] {
      assert !InFrame(t, j, name);
    }
    LookupFinds(scopes, i, name);
  }

  // ---------- expressions ----------

  lemma {:induction false} ExprMeansTheSame(tools: Tools, source: Source.SourceEnv, env: Env, t: Table, g: Typing.Scope, scopes: seq<Source.Scope>, b: Bindings, e: AstExpr, n: Nodes, w: Ledger)
    requires Ready(tools, source, env, t, g, scopes, b) && PlainExpr(e) && LowerExpr(tools, t, e, n).Ok?
    ensures EvalExpr(env, b, LowerExpr(tools, t, e, n).value.expr, w) == Source.Run(source, scopes, e, w)
    decreases e, 1
  {
    assert !e.AWrite?;
    hide *;
    ReadyParts(tools, source, env, t, g, scopes, b);
    LoweredExprIsTyped(tools, SignatureOf(env), t, g, e, n);
    NeverMistyped(env, g, b, LowerExpr(tools, t, e, n).value.expr, w);
    match e
    case ALiteral(_, _) => LiteralMeansTheSame(tools, source, env, t, scopes, b, e, n, w);
    case APath(_, _) => NamedPathMeansTheSame(tools, source, env, t, g, scopes, b, e, n, w);
    case ACall(_, _) => CallMeansTheSame(tools, source, env, t, g, scopes, b, e, n, w);
    case ABinary(_, _, _) => BinaryMeansTheSame(tools, source, env, t, g, scopes, b, e, n, w);
    case ARead(_, _) => ReadMeansTheSame(tools, source, env, t, g, scopes, b, e, n, w);
  }

  lemma ReadyParts(tools: Tools, source: Source.SourceEnv, env: Env, t: Table, g: Typing.Scope, scopes: seq<Source.Scope>, b: Bindings)
    requires Ready(tools, source, env, t, g, scopes, b)
    ensures source.limits == env.limits && source.port == env.port && source.outputs == env.outputs && SignatureFits(tools, SignatureOf(env))
    ensures Unambiguous(t) && Describes(t, g) && Matches(t, scopes, b) && ScopeHolds(g, b, false)
  {
    hide Unambiguous, Describes, Matches, ScopeHolds;
  }

  lemma NeverMistyped(env: Env, g: Typing.Scope, b: Bindings, e: Expr, w: Ledger)
    requires WellTyped(SignatureOf(env), g, e) && ScopeHolds(g, b, false)
    ensures EvalExpr(env, b, e, w).res != Err(TypeMismatch)
    ensures EvalExpr(env, b, e, w).res.Ok? ==> EvalExpr(env, b, e, w).res.value.ty == e.ty
  {
    hide EvalExpr, WellTyped, ScopeHolds, HasDivision, HasExtremum, HasRead;
    ExprIsSafe(env, g, b, e, w, false);
  }

  lemma LiteralMeansTheSame(tools: Tools, source: Source.SourceEnv, env: Env, t: Table, scopes: seq<Source.Scope>, b: Bindings, e: AstExpr, n: Nodes, w: Ledger)
    requires e.ALiteral? && source.limits == env.limits
    ensures LowerExpr(tools, t, e, n).Ok?
    ensures EvalExpr(env, b, LowerExpr(tools, t, e, n).value.expr, w) == Source.Run(source, scopes, e, w)
  {
  }

  lemma NamedPathMeansTheSame(tools: Tools, source: Source.SourceEnv, env: Env, t: Table, g: Typing.Scope, scopes: seq<Source.Scope>, b: Bindings, e: AstExpr, n: Nodes, w: Ledger)
    requires e.APath? && Ready(tools, source, env, t, g, scopes, b) && LowerExpr(tools, t, e, n).Ok?
    ensures EvalExpr(env, b, LowerExpr(tools, t, e, n).value.expr, w) == Source.Run(source, scopes, e, w)
  {
    ReadyParts(tools, source, env, t, g, scopes, b);
    NameResolves(t, scopes, b, e.root);
    var bound := Find(t.frames, e.root).value;
    var ref := SymbolRef(Next(n, ExprNode), bound.id, bound.ty);
    NameIsTyped(t, g, e.root, SignatureOf(env), Next(n, ExprNode));
    NeverMistyped(env, g, b, ref, w);
    NameMeansTheSame(source, env, scopes, b, ref, e.root, w);
    hide EvalExpr, Ready, Unambiguous, Describes, Matches, ScopeHolds, Find, Visible, WellTyped, LowerPath, Source.RunPath, Source.Lookup;
    PathMeansTheSame(source, env, g, b, ref, Taken(n, ExprNode), e.parts, w);
  }

  lemma NameMeansTheSame(source: Source.SourceEnv, env: Env, scopes: seq<Source.Scope>, b: Bindings, ref: Expr, name: string, w: Ledger)
    requires ref.SymbolRef? && source.limits == env.limits
    requires Source.Lookup(scopes, name) == Resolve(b, ref.symbol) && EvalExpr(env, b, ref, w).res != Err(TypeMismatch)
    ensures EvalExpr(env, b, ref, w) == Source.Run(source, scopes, APath(name, []), w)
  {
    hide Resolve, Source.Lookup;
  }

  lemma NameIsTyped(t: Table, g: Typing.Scope, name: string, sig: Signature, id: NodeId)
    requires Unambiguous(t) && Describes(t, g) && Visible(t.frames, name)
    ensures var b := Find(t.frames, name).value; WellTyped(sig, g, SymbolRef(id, b.id, b.ty))
  {
    var i :| 0 <= i < |t.frames| && name in t.frames[i].names;
    assert InFrame(t, i, name);
    FindIsTheOnlyBinding(t, i, name);
    hide Find, Unambiguous;
  }

  // A node whose tags are known evaluates as its bare result, absorbed.
  lemma {:induction false} EvalAbsorbs(env: Env, b: Bindings, e: Expr, w: Ledger)
    requires !e.Write? && EvalExpr(env, b, e, w).res != Err(TypeMismatch)
    ensures EvalExpr(env, b, e, w) == Source.Absorb(env.limits, EvalNode(env, b, e, w), e.Read?)
  {
    hide EvalNode;
  }

  lemma OnlyReadsRaise(env: Env, b: Bindings, e: Expr, w: Ledger)
    requires !e.Read? && !e.Write?
    ensures EvalExpr(env, b, e, w).res != Err(RawError)
  {
    hide EvalNode;
  }

  lemma StepIsTyped(sig: Signature, g: Typing.Scope, e: Expr, id: NodeId, part: string)
    requires WellTyped(sig, g, e) && FieldResult(e.ty, part).Some?
    ensures var (ty, projected) := FieldResult(e.ty, part).value;
      WellTyped(sig, g, if projected then Projection(id, e, part, ty) else Field(id, e, part, ty))
  {
  }

  lemma {:induction false} PathMeansTheSame(source: Source.SourceEnv, env: Env, g: Typing.Scope, b: Bindings, e: Expr, n: Nodes, parts: seq<string>, w: Ledger)
    requires source.limits == env.limits && !e.Read? && !e.Write?
    requires WellTyped(SignatureOf(env), g, e) && ScopeHolds(g, b, false) && LowerPath(e, parts, n).Ok?
    ensures EvalExpr(env, b, LowerPath(e, parts, n).value.0, w) == Source.RunPath(env.limits, EvalExpr(env, b, e, w), parts)
    decreases |parts|
  {
    hide EvalExpr, WellTyped;
    ExprIsSafe(env, g, b, e, w, false);
    if parts != [] {
      var (ty, projected) := FieldResult(e.ty, parts[0]).value;
      var id := Next(n, ExprNode);
      var next := if projected then Projection(id, e, parts[0], ty) else Field(id, e, parts[0], ty);
      StepIsTyped(SignatureOf(env), g, e, id, parts[0]);
      ExprIsSafe(env, g, b, next, w, false);
      EvalAbsorbs(env, b, next, w);
      PathMeansTheSame(source, env, g, b, next, Taken(n, ExprNode), parts[1..], w);
      OnlyReadsRaise(env, b, e, w);
      var r := EvalExpr(env, b, e, w);
      if r.res.Err? {
        FailedPathStops(env.limits, r, parts[1..]);
      }
    }
  }

  lemma FailedPathStops(limits: Limits, r: Eval<Envelope>, parts: seq<string>)
    requires r.res.Err?
    ensures Source.RunPath(limits, r, parts) == r
  {
  }

  lemma {:induction false} CallMeansTheSame(tools: Tools, source: Source.SourceEnv, env: Env, t: Table, g: Typing.Scope, scopes: seq<Source.Scope>, b: Bindings, e: AstExpr, n: Nodes, w: Ledger)
    requires e.ACall? && Ready(tools, source, env, t, g, scopes, b) && PlainExpr(e) && LowerExpr(tools, t, e, n).Ok?
    requires EvalExpr(env, b, LowerExpr(tools, t, e, n).value.expr, w).res != Err(TypeMismatch)
    ensures EvalExpr(env, b, LowerExpr(tools, t, e, n).value.expr, w) == Source.Run(source, scopes, e, w)
    decreases e, 0
  {
    var l := LowerOperands(tools, t, e.operands, n).value;
    LoweredOperandsAreTyped(tools, SignatureOf(env), t, g, e.operands, n);
    OperandsMeanTheSame(tools, source, env, t, g, scopes, b, e.operands, n, w);
    OperandTagsAreExact(env, g, b, l.operands, w);
    EvalAbsorbs(env, b, LowerExpr(tools, t, e, n).value.expr, w);
    hide EvalExpr, EvalOperands, LowerOperands, Source.RunOperands;
    var r := EvalOperands(env, b, l.operands, w);
    if r.res.Ok? {
      assert seq(|r.res.value|, i requires 0 <= i < |r.res.value| => r.res.value[i].ty) == OperandTypes(l.operands);
    }
  }

  lemma {:induction false} OperandTagsAreExact(env: Env, g: Typing.Scope, b: Bindings, es: seq<Expr>, w: Ledger)
    requires ScopeHolds(g, b, false) && forall i | 0 <= i < |es| :: WellTyped(SignatureOf(env), g, es[i])
    ensures var r := EvalOperands(env, b, es, w).res; r.Ok? ==> forall i | 0 <= i < |es| :: r.value[i].ty == es[i].ty
    decreases |es|
  {
    hide EvalExpr, WellTyped;
    if es != [] {
      ExprIsSafe(env, g, b, es[0], w, false);
      OperandTagsAreExact(env, g, b, es[1..], EvalExpr(env, b, es[0], w).w);
    }
  }

  lemma {:induction false} OperandsMeanTheSame(tools: Tools, source: Source.SourceEnv, env: Env, t: Table, g: Typing.Scope, scopes: seq<Source.Scope>, b: Bindings, es: seq<AstExpr>, n: Nodes, w: Ledger)
    requires Ready(tools, source, env, t, g, scopes, b) && (forall i | 0 <= i < |es| :: PlainExpr(es[i])) && LowerOperands(tools, t, es, n).Ok?
    ensures EvalOperands(env, b, LowerOperands(tools, t, es, n).value.operands, w) == Source.RunOperands(source, scopes, es, w)
    decreases es, 0
  {
    hide EvalExpr, LowerExpr, Source.Run, PlainExpr;
    if es != [] {
      ExprMeansTheSame(tools, source, env, t, g, scopes, b, es[0], n, w);
      var first := LowerExpr(tools, t, es[0], n).value;
      var r := EvalExpr(env, b, first.expr, w);
      OperandsMeanTheSame(tools, source, env, t, g, scopes, b, es[1..], first.nodes, r.w);
      var rest := LowerOperands(tools, t, es[1..], first.nodes).value.operands;
      assert ([first.expr] + rest)[1..] == rest;
    }
  }

  lemma {:induction false} ArgumentsMeanTheSame(tools: Tools, source: Source.SourceEnv, env: Env, t: Table, g: Typing.Scope, scopes: seq<Source.Scope>, b: Bindings, contract: Contract, args: seq<AstArgument>, n: Nodes, w: Ledger)
    requires Ready(tools, source, env, t, g, scopes, b) && (forall i | 0 <= i < |args| :: PlainExpr(args[i].value)) && LowerArguments(tools, t, contract, args, n).Ok?
    ensures EvalArguments(env, b, LowerArguments(tools, t, contract, args, n).value.arguments, w) == Source.RunArguments(source, scopes, args, w)
    decreases args, 0
  {
    hide EvalExpr, LowerExpr, Source.Run, PlainExpr;
    if args != [] {
      ExprMeansTheSame(tools, source, env, t, g, scopes, b, args[0].value, n, w);
      var first := LowerExpr(tools, t, args[0].value, n).value;
      var r := EvalExpr(env, b, first.expr, w);
      ArgumentsMeanTheSame(tools, source, env, t, g, scopes, b, contract, args[1..], first.nodes, r.w);
      var rest := LowerArguments(tools, t, contract, args[1..], first.nodes).value.arguments;
      assert ([Argument(args[0].name, first.expr)] + rest)[1..] == rest;
    }
  }

  lemma {:induction false} BinaryMeansTheSame(tools: Tools, source: Source.SourceEnv, env: Env, t: Table, g: Typing.Scope, scopes: seq<Source.Scope>, b: Bindings, e: AstExpr, n: Nodes, w: Ledger)
    requires e.ABinary? && Ready(tools, source, env, t, g, scopes, b) && PlainExpr(e) && LowerExpr(tools, t, e, n).Ok?
    requires EvalExpr(env, b, LowerExpr(tools, t, e, n).value.expr, w).res != Err(TypeMismatch)
    ensures EvalExpr(env, b, LowerExpr(tools, t, e, n).value.expr, w) == Source.Run(source, scopes, e, w)
    decreases e, 0
  {
    hide CombineBinary, EvalExpr;
    var l := LowerExpr(tools, t, e.left, n).value;
    var r := LowerExpr(tools, t, e.right, l.nodes).value;
    LoweredExprIsTyped(tools, SignatureOf(env), t, g, e.left, n);
    LoweredExprIsTyped(tools, SignatureOf(env), t, g, e.right, l.nodes);
    ExprMeansTheSame(tools, source, env, t, g, scopes, b, e.left, n, w);
    var x := EvalExpr(env, b, l.expr, w);
    ExprMeansTheSame(tools, source, env, t, g, scopes, b, e.right, l.nodes, x.w);
    ExprIsSafe(env, g, b, l.expr, w, false);
    ExprIsSafe(env, g, b, r.expr, x.w, false);
    EvalAbsorbs(env, b, LowerExpr(tools, t, e, n).value.expr, w);
    hide Ready, PlainExpr;
  }

  lemma {:induction false} ReadMeansTheSame(tools: Tools, source: Source.SourceEnv, env: Env, t: Table, g: Typing.Scope, scopes: seq<Source.Scope>, b: Bindings, e: AstExpr, n: Nodes, w: Ledger)
    requires e.ARead? && Ready(tools, source, env, t, g, scopes, b) && PlainExpr(e) && LowerExpr(tools, t, e, n).Ok?
    requires WellTyped(SignatureOf(env), g, LowerExpr(tools, t, e, n).value.expr)
    requires EvalExpr(env, b, LowerExpr(tools, t, e, n).value.expr, w).res != Err(TypeMismatch)
    ensures EvalExpr(env, b, LowerExpr(tools, t, e, n).value.expr, w) == Source.Run(source, scopes, e, w)
    decreases e, 0
  {
    hide EvalExpr, EvalArguments, LowerArguments, Source.RunArguments, Unambiguous, Describes, Matches, ScopeHolds, ValidateReply;
    var contract := tools[e.tool].contract;
    ArgumentsMeanTheSame(tools, source, env, t, g, scopes, b, contract, e.arguments, n, w);
    EvalAbsorbs(env, b, LowerExpr(tools, t, e, n).value.expr, w);
    var l := LowerArguments(tools, t, contract, e.arguments, n).value.arguments;
    var r := EvalArguments(env, b, l, w);
    if r.res.Ok? {
      assert CallTool(env, contract, r.res.value, ResultPolicy(true, false, contract.emptyIsValid), r.w)
          == CallTool(Source.ToolSide(source), contract, r.res.value, ResultPolicy(true, false, contract.emptyIsValid), r.w);
    }
  }

  // ---------- statements ----------

  // What a declaration adds to the visible names.
  lemma {:induction false} DeclaredNames(t: Table, name: string, namespace: Namespace, ty: Type, cls: Classification, i: int, other: string)
    requires Unambiguous(t) && !Visible(t.frames, name)
    ensures var d := Declared(t, name, namespace, ty, cls); var n := |t.frames| - 1;
      && (InFrame(d, i, other) <==> InFrame(t, i, other) || (i == n && other == name))
      && (i == n && other == name ==> d.frames[i].names[other].id == d.symbolCounter)
      && (InFrame(t, i, other) ==> d.frames[i].names[other] == t.frames[i].names[other] && d.frames[i].names[other].id != d.symbolCounter)
  {
    if InFrame(t, i, other) {
      assert Issued(t, other, t.frames[i].names[other]);
    }
  }

  // A declaration keeps names and symbols in step.
  lemma {:induction false} DeclaringMatches(t: Table, g: Typing.Scope, scopes: seq<Source.Scope>, b: Bindings, name: string, namespace: Namespace, ty: Type, cls: Classification, x: Envelope, check: bool)
    requires Unambiguous(t) && Describes(t, g) && Matches(t, scopes, b) && ScopeHolds(g, b, false) && Framed(b)
    requires !Visible(t.frames, name) && Typed(x, Tag(ty, cls), false)
    ensures var d := Declared(t, name, namespace, ty, cls);
      var c := if check then BindCheck(b, d.symbolCounter, x) else Bind(b, d.symbolCounter, x);
      && !IsBound(b, d.symbolCounter)
      && Matches(d, Source.Define(scopes, name, x), c)
      && ScopeHolds(g[d.symbolCounter := Tag(ty, cls)], c, false)
  {
    var d := Declared(t, name, namespace, ty, cls);
    var id := d.symbolCounter;
    assert id !in g;
    BindKeepsScope(g, b, id, Tag(ty, cls), x, false);
    var c := if check then BindCheck(b, id, x) else Bind(b, id, x);
    assert !IsBound(b, id);
    assert |d.frames| == |t.frames|;
    var defined := Source.Define(scopes, name, x);
    hide Resolve, IsBound, ScopeHolds, Describes, Find, Declared, Unambiguous, InFrame, Bind, BindCheck;
    forall i, other
      ensures InFrame(d, i, other) <==> 0 <= i < |defined| && other in defined[i]
      ensures InFrame(d, i, other) ==> 0 <= i < |d.frames| && other in d.frames[i].names && Resolve(c, d.frames[i].names[other].id) == Some(defined[i][other])
    {
      DeclaredNames(t, name, namespace, ty, cls, i, other);
      InFrameMeans(t, i, other);
      InFrameMeans(d, i, other);
      if InFrame(d, i, other) {
        BindResolves(b, id, x, d.frames[i].names[other].id);
      }
    }
  }

  lemma InFrameMeans(t: Table, i: int, name: string)
    ensures InFrame(t, i, name) <==> 0 <= i < |t.frames| && name in t.frames[i].names
  {
  }

  lemma {:induction false} EnteringMatches(t: Table, scopes: seq<Source.Scope>, b: Bindings)
    requires Matches(t, scopes, b)
    ensures Matches(Enter(t), scopes + [map[]], Push(b))
  {
    forall i, name
      ensures InFrame(Enter(t), i, name) <==> InFrame(t, i, name)
      ensures InFrame(t, i, name) ==> Resolve(Push(b), t.frames[i].names[name].id) == Some(scopes[i][name])
    {
      if InFrame(t, i, name) {
        PushResolves(b, t.frames[i].names[name].id);
      }
    }
  }

  lemma {:induction false} FieldsMeanTheSame(tools: Tools, source: Source.SourceEnv, env: Env, t: Table, g: Typing.Scope, scopes: seq<Source.Scope>, b: Bindings, fields: seq<AstArgument>, n: Nodes, w: Ledger)
    requires Ready(tools, source, env, t, g, scopes, b)
    requires forall i | 0 <= i < |fields| :: PlainExpr(fields[i].value) && fields[i].name in OutputNames(env.outputs)
    requires LowerFields(tools, t, env.outputs, fields, n).Ok?
    requires forall i | 0 <= i < |LowerFields(tools, t, env.outputs, fields, n).value.arguments| :: LowerFields(tools, t, env.outputs, fields, n).value.arguments[i].name in OutputNames(env.outputs)
    ensures EmitFields(env, b, LowerFields(tools, t, env.outputs, fields, n).value.arguments, w) == Source.RunFields(source, scopes, fields, w)
    decreases |fields|
  {
    hide EvalExpr, LowerExpr, Source.Run, PlainExpr, WellTyped;
    if fields != [] {
      ExprMeansTheSame(tools, source, env, t, g, scopes, b, fields[0].value, n, w);
      LoweredExprIsTyped(tools, SignatureOf(env), t, g, fields[0].value, n);
      var first := LowerExpr(tools, t, fields[0].value, n).value;
      ExprIsSafe(env, g, b, first.expr, w, false);
      var r := EvalExpr(env, b, first.expr, w);
      var rest := LowerFields(tools, t, env.outputs, fields[1..], first.nodes).value.arguments;
      assert LowerFields(tools, t, env.outputs, fields, n).value.arguments == [Argument(fields[0].name, first.expr)] + rest;
      assert ([Argument(fields[0].name, first.expr)] + rest)[1..] == rest;
      forall i | 0 <= i < |rest| ensures rest[i].name in OutputNames(env.outputs) {
        assert rest[i] == ([Argument(fields[0].name, first.expr)] + rest)[i + 1];
      }
      FieldsMeanTheSame(tools, source, env, t, g, scopes, b, fields[1..], first.nodes, r.w);
    }
  }

  // The two runs stop alike, with the same ledger, and, if they go on, with matching bindings.
  ghost predicate SameOutcome(tools: Tools, source: Source.SourceEnv, env: Env, t: Table, g: Typing.Scope, r: Exec, q: Source.SourceExec) {
    && r.error == q.error
    && r.s.w == q.s.w && r.s.depth == q.s.depth
    && (r.error.None? ==> Matches(t, q.s.scopes, r.s.b) && ScopeHolds(g, r.s.b, false))
  }

  lemma {:induction false} StmtMeansTheSame(tools: Tools, source: Source.SourceEnv, env: Env, stmt: AstStmt, l: LState, g: Typing.Scope, s: State, q: Source.SourceState)
    requires PlainStmt(stmt) && Ready(tools, source, env, l.table, g, q.scopes, s.b) && Framed(s.b) && q.scopes != [] && Distinct(OutputNameSeq(env.outputs))
    requires s.w == q.w && s.depth == q.depth
    requires LowerStmt(tools, env.outputs, stmt, l).Ok?
    ensures var out := LowerStmt(tools, env.outputs, stmt, l).value;
      SameOutcome(tools, source, env, out.state.table, ScopeAfter(SignatureOf(env), g, out.stmt), ExecStmt(env, out.stmt, s), Source.RunStmt(source, stmt, q))
    decreases stmt, 1, 0
  {
    LoweredStmtIsTyped(tools, SignatureOf(env), stmt, l, g);
    match stmt
    case ALet(_, _) => LetMeansTheSame(tools, source, env, stmt, l, g, s, q);
    case ACheck(_, _, _, _, _) => CheckMeansTheSame(tools, source, env, stmt, l, g, s, q);
    case AEmit(_) => EmitMeansTheSame(tools, source, env, stmt, l, g, s, q);
    case AForeach(_, _, _, _) => ForeachMeansTheSame(tools, source, env, stmt, l, g, s, q);
  }

  lemma {:induction false} LetMeansTheSame(tools: Tools, source: Source.SourceEnv, env: Env, stmt: AstStmt, l: LState, g: Typing.Scope, s: State, q: Source.SourceState)
    requires stmt.ALet? && PlainStmt(stmt) && Ready(tools, source, env, l.table, g, q.scopes, s.b) && Framed(s.b) && q.scopes != []
    requires s.w == q.w && s.depth == q.depth
    requires LowerStmt(tools, env.outputs, stmt, l).Ok?
    ensures var out := LowerStmt(tools, env.outputs, stmt, l).value;
      SameOutcome(tools, source, env, out.state.table, ScopeAfter(SignatureOf(env), g, out.stmt), ExecStmt(env, out.stmt, s), Source.RunStmt(source, stmt, q))
  {
    ExprMeansTheSame(tools, source, env, l.table, g, q.scopes, s.b, stmt.value, l.nodes, s.w);
    LoweredExprIsTyped(tools, SignatureOf(env), l.table, g, stmt.value, l.nodes);
    var e := LowerExpr(tools, l.table, stmt.value, l.nodes).value;
    ExprIsSafe(env, g, s.b, e.expr, s.w, false);
    hide EvalExpr, LowerExpr, Source.Run, WellTyped, ScopeHolds, Matches, Describes, Unambiguous;
    var r := EvalExpr(env, s.b, e.expr, s.w);
    if r.res.Ok? {
      DeclaringMatches(l.table, g, q.scopes, s.b, stmt.name, VALUE, e.expr.ty, e.cls, r.res.value, false);
    }
  }

  lemma {:induction false} CheckMeansTheSame(tools: Tools, source: Source.SourceEnv, env: Env, stmt: AstStmt, l: LState, g: Typing.Scope, s: State, q: Source.SourceState)
    requires stmt.ACheck? && PlainStmt(stmt) && Ready(tools, source, env, l.table, g, q.scopes, s.b) && Framed(s.b) && q.scopes != []
    requires s.w == q.w && s.depth == q.depth
    requires LowerStmt(tools, env.outputs, stmt, l).Ok?
    ensures var out := LowerStmt(tools, env.outputs, stmt, l).value;
      SameOutcome(tools, source, env, out.state.table, ScopeAfter(SignatureOf(env), g, out.stmt), ExecStmt(env, out.stmt, s), Source.RunStmt(source, stmt, q))
  {
    ExprMeansTheSame(tools, source, env, l.table, g, q.scopes, s.b, stmt.condition, l.nodes, s.w);
    var e := LowerExpr(tools, l.table, stmt.condition, l.nodes).value;
    hide EvalExpr, LowerExpr, Source.Run, ScopeHolds, Matches, Describes, Unambiguous;
    var r := EvalExpr(env, s.b, e.expr, s.w);
    if r.res.Ok? {
      var c := JudgeCheck(stmt.checkId, stmt.severity, stmt.message, r.res.value);
      if c.Ok? {
        CheckEnvelopeTyped(c.value);
        DeclaringMatches(l.table, g, q.scopes, s.b, stmt.checkId, CHECKS, CHECK_RESULT, INTERNAL, CheckEnvelope(c.value), true);
      }
    }
  }

  lemma {:induction false} EmitMeansTheSame(tools: Tools, source: Source.SourceEnv, env: Env, stmt: AstStmt, l: LState, g: Typing.Scope, s: State, q: Source.SourceState)
    requires stmt.AEmit? && PlainStmt(stmt) && Ready(tools, source, env, l.table, g, q.scopes, s.b) && Framed(s.b) && q.scopes != [] && Distinct(OutputNameSeq(env.outputs))
    requires s.w == q.w && s.depth == q.depth
    requires LowerStmt(tools, env.outputs, stmt, l).Ok? && WellTypedStmt(SignatureOf(env), g, LowerStmt(tools, env.outputs, stmt, l).value.stmt)
    ensures var out := LowerStmt(tools, env.outputs, stmt, l).value;
      SameOutcome(tools, source, env, out.state.table, ScopeAfter(SignatureOf(env), g, out.stmt), ExecStmt(env, out.stmt, s), Source.RunStmt(source, stmt, q))
  {
    hide LowerFields, EmitFields, Source.RunFields, WellTypedFields, ScopeHolds, Matches, Describes, Unambiguous, PlainExpr, SameSurroundings;
    assert source.limits == env.limits by { ReadyParts(tools, source, env, l.table, g, q.scopes, s.b); }
    FieldNamesKnown(env.outputs, stmt.fields);
    var fields := LowerFields(tools, l.table, env.outputs, stmt.fields, l.nodes).value.arguments;
    SchemaNamesKnown(env.outputs, fields);
    FieldsMeanTheSame(tools, source, env, l.table, g, q.scopes, s.b, stmt.fields, l.nodes, s.w);
  }

  lemma {:induction false} ForeachMeansTheSame(tools: Tools, source: Source.SourceEnv, env: Env, stmt: AstStmt, l: LState, g: Typing.Scope, s: State, q: Source.SourceState)
    requires stmt.AForeach? && PlainStmt(stmt) && Ready(tools, source, env, l.table, g, q.scopes, s.b) && Framed(s.b) && q.scopes != [] && Distinct(OutputNameSeq(env.outputs))
    requires s.w == q.w && s.depth == q.depth
    requires LowerStmt(tools, env.outputs, stmt, l).Ok?
    ensures var out := LowerStmt(tools, env.outputs, stmt, l).value;
      SameOutcome(tools, source, env, out.state.table, ScopeAfter(SignatureOf(env), g, out.stmt), ExecStmt(env, out.stmt, s), Source.RunStmt(source, stmt, q))
    decreases stmt, 0
  {
    ExprMeansTheSame(tools, source, env, l.table, g, q.scopes, s.b, stmt.collection, l.nodes, s.w);
    LoweredExprIsTyped(tools, SignatureOf(env), l.table, g, stmt.collection, l.nodes);
    LoweredForeachIsTyped(tools, SignatureOf(env), stmt, l, g);
    var c := LowerExpr(tools, l.table, stmt.collection, l.nodes).value;
    ExprIsSafe(env, g, s.b, c.expr, s.w, false);
    var out := LowerStmt(tools, env.outputs, stmt, l).value;
    var r := EvalExpr(env, s.b, c.expr, s.w);
    if r.res.Ok? && Elements(r.res.value.value).Some? {
      var items := Elements(r.res.value.value).value;
      LoopMeansTheSame(tools, source, env, stmt, out.stmt, l.table, c.nodes, g, r.res.value, items, State(s.b, r.w, s.depth + 1), Source.SourceState(q.scopes, r.w, s.depth + 1));
    }
    MatchesByFrames(l.table, out.state.table, q.scopes, s.b);
    ForeachByLoops(source, env, stmt, out.stmt, s, q);
    assert ExecStmt(env, out.stmt, s) == ExecForeach(env, out.stmt, s);
    assert Source.RunStmt(source, stmt, q) == Source.RunForeach(source, stmt, q);
    assert ScopeAfter(SignatureOf(env), g, out.stmt) == g;
    hide *;
  }

  lemma ForeachByLoops(source: Source.SourceEnv, env: Env, stmt: AstStmt, out: Stmt, s: State, q: Source.SourceState)
    requires stmt.AForeach? && out.Foreach? && Framed(s.b) && q.scopes != [] && source.limits == env.limits
    requires s.w == q.w && s.depth == q.depth && out.maxIterations == stmt.maxIterations
    requires EvalExpr(env, s.b, out.collection, s.w) == Source.Run(source, q.scopes, stmt.collection, s.w)
    requires var r := EvalExpr(env, s.b, out.collection, s.w);
      r.res.Ok? && Elements(r.res.value.value).Some? ==>
        var items := Elements(r.res.value.value).value;
        var loop := ExecLoop(env, out, r.res.value, items, State(s.b, r.w, s.depth + 1));
        var meant := Source.RunLoop(source, stmt, r.res.value, items, Source.SourceState(q.scopes, r.w, s.depth + 1));
        loop.error == meant.error && loop.s.w == meant.s.w
    ensures var run := ExecForeach(env, out, s); var meant := Source.RunForeach(source, stmt, q);
      run.error == meant.error && run.s.w == meant.s.w && run.s.depth == meant.s.depth && run.s.b == s.b && meant.s.scopes == q.scopes
  {
    hide EvalExpr, Source.Run, ExecLoop, Source.RunLoop;
  }

  lemma MatchesByFrames(t: Table, u: Table, scopes: seq<Source.Scope>, b: Bindings)
    requires Matches(t, scopes, b) && t.frames == u.frames
    ensures Matches(u, scopes, b)
  {
    assert forall i, name :: InFrame(u, i, name) <==> InFrame(t, i, name);
  }

  // The state in which a loop's body is lowered.
  function BodyState(t: Table, nodes: Nodes, name: string, ty: Type, cls: Classification): LState
    requires t.frames != []
  {
    LState(Declared(Enter(t), name, VALUE, ty, cls), nodes)
  }

  // Every iteration starts from the same table and rebinds the loop's symbols afresh.
  lemma {:induction false} LoopMeansTheSame(tools: Tools, source: Source.SourceEnv, env: Env, stmt: AstStmt, out: Stmt, t: Table, nodes: Nodes, g: Typing.Scope, collection: Envelope, items: seq<Value>, s: State, q: Source.SourceState)
    requires stmt.AForeach? && PlainBody(stmt.body) && Ready(tools, source, env, t, g, q.scopes, s.b) && Framed(s.b) && q.scopes != [] && Distinct(OutputNameSeq(env.outputs))
    requires s.w == q.w && s.depth == q.depth
    requires collection.ty.TList? && !Visible(Enter(t).frames, stmt.loopName)
    requires var inner := BodyState(t, nodes, stmt.loopName, collection.ty.item, collection.cls);
      && out.Foreach? && out.loopVariable == inner.table.symbolCounter
      && LowerBlock(tools, env.outputs, stmt.body, inner).Ok?
      && out.body == LowerBlock(tools, env.outputs, stmt.body, inner).value.stmts
    ensures var r := ExecLoop(env, out, collection, items, s);
      var p := Source.RunLoop(source, stmt, collection, items, q);
      r.error == p.error && r.s.w == p.s.w && r.s.depth == p.s.depth
    decreases stmt, 0, |items|
  {
    assert t.frames != [];
    if items != [] && s.w.meter.loopIterations < env.limits.loopIterations {
      var inner := BodyState(t, nodes, stmt.loopName, collection.ty.item, collection.cls);
      var item := ItemEnvelope(collection, items[0]);
      IterationIsReady(tools, source, env, t, g, q.scopes, s.b, stmt.loopName, collection.ty.item, collection.cls, item);
      LoopStep(env, out, collection, items, s);
      SourceLoopStep(source, stmt, collection, items, q);
      var entry := LoopEntry(out, collection, items, s);
      var start := SourceEntry(stmt, collection, items, q);
      hide *;
      BlockMeansTheSame(tools, source, env, stmt.body, inner, g[inner.table.symbolCounter := Tag(collection.ty.item, collection.cls)], entry, start);
      var body := ExecBlock(env, out.body, entry);
      if body.error.None? {
        LoopMeansTheSame(tools, source, env, stmt, out, t, nodes, g, collection, items[1..], State(s.b, body.s.w, s.depth), Source.SourceState(q.scopes, body.s.w, s.depth));
      }
    }
  }

  // The state an iteration's body starts from in the source.
  function SourceEntry(stmt: AstStmt, collection: Envelope, items: seq<Value>, q: Source.SourceState): Source.SourceState
    requires stmt.AForeach? && items != []
  {
    Source.SourceState(q.scopes + [map[stmt.loopName := ItemEnvelope(collection, items[0])]],
                       q.w.(meter := q.w.meter.(loopIterations := q.w.meter.loopIterations + 1)), q.depth)
  }

  lemma SourceLoopStep(source: Source.SourceEnv, stmt: AstStmt, collection: Envelope, items: seq<Value>, q: Source.SourceState)
    requires stmt.AForeach? && q.scopes != [] && items != [] && q.w.meter.loopIterations < source.limits.loopIterations
    ensures var body := Source.RunBlock(source, stmt.body, SourceEntry(stmt, collection, items, q));
      Source.RunLoop(source, stmt, collection, items, q) ==
        if body.error.Some? then Source.SourceExec(body.error, Source.SourceState(q.scopes, body.s.w, q.depth))
        else Source.RunLoop(source, stmt, collection, items[1..], Source.SourceState(q.scopes, body.s.w, q.depth))
  {
    hide Source.RunBlock;
  }

  lemma {:induction false} IterationIsReady(tools: Tools, source: Source.SourceEnv, env: Env, t: Table, g: Typing.Scope, scopes: seq<Source.Scope>, b: Bindings, name: string, ty: Type, cls: Classification, item: Envelope)
    requires Ready(tools, source, env, t, g, scopes, b) && Framed(b) && !Visible(Enter(t).frames, name) && Typed(item, Tag(ty, cls), false)
    ensures var d := Declared(Enter(t), name, VALUE, ty, cls);
      && !IsBound(Push(b), d.symbolCounter)
      && Ready(tools, source, env, d, g[d.symbolCounter := Tag(ty, cls)], scopes + [map[name := item]], Bind(Push(b), d.symbolCounter, item))
  {
    EnteringDescribes(t, g);
    EnteringMatches(t, scopes, b);
    PushKeepsScope(g, b, false);
    DeclaringDescribes(Enter(t), g, name, VALUE, ty, cls);
    DeclaringMatches(Enter(t), g, scopes + [map[]], Push(b), name, VALUE, ty, cls, item, false);
    assert Source.Define(scopes + [map[]], name, item) == scopes + [map[name := item]];
    hide ScopeHolds, Matches, Describes, Unambiguous;
  }

  lemma {:induction false} BlockMeansTheSame(tools: Tools, source: Source.SourceEnv, env: Env, stmts: seq<AstStmt>, l: LState, g: Typing.Scope, s: State, q: Source.SourceState)
    requires PlainBody(stmts) && Ready(tools, source, env, l.table, g, q.scopes, s.b) && Framed(s.b) && q.scopes != [] && Distinct(OutputNameSeq(env.outputs))
    requires s.w == q.w && s.depth == q.depth
    requires LowerBlock(tools, env.outputs, stmts, l).Ok?
    ensures var out := LowerBlock(tools, env.outputs, stmts, l).value;
      SameOutcome(tools, source, env, out.state.table, ScopeAfterBlock(SignatureOf(env), g, out.stmts), ExecBlock(env, out.stmts, s), Source.RunBlock(source, stmts, q))
    decreases stmts, 2, 0
  {
    hide ExecStmt, Source.RunStmt, LowerStmt, ScopeHolds, Matches, Describes, Unambiguous;
    if stmts != [] {
      StmtMeansTheSame(tools, source, env, stmts[0], l, g, s, q);
      LoweredStmtIsTyped(tools, SignatureOf(env), stmts[0], l, g);
      var first := LowerStmt(tools, env.outputs, stmts[0], l).value;
      var r := ExecStmt(env, first.stmt, s);
      var p := Source.RunStmt(source, stmts[0], q);
      var rest := LowerBlock(tools, env.outputs, stmts[1..], first.state).value;
      assert ([first.stmt] + rest.stmts)[1..] == rest.stmts;
      if r.error.None? {
        BlockMeansTheSame(tools, source, env, stmts[1..], first.state, ScopeAfter(SignatureOf(env), g, first.stmt), r.s, p.s);
      }
    }
  }
}
