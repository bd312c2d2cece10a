// Lowering loses nothing: with the names of the symbols and tools, a lowered body reads back as the
// body it was lowered from.

module Unlowering {
  import opened Wrappers
  import opened Core
  import opened Operators
  import opened Ir
  import opened Semantics
  import opened Symbols
  import opened Ast
  import opened Bounds
  import opened Compiler
  import opened Acceptance

  // What the numbers stand for: symbols are numbered from one, tools as they were resolved.
  datatype Legend = Legend(symbols: seq<string>, tools: map<ToolRef, string>)

  function SymbolName(k: Legend, id: SymbolId): string {
    if 1 <= id <= |k.symbols| then k.symbols[id - 1] else ""
  }

  function ToolName(k: Legend, ref: ToolRef): string {
    if ref in k.tools then k.tools[ref] else ""
  }

  function BuiltinText(f: Builtin): string {
    match f case Count => "count" case Max => "max" case Min => "min" case Sum => "sum"
  }

  // ---------- reading back ----------

  function Behind(a: AstExpr, field: string): AstExpr {
    if a.APath? then APath(a.root, a.parts + [field]) else a
  }

  function ExprRead(k: Legend, e: Expr): AstExpr
    decreases e, 1
  {
    match e
    case Literal(_, v, ty) => ALiteral(v, ty)
    case SymbolRef(_, symbol, _) => APath(SymbolName(k, symbol), [])
    case Field(_, source, field, _) => Behind(ExprRead(k, source), field)
    case Projection(_, source, field, _) => Behind(ExprRead(k, source), field)
    case Call(_, f, operands, _) => ACall(BuiltinText(f), OperandsRead(k, operands))
    case Binary(_, op, left, right, _) => ABinary(op, ExprRead(k, left), ExprRead(k, right))
    case Read(_, tool, arguments, _, _) => ARead(ToolName(k, tool), ArgumentsRead(k, arguments))
    case Write(_, tool, arguments, approval, _) => AWrite(ToolName(k, tool), ArgumentsRead(k, arguments), approval)
  }

  function OperandsRead(k: Legend, es: seq<Expr>): seq<AstExpr>
    decreases es, 0
  {
    if es == [] then [] else [ExprRead(k, es[0])] + OperandsRead(k, es[1..])
  }

  function ArgumentsRead(k: Legend, args: seq<Argument>): seq<AstArgument>
    decreases args, 0
  {
    if args == [] then [] else [AstArgument(args[0].name, ExprRead(k, args[0].value))] + ArgumentsRead(k, args[1..])
  }

  function StmtRead(k: Legend, stmt: Stmt): AstStmt
    decreases stmt, 0
  {
    match stmt
    case Let(_, target, value) => ALet(SymbolName(k, target), ExprRead(k, value))
    case Foreach(_, loopVariable, collection, maxIterations, body) =>
      AForeach(SymbolName(k, loopVariable), ExprRead(k, collection), maxIterations, BlockRead(k, body))
    case Check(_, _, condition, severity, onFail, message, result) =>
      ACheck(SymbolName(k, result), ExprRead(k, condition), severity, onFail, message)
    case Emit(_, fields) => AEmit(ArgumentsRead(k, fields))
    case Approval(_, approvalId, message, _) => AApprove(approvalId, message)
  }

  function BlockRead(k: Legend, stmts: seq<Stmt>): seq<AstStmt>
    decreases stmts, 1
  {
    if stmts == [] then [] else [StmtRead(k, stmts[0])] + BlockRead(k, stmts[1..])
  }

  // ---------- legends that fit ----------

  predicate Lists(k: Legend, t: Table) {
    |t.bindings| <= |k.symbols| && forall i | 0 <= i < |t.bindings| :: k.symbols[i] == t.bindings[i].name
  }

  predicate Resolves(k: Legend, tools: Tools) {
    forall id | id in tools :: tools[id].ref in k.tools && k.tools[tools[id].ref] == id
  }

  lemma VisibleIsListed(k: Legend, t: Table, name: string)
    requires Unambiguous(t) && Lists(k, t) && Find(t.frames, name).Some?
    ensures SymbolName(k, Find(t.frames, name).value.id) == name
  {
    var b := Find(t.frames, name).value;
    var i :| 0 <= i < |t.frames| && name in t.frames[i].names && t.frames[i].names[name] == b;
    assert InFrame(t, i, name) && Issued(t, name, b);
  }

  lemma EarlierIsListed(k: Legend, t: Table, u: Table)
    requires t.bindings <= u.bindings && Lists(k, u)
    ensures Lists(k, t)
  {
  }

  // ---------- expressions ----------

  lemma {:induction false} PathReadsBack(k: Legend, source: Expr, parts: seq<string>, n: Nodes)
    requires LowerPath(source, parts, n).Ok? && ExprRead(k, source).APath?
    ensures var a := ExprRead(k, source); ExprRead(k, LowerPath(source, parts, n).value.0) == APath(a.root, a.parts + parts)
    decreases |parts|
  {
    if parts == [] {
      assert ExprRead(k, source).parts + [] == ExprRead(k, source).parts;
    } else {
      var (ty, projected) := FieldResult(source.ty, parts[0]).value;
      var id := Next(n, ExprNode);
      var next := if projected then Projection(id, source, parts[0], ty) else Field(id, source, parts[0], ty);
      StepReadsBack(k, source, next, parts[0]);
      hide ExprRead, FieldResult;
      PathReadsBack(k, next, parts[1..], Taken(n, ExprNode));
      assert ExprRead(k, source).parts + [parts[0]] + parts[1..] == ExprRead(k, source).parts + parts;
    }
  }

  lemma StepReadsBack(k: Legend, source: Expr, next: Expr, field: string)
    requires (next.Field? || next.Projection?) && next.source == source && next.field == field
    ensures ExprRead(k, next) == Behind(ExprRead(k, source), field)
  {
  }

  lemma {:induction false} ExprReadsBack(k: Legend, tools: Tools, t: Table, e: AstExpr, n: Nodes)
    requires Unambiguous(t) && Lists(k, t) && Resolves(k, tools) && LowerExpr(tools, t, e, n).Ok?
    ensures ExprRead(k, LowerExpr(tools, t, e, n).value.expr) == e
    decreases e, 1
  {
    hide Unambiguous, Lists, Find, LowerPath, NamesMatch, BuiltinResult, BinaryResult, LowerArguments, LowerOperands, ArgumentsRead, OperandsRead, SymbolName;
    match e
    case ALiteral(_, _) =>
    case APath(root, parts) =>
      VisibleIsListed(k, t, root);
      var b := Find(t.frames, root).value;
      PathReadsBack(k, SymbolRef(Next(n, ExprNode), b.id, b.ty), parts, Taken(n, ExprNode));
      assert [] + parts == parts;
    case ACall(name, operands) => OperandsReadBack(k, tools, t, operands, n);
    case ABinary(_, left, right) =>
      ExprReadsBack(k, tools, t, left, n);
      ExprReadsBack(k, tools, t, right, LowerExpr(tools, t, left, n).value.nodes);
    case ARead(tool, arguments) => ArgumentsReadBack(k, tools, t, tools[tool].contract, arguments, n);
    case AWrite(tool, arguments, _) => ArgumentsReadBack(k, tools, t, tools[tool].contract, arguments, n);
  }

  lemma {:induction false} OperandsReadBack(k: Legend, tools: Tools, t: Table, es: seq<AstExpr>, n: Nodes)
    requires Unambiguous(t) && Lists(k, t) && Resolves(k, tools) && LowerOperands(tools, t, es, n).Ok?
    ensures OperandsRead(k, LowerOperands(tools, t, es, n).value.operands) == es
    decreases es, 0
  {
    hide Unambiguous, Lists, Resolves, LowerExpr, ExprRead;
    if es != [] {
      var first := LowerExpr(tools, t, es[0], n).value;
      ExprReadsBack(k, tools, t, es[0], n);
      OperandsReadBack(k, tools, t, es[1..], first.nodes);
      var lowered := LowerOperands(tools, t, es, n).value.operands;
      assert lowered[1..] == LowerOperands(tools, t, es[1..], first.nodes).value.operands;
    }
  }

  lemma {:induction false} ArgumentsReadBack(k: Legend, tools: Tools, t: Table, contract: Contract, args: seq<AstArgument>, n: Nodes)
    requires Unambiguous(t) && Lists(k, t) && Resolves(k, tools) && LowerArguments(tools, t, contract, args, n).Ok?
    ensures ArgumentsRead(k, LowerArguments(tools, t, contract, args, n).value.arguments) == args
    decreases args, 0
  {
    hide Unambiguous, Lists, Resolves, LowerExpr, ExprRead;
    if args != [] {
      var first := LowerExpr(tools, t, args[0].value, n).value;
      ExprReadsBack(k, tools, t, args[0].value, n);
      ArgumentsReadBack(k, tools, t, contract, args[1..], first.nodes);
      var lowered := LowerArguments(tools, t, contract, args, n).value.arguments;
      assert lowered[1..] == LowerArguments(tools, t, contract, args[1..], first.nodes).value.arguments;
    }
  }

  lemma {:induction false} FieldsReadBack(k: Legend, tools: Tools, t: Table, outputs: seq<OutputField>, fields: seq<AstArgument>, n: Nodes)
    requires forall i | 0 <= i < |fields| :: fields[i].name in OutputNames(outputs)
    requires Unambiguous(t) && Lists(k, t) && Resolves(k, tools) && LowerFields(tools, t, outputs, fields, n).Ok?
    ensures ArgumentsRead(k, LowerFields(tools, t, outputs, fields, n).value.arguments) == fields
    decreases |fields|
  {
    hide Unambiguous, Lists, Resolves, LowerExpr, ExprRead;
    if fields != [] {
      var first := LowerExpr(tools, t, fields[0].value, n).value;
      ExprReadsBack(k, tools, t, fields[0].value, n);
      FieldsReadBack(k, tools, t, outputs, fields[1..], first.nodes);
      var lowered := LowerFields(tools, t, outputs, fields, n).value.arguments;
      assert lowered[1..] == LowerFields(tools, t, outputs, fields[1..], first.nodes).value.arguments;
    }
  }

  // ---------- statements ----------

  lemma LeavingStaysUnambiguous(u: Table)
    requires Unambiguous(u) && |u.frames| > 1
    ensures Unambiguous(Leave(u))
  {
    forall i, name | InFrame(Leave(u), i, name) ensures InFrame(u, i, name) {
    }
  }

  lemma {:induction false} StmtKeepsTheTable(tools: Tools, outputs: seq<OutputField>, stmt: AstStmt, s: LState)
    requires Unambiguous(s.table) && LowerStmt(tools, outputs, stmt, s).Ok?
    ensures var u := LowerStmt(tools, outputs, stmt, s).value.state.table; Unambiguous(u) && s.table.bindings <= u.bindings
    decreases stmt, 1
  {
    assert s.table.frames != [];
    hide Unambiguous, LowerExpr, LowerFields, LowerBlock, NamesMatch, Visible;
    match stmt
    case ALet(name, value) =>
      var l := LowerExpr(tools, s.table, value, s.nodes).value;
      DeclaringStaysUnambiguous(s.table, name, VALUE, l.expr.ty, l.cls);
    case ACheck(checkId, _, _, _, _) => DeclaringStaysUnambiguous(s.table, checkId, CHECKS, CHECK_RESULT, INTERNAL);
    case AEmit(_) =>
    case AApprove(_, _) =>
    case AForeach(_, _, _, _) => ForeachKeepsTheTable(tools, outputs, stmt, s);
  }

  lemma {:induction false} ForeachKeepsTheTable(tools: Tools, outputs: seq<OutputField>, stmt: AstStmt, s: LState)
    requires stmt.AForeach? && Unambiguous(s.table) && LowerStmt(tools, outputs, stmt, s).Ok?
    ensures var u := LowerStmt(tools, outputs, stmt, s).value.state.table; Unambiguous(u) && s.table.bindings <= u.bindings
    decreases stmt, 0
  {
    assert s.table.frames != [];
    hide Unambiguous, LowerExpr, LowerBlock, Visible;
    var c := LowerExpr(tools, s.table, stmt.collection, s.nodes).value;
    var entered := Enter(s.table);
    EnteringStaysUnambiguous(s.table);
    var inner := DeclareIn(LState(entered, c.nodes), stmt.loopName, VALUE, c.expr.ty.item, c.cls).value;
    DeclaringStaysUnambiguous(entered, stmt.loopName, VALUE, c.expr.ty.item, c.cls);
    BlockKeepsTheTable(tools, outputs, stmt.body, inner);
    LeavingStaysUnambiguous(LowerBlock(tools, outputs, stmt.body, inner).value.state.table);
  }

  lemma {:induction false} BlockKeepsTheTable(tools: Tools, outputs: seq<OutputField>, stmts: seq<AstStmt>, s: LState)
    requires Unambiguous(s.table) && s.table.frames != [] && LowerBlock(tools, outputs, stmts, s).Ok?
    ensures var u := LowerBlock(tools, outputs, stmts, s).value.state.table; Unambiguous(u) && s.table.bindings <= u.bindings
    decreases stmts, 2
  {
    hide LowerStmt, Unambiguous;
    if stmts != [] {
      StmtKeepsTheTable(tools, outputs, stmts[0], s);
      BlockKeepsTheTable(tools, outputs, stmts[1..], LowerStmt(tools, outputs, stmts[0], s).value.state);
    }
  }

  // A fresh symbol is the last one, and has the name it was declared with.
  lemma DeclaredIsListed(k: Legend, t: Table, name: string, namespace: Namespace, ty: Type, cls: Classification, u: Table)
    requires Unambiguous(t) && t.frames != []
    requires var d := Declared(t, name, namespace, ty, cls); d.bindings <= u.bindings && Lists(k, u)
    ensures SymbolName(k, Declared(t, name, namespace, ty, cls).symbolCounter) == name
  {
    var d := Declared(t, name, namespace, ty, cls);
    assert d.bindings[t.symbolCounter].name == name;
  }

  lemma {:induction false} StmtReadsBack(k: Legend, tools: Tools, outputs: seq<OutputField>, stmt: AstStmt, s: LState)
    requires Unambiguous(s.table) && Resolves(k, tools) && LowerStmt(tools, outputs, stmt, s).Ok?
    requires Lists(k, LowerStmt(tools, outputs, stmt, s).value.state.table)
    ensures StmtRead(k, LowerStmt(tools, outputs, stmt, s).value.stmt) == stmt
    decreases stmt, 1
  {
    assert s.table.frames != [];
    var l := LowerStmt(tools, outputs, stmt, s).value;
    StmtKeepsTheTable(tools, outputs, stmt, s);
    EarlierIsListed(k, s.table, l.state.table);
    hide Unambiguous, Lists, Resolves, LowerExpr, ExprRead, LowerFields, ArgumentsRead, LowerBlock, NamesMatch, Visible, SymbolName, Declared;
    match stmt
    case ALet(name, value) =>
      var v := LowerExpr(tools, s.table, value, s.nodes).value;
      ExprReadsBack(k, tools, s.table, value, s.nodes);
      DeclaredIsListed(k, s.table, name, VALUE, v.expr.ty, v.cls, l.state.table);
    case ACheck(checkId, condition, _, _, _) =>
      ExprReadsBack(k, tools, s.table, condition, s.nodes);
      DeclaredIsListed(k, s.table, checkId, CHECKS, CHECK_RESULT, INTERNAL, l.state.table);
    case AEmit(fields) =>
      FieldNamesKnown(outputs, fields);
      FieldsReadBack(k, tools, s.table, outputs, fields, s.nodes);
    case AApprove(_, _) =>
    case AForeach(_, _, _, _) => ForeachReadsBack(k, tools, outputs, stmt, s);
  }

  lemma {:induction false} ForeachReadsBack(k: Legend, tools: Tools, outputs: seq<OutputField>, stmt: AstStmt, s: LState)
    requires stmt.AForeach? && Unambiguous(s.table) && Resolves(k, tools) && LowerStmt(tools, outputs, stmt, s).Ok?
    requires Lists(k, s.table) && Lists(k, LowerStmt(tools, outputs, stmt, s).value.state.table)
    ensures StmtRead(k, LowerStmt(tools, outputs, stmt, s).value.stmt) == stmt
    decreases stmt, 0
  {
    assert s.table.frames != [];
    hide Unambiguous, Lists, Resolves, LowerExpr, ExprRead, LowerBlock, Visible, SymbolName;
    var c := LowerExpr(tools, s.table, stmt.collection, s.nodes).value;
    ExprReadsBack(k, tools, s.table, stmt.collection, s.nodes);
    var entered := Enter(s.table);
    EnteringStaysUnambiguous(s.table);
    var inner := DeclareIn(LState(entered, c.nodes), stmt.loopName, VALUE, c.expr.ty.item, c.cls).value;
    DeclaringStaysUnambiguous(entered, stmt.loopName, VALUE, c.expr.ty.item, c.cls);
    BlockKeepsTheTable(tools, outputs, stmt.body, inner);
    var u := LowerBlock(tools, outputs, stmt.body, inner).value.state.table;
    EarlierIsListed(k, u, LowerStmt(tools, outputs, stmt, s).value.state.table);
    BlockReadsBack(k, tools, outputs, stmt.body, inner);
    DeclaredIsListed(k, entered, stmt.loopName, VALUE, c.expr.ty.item, c.cls, u);
    hide Declared;
  }

  // With a legend for the tools and for every symbol declared by the end, the lowered block reads as the
  // block it came from.
  lemma {:induction false} BlockReadsBack(k: Legend, tools: Tools, outputs: seq<OutputField>, stmts: seq<AstStmt>, s: LState)
    requires Unambiguous(s.table) && s.table.frames != [] && Resolves(k, tools) && LowerBlock(tools, outputs, stmts, s).Ok?
    requires Lists(k, LowerBlock(tools, outputs, stmts, s).value.state.table)
    ensures BlockRead(k, LowerBlock(tools, outputs, stmts, s).value.stmts) == stmts
    decreases stmts, 2
  {
    hide LowerStmt, StmtRead, Unambiguous, Lists, Resolves;
    if stmts != [] {
      var first := LowerStmt(tools, outputs, stmts[0], s).value;
      StmtKeepsTheTable(tools, outputs, stmts[0], s);
      BlockKeepsTheTable(tools, outputs, stmts[1..], first.state);
      var b := LowerBlock(tools, outputs, stmts, s).value;
      EarlierIsListed(k, first.state.table, b.state.table);
      StmtReadsBack(k, tools, outputs, stmts[0], s);
      BlockReadsBack(k, tools, outputs, stmts[1..], first.state);
      assert b.stmts[1..] == LowerBlock(tools, outputs, stmts[1..], first.state).value.stmts;
    }
  }

  // Two blocks that are lowered alike, with the same names for the same numbers, are the same block.
  lemma {:induction false} LoweringIsInjective(tools: Tools, outputs: seq<OutputField>, a: seq<AstStmt>, b: seq<AstStmt>, s: LState)
    requires Unambiguous(s.table) && s.table.frames != []
    requires forall x, y | x in tools && y in tools && tools[x].ref == tools[y].ref :: x == y
    requires LowerBlock(tools, outputs, a, s).Ok? && LowerBlock(tools, outputs, b, s).Ok?
    requires LowerBlock(tools, outputs, a, s).value.stmts == LowerBlock(tools, outputs, b, s).value.stmts
    requires LowerBlock(tools, outputs, a, s).value.state.table.bindings == LowerBlock(tools, outputs, b, s).value.state.table.bindings
    ensures a == b
  {
    var bindings := LowerBlock(tools, outputs, a, s).value.state.table.bindings;
    var k := Legend(seq(|bindings|, i requires 0 <= i < |bindings| => bindings[i].name), map id | id in tools :: tools[id].ref := id);
    BlockReadsBack(k, tools, outputs, a, s);
    BlockReadsBack(k, tools, outputs, b, s);
    hide LowerBlock, BlockRead, Unambiguous;
  }

  // ---------- whole skills ----------

  lemma {:induction false} SpecsKeepTheTable(fields: seq<AstField>, t: Table)
    requires Unambiguous(t) && t.frames != [] && DeclareSpecs(fields, t).Ok?
    ensures var d := DeclareSpecs(fields, t).value;
      && Unambiguous(d.table) && t.bindings <= d.table.bindings
      && forall i | 0 <= i < |fields| :: SpecStands(d.specs[i], fields[i], d.table)
    decreases |fields|
  {
    hide Unambiguous, Visible;
    if fields != [] {
      var f := fields[0];
      var next := Declared(t, f.name, VALUE, f.ty, f.cls);
      DeclaringStaysUnambiguous(t, f.name, VALUE, f.ty, f.cls);
      SpecsKeepTheTable(fields[1..], next);
      var d := DeclareSpecs(fields, t).value;
      FirstStands(t, f, d.table);
      assert forall i | 1 <= i < |fields| :: fields[i] == fields[1..][i - 1] && d.specs[i] == d.specs[1..][i - 1];
    }
  }

  // The symbol is declared under the field's name.
  predicate SpecStands(spec: Spec, f: AstField, t: Table) {
    1 <= spec.symbol <= |t.bindings| && t.bindings[spec.symbol - 1].name == f.name
  }

  lemma FirstStands(t: Table, f: AstField, u: Table)
    requires Unambiguous(t) && t.frames != [] && Declared(t, f.name, VALUE, f.ty, f.cls).bindings <= u.bindings
    ensures SpecStands(Spec(t.symbolCounter + 1, f), f, u)
  {
    var d := Declared(t, f.name, VALUE, f.ty, f.cls);
    assert d.bindings[t.symbolCounter].name == f.name;
  }

  // What the compiler's numbers stand for in a compiled skill.
  ghost predicate Explains(k: Legend, skill: Skill, ast: AstSkill) {
    && |skill.inputs| == |ast.inputs| && |skill.contexts| == |ast.contexts|
    && (forall i | 0 <= i < |ast.inputs| :: SymbolName(k, skill.inputs[i].symbol) == ast.inputs[i].name)
    && (forall i | 0 <= i < |ast.contexts| :: SymbolName(k, skill.contexts[i].symbol) == ast.contexts[i].name)
    && (forall i | 0 <= i < |ast.requires_| :: ToolName(k, i + 1) == ast.requires_[i].toolId)
  }

  function LegendOf(tools: Tools, t: Table): Legend
    requires forall a, b | a in tools && b in tools && tools[a].ref == tools[b].ref :: a == b
  {
    Legend(seq(|t.bindings|, i requires 0 <= i < |t.bindings| => t.bindings[i].name), map id | id in tools :: tools[id].ref := id)
  }

  lemma ToolsAreNamed(catalog: Catalog, ast: AstSkill, t: Table)
    requires ResolveTools(catalog, ast.requires_).Ok?
    ensures var k := LegendOf(ResolveTools(catalog, ast.requires_).value, t);
      forall i | 0 <= i < |ast.requires_| :: ToolName(k, i + 1) == ast.requires_[i].toolId
  {
    ToolsAreResolved(catalog, ast.requires_);
    var tools := ResolveTools(catalog, ast.requires_).value;
    hide ResolveTools;
    forall i | 0 <= i < |ast.requires_| ensures ToolName(LegendOf(tools, t), i + 1) == ast.requires_[i].toolId {
      assert Entry(catalog, ast.requires_[i], i + 1, tools);
    }
  }

  lemma SpecIsNamed(tools: Tools, spec: Spec, f: AstField, t: Table, u: Table)
    requires SpecStands(spec, f, t) && t.bindings <= u.bindings
    requires forall a, b | a in tools && b in tools && tools[a].ref == tools[b].ref :: a == b
    ensures SymbolName(LegendOf(tools, u), spec.symbol) == f.name
  {
  }

  function InputSpecs(ast: AstSkill): Result<Declarations, CompileError> {
    DeclareSpecs(ast.inputs, ROOT_TABLE)
  }

  function ContextSpecs(ast: AstSkill): Result<Declarations, CompileError>
    requires InputSpecs(ast).Ok?
  {
    DeclareSpecs(ast.contexts, InputSpecs(ast).value.table)
  }

  function Body(tools: Tools, ast: AstSkill): Result<LoweredBlock, CompileError>
    requires InputSpecs(ast).Ok? && ContextSpecs(ast).Ok?
  {
    LowerBlock(tools, ast.outputs, ast.body, LState(ContextSpecs(ast).value.table, map[]))
  }

  lemma CompiledFrom(catalog: Catalog, ast: AstSkill)
    requires Compile(catalog, ast).Ok?
    ensures ResolveTools(catalog, ast.requires_).Ok? && InputSpecs(ast).Ok? && ContextSpecs(ast).Ok?
    ensures var tools := ResolveTools(catalog, ast.requires_).value; var skill := Compile(catalog, ast).value;
      && Body(tools, ast).Ok? && skill.body == Body(tools, ast).value.stmts
      && skill.inputs == InputSpecs(ast).value.specs && skill.contexts == ContextSpecs(ast).value.specs
  {
    hide ResolveTools, DeclareSpecs, LowerBlock, Bounded, BlockBound, ContractsByRef, Distinct;
  }

  lemma TablesAreKept(tools: Tools, ast: AstSkill)
    requires InputSpecs(ast).Ok? && ContextSpecs(ast).Ok? && Body(tools, ast).Ok?
    ensures var (inputs, contexts, b) := (InputSpecs(ast).value, ContextSpecs(ast).value, Body(tools, ast).value);
      && Unambiguous(contexts.table) && inputs.table.bindings <= contexts.table.bindings <= b.state.table.bindings
      && (forall i | 0 <= i < |ast.inputs| :: SpecStands(inputs.specs[i], ast.inputs[i], inputs.table))
      && (forall i | 0 <= i < |ast.contexts| :: SpecStands(contexts.specs[i], ast.contexts[i], contexts.table))
  {
    RootIsUnambiguous();
    hide DeclareSpecs, LowerBlock, Unambiguous, SpecStands;
    SpecsKeepTheTable(ast.inputs, ROOT_TABLE);
    SpecsKeepTheTable(ast.contexts, InputSpecs(ast).value.table);
    BlockKeepsTheTable(tools, ast.outputs, ast.body, LState(ContextSpecs(ast).value.table, map[]));
  }

  lemma BodyReadsBack(tools: Tools, ast: AstSkill)
    requires InputSpecs(ast).Ok? && ContextSpecs(ast).Ok? && Body(tools, ast).Ok?
    requires forall a, b | a in tools && b in tools && tools[a].ref == tools[b].ref :: a == b
    ensures BlockRead(LegendOf(tools, Body(tools, ast).value.state.table), Body(tools, ast).value.stmts) == ast.body
  {
    TablesAreKept(tools, ast);
    var t := ContextSpecs(ast).value.table;
    var u := Body(tools, ast).value.state.table;
    LegendFits(tools, u);
    assert t.frames != [];
    hide InputSpecs, ContextSpecs, LegendOf, Unambiguous, LowerBlock, BlockRead, Lists, Resolves, SpecStands;
    BlockReadsBack(LegendOf(tools, u), tools, ast.outputs, ast.body, LState(t, map[]));
  }

  // A compiled skill reads back, declarations and body, as the skill it was compiled from.
  lemma {:induction false} CompiledSkillReadsBack(catalog: Catalog, ast: AstSkill)
    requires Compile(catalog, ast).Ok?
    ensures exists k :: Explains(k, Compile(catalog, ast).value, ast) && BlockRead(k, Compile(catalog, ast).value.body) == ast.body
  {
    CompiledFrom(catalog, ast);
    var tools := ResolveTools(catalog, ast.requires_).value;
    TablesAreKept(tools, ast);
    BodyReadsBack(tools, ast);
    var inputs := InputSpecs(ast).value;
    var contexts := ContextSpecs(ast).value;
    var u := Body(tools, ast).value.state.table;
    ToolsAreNamed(catalog, ast, u);
    SpecCounts(ast);
    hide *;
    SpecsAreNamed(tools, inputs.specs, ast.inputs, inputs.table, u);
    SpecsAreNamed(tools, contexts.specs, ast.contexts, contexts.table, u);
    ExplainsWhatItNames(LegendOf(tools, u), Compile(catalog, ast).value, ast);
  }

  lemma SpecCounts(ast: AstSkill)
    requires InputSpecs(ast).Ok? && ContextSpecs(ast).Ok?
    ensures |InputSpecs(ast).value.specs| == |ast.inputs| && |ContextSpecs(ast).value.specs| == |ast.contexts|
  {
    hide DeclareSpecs;
  }

  lemma ExplainsWhatItNames(k: Legend, skill: Skill, ast: AstSkill)
    requires |skill.inputs| == |ast.inputs| && |skill.contexts| == |ast.contexts|
    requires forall i | 0 <= i < |ast.inputs| :: SymbolName(k, skill.inputs[i].symbol) == ast.inputs[i].name
    requires forall i | 0 <= i < |ast.contexts| :: SymbolName(k, skill.contexts[i].symbol) == ast.contexts[i].name
    requires forall i | 0 <= i < |ast.requires_| :: ToolName(k, i + 1) == ast.requires_[i].toolId
    ensures Explains(k, skill, ast)
  {
  }

  lemma SpecsAreNamed(tools: Tools, specs: seq<Spec>, fields: seq<AstField>, t: Table, u: Table)
    requires |specs| == |fields| && forall i | 0 <= i < |fields| :: SpecStands(specs[i], fields[i], t)
    requires t.bindings <= u.bindings && forall a, b | a in tools && b in tools && tools[a].ref == tools[b].ref :: a == b
    ensures forall i | 0 <= i < |fields| :: SymbolName(LegendOf(tools, u), specs[i].symbol) == fields[i].name
  {
    hide SymbolName, LegendOf, SpecStands;
    forall i | 0 <= i < |fields| ensures SymbolName(LegendOf(tools, u), specs[i].symbol) == fields[i].name {
      SpecIsNamed(tools, specs[i], fields[i], t, u);
    }
  }

  lemma LegendFits(tools: Tools, t: Table)
    requires forall a, b | a in tools && b in tools && tools[a].ref == tools[b].ref :: a == b
    ensures Lists(LegendOf(tools, t), t) && Resolves(LegendOf(tools, t), tools)
  {
  }

  lemma RootIsUnambiguous()
    ensures Unambiguous(ROOT_TABLE)
  {
  }
}
