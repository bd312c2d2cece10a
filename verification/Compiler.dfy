// Lowering: names become numbered symbols, every expression gets its static type, every
// statement its node identity, and the result is checked against the declared limits.

module Compiler {
  import opened Wrappers
  import opened Core
  import opened Operators
  import opened Ir
  import opened Semantics
  import opened Symbols
  import opened Ast
  import opened Bounds

  datatype Capability = READ | WRITE

  datatype ToolEntry = ToolEntry(ref: ToolRef, contract: Contract, capability: Capability)

  type Tools = map<string, ToolEntry>

  datatype CompileError =
    | DuplicateSymbol
    | UnknownIdentifier
    | UnknownField
    | UnsupportedBuiltin
    | BinaryType
    | UndeclaredTool
    | WriteToolForbidden
    | ToolArguments
    | ToolArgumentType
    | ForeachCollectionType
    | CheckConditionType
    | EmitSchemaMismatch
    | OutputType
    | OutputClassification
    | DuplicateTool
    | UnknownTool
    | UnboundedStructure
    | ToolCallBound
    | LoopBound
    | EmitBound

  // Node identities are numbered per kind.
  type Nodes = map<NodeKind, nat>

  function Used(n: Nodes, kind: NodeKind): nat {
    if kind in n then n[kind] else 0
  }

  function Next(n: Nodes, kind: NodeKind): NodeId {
    NodeId(kind, Used(n, kind) + 1)
  }

  function Taken(n: Nodes, kind: NodeKind): Nodes {
    n[kind := Used(n, kind) + 1]
  }

  datatype Lowered = Lowered(expr: Expr, cls: Classification, nodes: Nodes)

  datatype LoweredArguments = LoweredArguments(arguments: seq<Argument>, nodes: Nodes)

  datatype LoweredOperands = LoweredOperands(operands: seq<Expr>, classes: seq<Classification>, nodes: Nodes)

  // ---------- expressions ----------

  function LowerExpr(tools: Tools, t: Table, e: AstExpr, n: Nodes): (r: Result<Lowered, CompileError>)
    decreases e, 1
  {
    match e
    case ALiteral(v, ty) => Ok(Lowered(Literal(Next(n, ExprNode), v, ty), PUBLIC, Taken(n, ExprNode)))
    case APath(root, parts) =>
      (match Find(t.frames, root)
       case None => Err(UnknownIdentifier)
       case Some(b) =>
         var l :- LowerPath(SymbolRef(Next(n, ExprNode), b.id, b.ty), parts, Taken(n, ExprNode));
         Ok(Lowered(l.0, b.cls, l.1)))
    case ACall(name, operands) =>
      var l :- LowerOperands(tools, t, operands, n);
      (match BuiltinNamed(name)
       case None => Err(UnsupportedBuiltin)
       case Some(f) =>
         match BuiltinResult(f, OperandTypes(l.operands))
         case None => Err(UnsupportedBuiltin)
         case Some(ty) => Ok(Lowered(Call(Next(l.nodes, ExprNode), f, l.operands, ty), l.classes[0], Taken(l.nodes, ExprNode))))
    case ABinary(op, left, right) =>
      var l :- LowerExpr(tools, t, left, n);
      var r :- LowerExpr(tools, t, right, l.nodes);
      (match BinaryResult(op, l.expr.ty, r.expr.ty)
       case None => Err(BinaryType)
       case Some(ty) => Ok(Lowered(Binary(Next(r.nodes, ExprNode), op, l.expr, r.expr, ty), Highest(l.cls, r.cls), Taken(r.nodes, ExprNode))))
    case ARead(tool, arguments) =>
      if tool !in tools then Err(UndeclaredTool)
      else if tools[tool].capability != READ then Err(WriteToolForbidden)
      else
        var contract := tools[tool].contract;
        if !NamesMatch(AstArgumentNames(arguments), FieldNames(contract.inputs)) then Err(ToolArguments)
        else
          var l :- LowerArguments(tools, t, contract, arguments, n);
          Ok(Lowered(Read(Next(l.nodes, ReadNode), tools[tool].ref, l.arguments, contract.output, ResultPolicy(true, false, contract.emptyIsValid)),
                     contract.outputClass, Taken(l.nodes, ReadNode)))
    case AWrite(tool, arguments, approval) =>
      if tool !in tools then Err(UndeclaredTool)
      else
        var contract := tools[tool].contract;
        if !NamesMatch(AstArgumentNames(arguments), FieldNames(contract.inputs)) then Err(ToolArguments)
        else
          var l :- LowerArguments(tools, t, contract, arguments, n);
          Ok(Lowered(Write(Next(l.nodes, WriteNode), tools[tool].ref, l.arguments, approval, contract.output),
                     contract.outputClass, Taken(l.nodes, WriteNode)))
  }

  function LowerPath(source: Expr, parts: seq<string>, n: Nodes): Result<(Expr, Nodes), CompileError>
    decreases |parts|
  {
    if parts == [] then Ok((source, n))
    else match FieldResult(source.ty, parts[0])
      case None => Err(UnknownField)
      case Some((ty, projected)) =>
        var id := Next(n, ExprNode);
        LowerPath(if projected then Projection(id, source, parts[0], ty) else Field(id, source, parts[0], ty), parts[1..], Taken(n, ExprNode))
  }

  function OperandTypes(es: seq<Expr>): seq<Type> {
    seq(|es|, i requires 0 <= i < |es| => es[i].ty)
  }

  function LowerOperands(tools: Tools, t: Table, es: seq<AstExpr>, n: Nodes): (r: Result<LoweredOperands, CompileError>)
    ensures r.Ok? ==> |r.value.operands| == |r.value.classes| == |es|
    decreases es, 0
  {
    if es == [] then Ok(LoweredOperands([], [], n))
    else
      var first :- LowerExpr(tools, t, es[0], n);
      var rest :- LowerOperands(tools, t, es[1..], first.nodes);
      Ok(LoweredOperands([first.expr] + rest.operands, [first.cls] + rest.classes, rest.nodes))
  }

  function LowerArguments(tools: Tools, t: Table, contract: Contract, args: seq<AstArgument>, n: Nodes): (r: Result<LoweredArguments, CompileError>)
    decreases args, 0
  {
    if args == [] then Ok(LoweredArguments([], n))
    else
      var first :- LowerExpr(tools, t, args[0].value, n);
      if LookupField(contract.inputs, args[0].name) != Some(first.expr.ty) then Err(ToolArgumentType)
      else
        var rest :- LowerArguments(tools, t, contract, args[1..], first.nodes);
        Ok(LoweredArguments([Argument(args[0].name, first.expr)] + rest.arguments, rest.nodes))
  }

  // ---------- statements ----------

  datatype LState = LState(table: Table, nodes: Nodes)

  datatype LoweredStmt = LoweredStmt(stmt: Stmt, state: LState)

  datatype LoweredBlock = LoweredBlock(stmts: seq<Stmt>, state: LState)

  function DeclareIn(s: LState, name: string, namespace: Namespace, ty: Type, cls: Classification): Result<LState, CompileError>
    requires s.table.frames != []
  {
    if Visible(s.table.frames, name) then Err(DuplicateSymbol)
    else Ok(s.(table := Declared(s.table, name, namespace, ty, cls)))
  }

  function TakeNode(s: LState, kind: NodeKind): LState {
    s.(nodes := Taken(s.nodes, kind))
  }

  function LowerFields(tools: Tools, t: Table, outputs: seq<OutputField>, fields: seq<AstArgument>, n: Nodes): Result<LoweredArguments, CompileError>
    requires forall i | 0 <= i < |fields| :: fields[i].name in OutputNames(outputs)
    decreases |fields|
  {
    if fields == [] then Ok(LoweredArguments([], n))
    else
      var first :- LowerExpr(tools, t, fields[0].value, n);
      var output := LookupOutput(outputs, fields[0].name);
      if first.expr.ty != output.ty then Err(OutputType)
      else if !Allows(first.cls, output.cls) then Err(OutputClassification)
      else
        var rest :- LowerFields(tools, t, outputs, fields[1..], first.nodes);
        Ok(LoweredArguments([Argument(fields[0].name, first.expr)] + rest.arguments, rest.nodes))
  }

  lemma FieldNamesKnown(outputs: seq<OutputField>, fields: seq<AstArgument>)
    requires NamesMatch(AstArgumentNames(fields), OutputNames(outputs))
    ensures forall i | 0 <= i < |fields| :: fields[i].name in OutputNames(outputs)
  {
    forall i | 0 <= i < |fields| ensures fields[i].name in OutputNames(outputs) {
      assert AstArgumentNames(fields)[i] == fields[i].name;
      assert fields[i].name in (set n | n in AstArgumentNames(fields));
    }
  }

  function LowerStmt(tools: Tools, outputs: seq<OutputField>, stmt: AstStmt, s: LState): (r: Result<LoweredStmt, CompileError>)
    requires s.table.frames != []
    ensures r.Ok? ==> |r.value.state.table.frames| == |s.table.frames|
    decreases stmt, 0
  {
    match stmt
    case ALet(name, value) =>
      var l :- LowerExpr(tools, s.table, value, s.nodes);
      var d :- DeclareIn(s.(nodes := l.nodes), name, VALUE, l.expr.ty, l.cls);
      Ok(LoweredStmt(Let(Next(d.nodes, StmtNode), d.table.symbolCounter, l.expr), TakeNode(d, StmtNode)))
    case AForeach(loopName, collection, maxIterations, body) =>
      var c :- LowerExpr(tools, s.table, collection, s.nodes);
      if !c.expr.ty.TList? then Err(ForeachCollectionType)
      else
        var inner :- DeclareIn(LState(Enter(s.table), c.nodes), loopName, VALUE, c.expr.ty.item, c.cls);
        var b :- LowerBlock(tools, outputs, body, inner);
        var left := b.state.(table := Leave(b.state.table));
        Ok(LoweredStmt(Foreach(Next(left.nodes, StmtNode), inner.table.symbolCounter, c.expr, maxIterations, b.stmts), TakeNode(left, StmtNode)))
    case ACheck(checkId, condition, severity, onFail, message) =>
      var l :- LowerExpr(tools, s.table, condition, s.nodes);
      if !l.expr.ty.TBool? then Err(CheckConditionType)
      else
        var d :- DeclareIn(s.(nodes := l.nodes), checkId, CHECKS, CHECK_RESULT, INTERNAL);
        Ok(LoweredStmt(Check(Next(d.nodes, CheckNode), checkId, l.expr, severity, onFail, message, d.table.symbolCounter), TakeNode(d, CheckNode)))
    case AEmit(fields) =>
      if !NamesMatch(AstArgumentNames(fields), OutputNames(outputs)) then Err(EmitSchemaMismatch)
      else
        FieldNamesKnown(outputs, fields);
        var l :- LowerFields(tools, s.table, outputs, fields, s.nodes);
        Ok(LoweredStmt(Emit(Next(l.nodes, EmitNode), l.arguments), TakeNode(s.(nodes := l.nodes), EmitNode)))
    case AApprove(approvalId, message) =>
      Ok(LoweredStmt(Approval(Next(s.nodes, ApprovalNode), approvalId, message, None), TakeNode(s, ApprovalNode)))
  }

  function LowerBlock(tools: Tools, outputs: seq<OutputField>, stmts: seq<AstStmt>, s: LState): (r: Result<LoweredBlock, CompileError>)
    requires s.table.frames != []
    ensures r.Ok? ==> |r.value.state.table.frames| == |s.table.frames|
    decreases stmts, 1
  {
    if stmts == [] then Ok(LoweredBlock([], s))
    else
      var first :- LowerStmt(tools, outputs, stmts[0], s);
      var rest :- LowerBlock(tools, outputs, stmts[1..], first.state);
      Ok(LoweredBlock([first.stmt] + rest.stmts, rest.state))
  }

  // ---------- whole skills ----------

  type Catalog = map<(string, string), ToolEntry>

  // A declared input or context value and its symbol.
  datatype Spec = Spec(symbol: SymbolId, field: AstField)

  datatype Skill = Skill(
    tools: map<ToolRef, Contract>,
    limits: Limits,
    inputs: seq<Spec>,
    contexts: seq<Spec>,
    outputs: seq<OutputField>,
    body: seq<Stmt>,
    bound: Bound)

  // The required tools, numbered from one in order of declaration.
  function ResolveTools(catalog: Catalog, wanted: seq<AstRequire>): (r: Result<Tools, CompileError>)
    ensures r.Ok? ==> forall id | id in r.value :: 1 <= r.value[id].ref <= |wanted|
    ensures r.Ok? ==> forall a, b | a in r.value && b in r.value && r.value[a].ref == r.value[b].ref :: a == b
  {
    if wanted == [] then Ok(map[])
    else
      var n := |wanted| - 1;
      var front :- ResolveTools(catalog, wanted[..n]);
      var last := wanted[n];
      if last.toolId in front then Err(DuplicateTool)
      else if (last.toolId, last.version) !in catalog then Err(UnknownTool)
      else Ok(front[last.toolId := catalog[(last.toolId, last.version)].(ref := n + 1)])
  }

  function ContractsByRef(tools: Tools): map<ToolRef, Contract>
    requires forall a, b | a in tools && b in tools && tools[a].ref == tools[b].ref :: a == b
  {
    map id | id in tools :: tools[id].ref := tools[id].contract
  }

  datatype Declarations = Declarations(specs: seq<Spec>, table: Table)

  function DeclareSpecs(fields: seq<AstField>, t: Table): (r: Result<Declarations, CompileError>)
    requires t.frames != []
    ensures r.Ok? ==> |r.value.table.frames| == |t.frames| && |r.value.specs| == |fields|
    ensures r.Ok? ==> forall i | 0 <= i < |fields| :: r.value.specs[i].field == fields[i]
    decreases |fields|
  {
    if fields == [] then Ok(Declarations([], t))
    else
      var f := fields[0];
      if Visible(t.frames, f.name) then Err(DuplicateSymbol)
      else
        var rest :- DeclareSpecs(fields[1..], Declared(t, f.name, VALUE, f.ty, f.cls));
        Ok(Declarations([Spec(t.symbolCounter + 1, f)] + rest.specs, rest.table))
  }

  function Compile(catalog: Catalog, ast: AstSkill): Result<Skill, CompileError> {
    var tools :- ResolveTools(catalog, ast.requires_);
    var inputs :- DeclareSpecs(ast.inputs, ROOT_TABLE);
    var contexts :- DeclareSpecs(ast.contexts, inputs.table);
    if !Distinct(OutputNameSeq(ast.outputs)) then Err(EmitSchemaMismatch)
    else
      var b :- LowerBlock(tools, ast.outputs, ast.body, LState(contexts.table, map[]));
      var bound := BlockBound(b.stmts);
      if !Bounded(b.stmts) then Err(UnboundedStructure)
      else if bound.toolCalls > ast.limits.toolCalls then Err(ToolCallBound)
      else if bound.loopIterations > ast.limits.loopIterations then Err(LoopBound)
      else if bound.emitRecords > ast.limits.emittedRows then Err(EmitBound)
      else Ok(Skill(ContractsByRef(tools), ast.limits, inputs.specs, contexts.specs, ast.outputs, b.stmts, bound))
  }
}
