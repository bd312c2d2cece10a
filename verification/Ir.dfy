// The intermediate representation: numbered symbols, typed expressions, statements.

module Ir {
  import opened Wrappers
  import opened Core
  import opened Operators

  type SymbolId = nat
  type ToolRef = nat

  datatype NodeKind = ExprNode | ReadNode | WriteNode | StmtNode | CheckNode | EmitNode | ApprovalNode
  datatype NodeId = NodeId(kind: NodeKind, number: nat)

  datatype ResultPolicy = ResultPolicy(required: bool, acceptPartial: bool, emptyIsValid: bool)

  datatype Argument = Argument(name: string, value: Expr)

  datatype Expr =
    | Literal(id: NodeId, value: Value, ty: Type)
    | SymbolRef(id: NodeId, symbol: SymbolId, ty: Type)
    | Field(id: NodeId, source: Expr, field: string, ty: Type)
    | Projection(id: NodeId, source: Expr, field: string, ty: Type)
    | Call(id: NodeId, function_: Builtin, operands: seq<Expr>, ty: Type)
    | Binary(id: NodeId, op: BinOp, left: Expr, right: Expr, ty: Type)
    | Read(id: NodeId, tool: ToolRef, arguments: seq<Argument>, ty: Type, policy: ResultPolicy)
    | Write(id: NodeId, tool: ToolRef, arguments: seq<Argument>, approval: string, ty: Type)

  datatype Stmt =
    | Let(id: NodeId, target: SymbolId, value: Expr)
    | Foreach(id: NodeId, loopVariable: SymbolId, collection: Expr, maxIterations: nat, body: seq<Stmt>)
    | Check(id: NodeId, checkId: string, condition: Expr, severity: string, onFail: string, message: string, result: SymbolId)
    | Emit(id: NodeId, fields: seq<Argument>)
    | Approval(id: NodeId, approvalId: string, message: string, ttlSeconds: Option<nat>)

  datatype OutputField = OutputField(name: string, ty: Type, cls: Classification)

  datatype Limits = Limits(toolCalls: nat, loopIterations: nat, emittedRows: nat, collectionSize: nat)

  function ArgumentNames(args: seq<Argument>): seq<string> {
    seq(|args|, i requires 0 <= i < |args| => args[i].name)
  }

  predicate Distinct<T(==)>(s: seq<T>) {
    forall i, j | 0 <= i < j < |s| :: s[i] != s[j]
  }

  // The names are exactly those of the fields, each once.
  predicate NamesMatch(names: seq<string>, fields: set<string>) {
    Distinct(names) && (set n | n in names) == fields
  }

  function OutputNames(outputs: seq<OutputField>): set<string> {
    set i | 0 <= i < |outputs| :: outputs[i].name
  }

  function LookupOutput(outputs: seq<OutputField>, name: string): (r: OutputField)
    requires name in OutputNames(outputs)
    ensures r in outputs && r.name == name
  {
    if outputs[0].name == name then outputs[0]
    else
      assert name in OutputNames(outputs[1..]) by {
        var i :| 0 <= i < |outputs| && outputs[i].name == name;
        assert outputs[1..][i - 1].name == name;
      }
      LookupOutput(outputs[1..], name)
  }
}
