// The syntax tree of a skill after include composition.

module Ast {
  import opened Wrappers
  import opened Core
  import opened Operators
  import opened Ir

  datatype AstArgument = AstArgument(name: string, value: AstExpr)

  datatype AstExpr =
    | ALiteral(value: Value, ty: Type)
    | APath(root: string, parts: seq<string>)
    | ACall(name: string, operands: seq<AstExpr>)
    | ARead(tool: string, arguments: seq<AstArgument>)
    | AWrite(tool: string, arguments: seq<AstArgument>, approval: string)
    | ABinary(op: BinOp, left: AstExpr, right: AstExpr)

  datatype AstStmt =
    | ALet(name: string, value: AstExpr)
    | AForeach(loopName: string, collection: AstExpr, maxIterations: nat, body: seq<AstStmt>)
    | ACheck(checkId: string, condition: AstExpr, severity: string, onFail: string, message: string)
    | AEmit(fields: seq<AstArgument>)
    | AApprove(approvalId: string, message: string)

  datatype AstField = AstField(name: string, ty: Type, cls: Classification, path: seq<string>)

  datatype AstRequire = AstRequire(toolId: string, version: string)

  datatype AstSkill = AstSkill(
    requires_: seq<AstRequire>,
    limits: Limits,
    inputs: seq<AstField>,
    contexts: seq<AstField>,
    outputs: seq<OutputField>,
    body: seq<AstStmt>)

  function AstArgumentNames(args: seq<AstArgument>): seq<string> {
    seq(|args|, i requires 0 <= i < |args| => args[i].name)
  }

  // The literals a parser produces: a value of the literal's own type.
  predicate LiteralsOk(e: AstExpr)
    decreases e
  {
    match e
    case ALiteral(v, ty) => Conforms(v, ty)
    case APath(_, _) => true
    case ACall(_, operands) => forall i | 0 <= i < |operands| :: LiteralsOk(operands[i])
    case ARead(_, arguments) => forall i | 0 <= i < |arguments| :: LiteralsOk(arguments[i].value)
    case AWrite(_, arguments, _) => forall i | 0 <= i < |arguments| :: LiteralsOk(arguments[i].value)
    case ABinary(_, left, right) => LiteralsOk(left) && LiteralsOk(right)
  }

  predicate WriteFree(e: AstExpr)
    decreases e
  {
    match e
    case ALiteral(_, _) => true
    case APath(_, _) => true
    case ACall(_, operands) => forall i | 0 <= i < |operands| :: WriteFree(operands[i])
    case ARead(_, arguments) => forall i | 0 <= i < |arguments| :: WriteFree(arguments[i].value)
    case AWrite(_, _, _) => false
    case ABinary(_, left, right) => WriteFree(left) && WriteFree(right)
  }

  predicate PlainExpr(e: AstExpr) {
    LiteralsOk(e) && WriteFree(e)
  }

  // No approval and no WRITE anywhere, and parser-made literals.
  predicate PlainBody(stmts: seq<AstStmt>)
    decreases stmts
  {
    forall i | 0 <= i < |stmts| :: PlainStmt(stmts[i])
  }

  predicate PlainStmt(stmt: AstStmt)
    decreases stmt
  {
    match stmt
    case ALet(_, value) => PlainExpr(value)
    case AForeach(_, collection, _, body) => PlainExpr(collection) && PlainBody(body)
    case ACheck(_, condition, _, _, _) => PlainExpr(condition)
    case AEmit(fields) => forall i | 0 <= i < |fields| :: PlainExpr(fields[i].value)
    case AApprove(_, _) => false
  }
}
