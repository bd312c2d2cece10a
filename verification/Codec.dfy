// The codec of the intermediate representation: expressions and statements as structured data.

module Codec {
  import opened Wrappers
  import opened Core
  import opened Operators
  import opened Ir
  import opened Json
  import opened Numerals

  // How identities are written and read back.
  datatype Names = Names(
    ofNode: NodeId -> string,
    toNode: string -> Option<NodeId>,
    ofSymbol: SymbolId -> string,
    toSymbol: string -> Option<SymbolId>,
    ofTool: ToolRef -> string,
    toTool: string -> Option<ToolRef>)

  ghost predicate Faithful(n: Names) {
    && (forall id: NodeId :: n.toNode(n.ofNode(id)) == Some(id))
    && (forall id: SymbolId :: n.toSymbol(n.ofSymbol(id)) == Some(id))
    && (forall ref: ToolRef :: n.toTool(n.ofTool(ref)) == Some(ref))
  }

  function KindLetter(k: NodeKind): char {
    match k
    case ExprNode => 'e' case ReadNode => 'r' case WriteNode => 'w' case StmtNode => 's'
    case CheckNode => 'c' case EmitNode => 'm' case ApprovalNode => 'a'
  }

  function KindOfLetter(c: char): Option<NodeKind> {
    if c == 'e' then Some(ExprNode) else if c == 'r' then Some(ReadNode) else if c == 'w' then Some(WriteNode)
    else if c == 's' then Some(StmtNode) else if c == 'c' then Some(CheckNode) else if c == 'm' then Some(EmitNode)
    else if c == 'a' then Some(ApprovalNode) else None
  }

  function ReadNumber(s: string): Option<nat> {
    if s != "" && AllDigits(s) then Some(Number(s)) else None
  }

  function NodeText(id: NodeId): string {
    [KindLetter(id.kind)] + Digits(id.number)
  }

  function NodeOfText(s: string): Option<NodeId> {
    if s == "" then None
    else match (KindOfLetter(s[0]), ReadNumber(s[1..]))
      case (Some(kind), Some(number)) => Some(NodeId(kind, number))
      case _ => None
  }

  // There are such names.
  lemma FaithfulNamesExist()
    ensures exists n: Names :: Faithful(n)
  {
    var n := Names(NodeText, NodeOfText, (id: SymbolId) => Digits(id), ReadNumber, (ref: ToolRef) => Digits(ref), ReadNumber);
    forall id: NodeId ensures n.toNode(n.ofNode(id)) == Some(id) {
      DigitsReadBack(id.number);
      assert NodeText(id)[1..] == Digits(id.number);
    }
    forall id: nat ensures ReadNumber(Digits(id)) == Some(id) {
      DigitsReadBack(id);
    }
    assert Faithful(n);
  }

  function OperatorName(op: BinOp): string {
    match op
    case ADD => "ADD" case SUB => "SUB" case MUL => "MUL" case DIV => "DIV"
    case LT => "LT" case LE => "LE" case GT => "GT" case GE => "GE"
    case EQ => "EQ" case NE => "NE"
  }

  function OperatorOf(name: string): (r: Option<BinOp>)
    ensures forall op :: OperatorName(op) == name ==> r == Some(op)
  {
    if name == "ADD" then Some(ADD) else if name == "SUB" then Some(SUB)
    else if name == "MUL" then Some(MUL) else if name == "DIV" then Some(DIV)
    else if name == "LT" then Some(LT) else if name == "LE" then Some(LE)
    else if name == "GT" then Some(GT) else if name == "GE" then Some(GE)
    else if name == "EQ" then Some(EQ) else if name == "NE" then Some(NE)
    else None
  }

  function BuiltinName(f: Builtin): string {
    match f case Count => "count" case Max => "max" case Min => "min" case Sum => "sum"
  }

  // ---------- expressions ----------

  // What every expression writes.
  function Base(n: Names, kind: string, id: NodeId, ty: Type): map<string, Json> {
    map["kind" := JText(kind), "node_id" := JText(n.ofNode(id)), "type" := TypeToJson(ty)]
  }

  function PolicyToJson(p: ResultPolicy): Json {
    JObject(map["required" := JBool(p.required), "accept_partial" := JBool(p.acceptPartial), "empty_is_valid" := JBool(p.emptyIsValid)])
  }

  function ExprToJson(n: Names, t: Texts, e: Expr): Json
    decreases e, 1
  {
    match e
    case Literal(id, v, ty) => JObject(Base(n, "literal", id, ty)["value" := EncodeValue(t, v)])
    case SymbolRef(id, symbol, ty) => JObject(Base(n, "symbol_ref", id, ty)["symbol_id" := JText(n.ofSymbol(symbol))])
    case Field(id, source, field, ty) => JObject(Base(n, "field", id, ty)["source" := ExprToJson(n, t, source)]["field" := JText(field)])
    case Projection(id, source, field, ty) => JObject(Base(n, "project", id, ty)["source" := ExprToJson(n, t, source)]["field" := JText(field)])
    case Call(id, f, operands, ty) =>
      JObject(Base(n, "call", id, ty)["function" := JText(BuiltinName(f))]["arguments" := JArray(ExprsToJson(n, t, operands))])
    case Binary(id, op, left, right, ty) =>
      JObject(Base(n, "binary", id, ty)["operator" := JText(OperatorName(op))]["left" := ExprToJson(n, t, left)]["right" := ExprToJson(n, t, right)])
    case Read(id, tool, arguments, ty, policy) =>
      JObject(Base(n, "read", id, ty)["tool_ref" := JText(n.ofTool(tool))]["arguments" := JArray(ArgumentsToJson(n, t, arguments))]["result_policy" := PolicyToJson(policy)])
    case Write(id, tool, arguments, approval, ty) =>
      JObject(Base(n, "write", id, ty)["tool_ref" := JText(n.ofTool(tool))]["approval_ref" := JText(approval)]["arguments" := JArray(ArgumentsToJson(n, t, arguments))])
  }

  function ExprsToJson(n: Names, t: Texts, es: seq<Expr>): seq<Json>
    decreases es, 0
  {
    if es == [] then [] else [ExprToJson(n, t, es[0])] + ExprsToJson(n, t, es[1..])
  }

  function ArgumentToJson(name: string, value: Json): Json {
    JObject(map["name" := JText(name), "value" := value])
  }

  function ArgumentsToJson(n: Names, t: Texts, args: seq<Argument>): seq<Json>
    decreases args, 0
  {
    if args == [] then [] else [ArgumentToJson(args[0].name, ExprToJson(n, t, args[0].value))] + ArgumentsToJson(n, t, args[1..])
  }

  function FlagAt(m: map<string, Json>, key: string): Option<bool> {
    if key in m && m[key].JBool? then Some(m[key].b) else None
  }

  function NodeAt(n: Names, m: map<string, Json>): Option<NodeId> {
    match TextAt(m, "node_id") case Some(s) => n.toNode(s) case None => None
  }

  function TypeAt(m: map<string, Json>): Option<Type> {
    if "type" in m then TypeFromJson(m["type"]) else None
  }

  function ToolAt(n: Names, m: map<string, Json>): Option<ToolRef> {
    match TextAt(m, "tool_ref") case Some(s) => n.toTool(s) case None => None
  }

  function PolicyFromJson(j: Json): Option<ResultPolicy> {
    if !j.JObject? || j.members.Keys != {"required", "accept_partial", "empty_is_valid"} then None
    else match (FlagAt(j.members, "required"), FlagAt(j.members, "accept_partial"), FlagAt(j.members, "empty_is_valid"))
      case (Some(r), Some(a), Some(e)) => Some(ResultPolicy(r, a, e))
      case _ => None
  }

  function ExprFromJson(n: Names, t: Texts, j: Json): Option<Expr>
    decreases j, 2
  {
    if !j.JObject? then None
    else
      match (TextAt(j.members, "kind"), NodeAt(n, j.members), TypeAt(j.members))
      case (Some(kind), Some(id), Some(ty)) => NodeFromJson(n, t, j, kind, id, ty)
      case _ => None
  }

  function NodeFromJson(n: Names, t: Texts, j: Json, kind: string, id: NodeId, ty: Type): Option<Expr>
    requires j.JObject?
    decreases j, 1
  {
    var m := j.members;
    if kind == "literal" then
      (if "value" !in m then None else match DecodeValue(t, m["value"]) case Some(v) => Some(Literal(id, v, ty)) case None => None)
    else if kind == "symbol_ref" then
      (match TextAt(m, "symbol_id")
       case None => None
       case Some(s) => match n.toSymbol(s) case Some(symbol) => Some(SymbolRef(id, symbol, ty)) case None => None)
    else if kind == "field" || kind == "project" then
      (if "source" !in m then None
       else match (ExprFromJson(n, t, m["source"]), TextAt(m, "field"))
         case (Some(source), Some(field)) => Some(if kind == "field" then Field(id, source, field, ty) else Projection(id, source, field, ty))
         case _ => None)
    else if kind == "call" then
      (if "arguments" !in m || !m["arguments"].JArray? then None
       else match (TextAt(m, "function"), ExprsFromJson(n, t, m["arguments"].items))
         case (Some(name), Some(operands)) => (match BuiltinNamed(name) case Some(f) => Some(Call(id, f, operands, ty)) case None => None)
         case _ => None)
    else if kind == "binary" then
      (if "left" !in m || "right" !in m then None
       else match (TextAt(m, "operator"), ExprFromJson(n, t, m["left"]), ExprFromJson(n, t, m["right"]))
         case (Some(name), Some(left), Some(right)) => (match OperatorOf(name) case Some(op) => Some(Binary(id, op, left, right, ty)) case None => None)
         case _ => None)
    else if kind == "read" then
      (if "arguments" !in m || !m["arguments"].JArray? || "result_policy" !in m then None
       else match (ToolAt(n, m), ArgumentsFromJson(n, t, m["arguments"].items), PolicyFromJson(m["result_policy"]))
         case (Some(tool), Some(arguments), Some(policy)) => Some(Read(id, tool, arguments, ty, policy))
         case _ => None)
    else if kind == "write" then
      (if "arguments" !in m || !m["arguments"].JArray? then None
       else match (ToolAt(n, m), ArgumentsFromJson(n, t, m["arguments"].items), TextAt(m, "approval_ref"))
         case (Some(tool), Some(arguments), Some(approval)) => Some(Write(id, tool, arguments, approval, ty))
         case _ => None)
    else None
  }

  function ExprsFromJson(n: Names, t: Texts, items: seq<Json>): Option<seq<Expr>>
    decreases items, 0
  {
    if items == [] then Some([])
    else match (ExprFromJson(n, t, items[0]), ExprsFromJson(n, t, items[1..]))
      case (Some(e), Some(rest)) => Some([e] + rest)
      case _ => None
  }

  function ArgumentsFromJson(n: Names, t: Texts, items: seq<Json>): Option<seq<Argument>>
    decreases items, 0
  {
    if items == [] then Some([])
    else if !items[0].JObject? || "value" !in items[0].members then None
    else match (TextAt(items[0].members, "name"), ExprFromJson(n, t, items[0].members["value"]), ArgumentsFromJson(n, t, items[1..]))
      case (Some(name), Some(e), Some(rest)) => Some([Argument(name, e)] + rest)
      case _ => None
  }

  // Every literal in the tree is one that its own codec preserves.
  ghost predicate PlainLiterals(e: Expr)
    decreases e
  {
    match e
    case Literal(_, v, _) => Encodable(v)
    case SymbolRef(_, _, _) => true
    case Field(_, source, _, _) => PlainLiterals(source)
    case Projection(_, source, _, _) => PlainLiterals(source)
    case Call(_, _, operands, _) => forall i | 0 <= i < |operands| :: PlainLiterals(operands[i])
    case Binary(_, _, left, right, _) => PlainLiterals(left) && PlainLiterals(right)
    case Read(_, _, arguments, _, _) => forall i | 0 <= i < |arguments| :: PlainLiterals(arguments[i].value)
    case Write(_, _, arguments, _, _) => forall i | 0 <= i < |arguments| :: PlainLiterals(arguments[i].value)
  }

  lemma BaseReadsBack(n: Names, kind: string, id: NodeId, ty: Type, m: map<string, Json>)
    requires Faithful(n) && "kind" in m && "node_id" in m && "type" in m
    requires m["kind"] == JText(kind) && m["node_id"] == JText(n.ofNode(id)) && m["type"] == TypeToJson(ty)
    ensures TextAt(m, "kind") == Some(kind) && NodeAt(n, m) == Some(id) && TypeAt(m) == Some(ty)
  {
    TypeSurvives(ty);
    assert n.toNode(n.ofNode(id)) == Some(id);
    hide TypeToJson, TypeFromJson;
  }

  // An encoded expression is read by its kind.
  lemma KindReadsBack(n: Names, t: Texts, e: Expr)
    requires Faithful(n)
    ensures var j := ExprToJson(n, t, e); j.JObject? && ExprFromJson(n, t, j) == NodeFromJson(n, t, j, KindOf(e), e.id, e.ty)
  {
    hide EncodeValue, ExprsToJson, ArgumentsToJson, PolicyToJson, TypeToJson, NodeFromJson, Faithful;
    var m := ExprToJson(n, t, e).members;
    BaseReadsBack(n, KindOf(e), e.id, e.ty, m);
  }

  function KindOf(e: Expr): string {
    match e
    case Literal(_, _, _) => "literal"
    case SymbolRef(_, _, _) => "symbol_ref"
    case Field(_, _, _, _) => "field"
    case Projection(_, _, _, _) => "project"
    case Call(_, _, _, _) => "call"
    case Binary(_, _, _, _, _) => "binary"
    case Read(_, _, _, _, _) => "read"
    case Write(_, _, _, _, _) => "write"
  }

  lemma {:induction false} ExprSurvivesExactly(n: Names, t: Texts, e: Expr)
    requires Faithful(n) && Readable(t)
    ensures ExprFromJson(n, t, ExprToJson(n, t, e)) == Some(e) <==> PlainLiterals(e)
    decreases e, 2
  {
    hide *;
    KindReadsBack(n, t, e);
    match e
    case Literal(_, _, _) => LeafSurvivesExactly(n, t, e);
    case SymbolRef(_, _, _) => LeafSurvivesExactly(n, t, e);
    case Field(_, source, _, _) =>
      SelectionShape(n, t, e);
      ExprSurvivesExactly(n, t, source);
    case Projection(_, source, _, _) =>
      SelectionShape(n, t, e);
      ExprSurvivesExactly(n, t, source);
    case Call(_, _, operands, _) =>
      CallShape(n, t, e);
      ExprsSurviveExactly(n, t, operands);
    case Binary(_, _, left, right, _) =>
      BinaryShape(n, t, e);
      ExprSurvivesExactly(n, t, left);
      ExprSurvivesExactly(n, t, right);
    case Read(_, _, arguments, _, _) =>
      ReadShape(n, t, e);
      ArgumentsSurviveExactly(n, t, arguments);
    case Write(_, _, arguments, _, _) =>
      WriteShape(n, t, e);
      ArgumentsSurviveExactly(n, t, arguments);
  }

  lemma LeafSurvivesExactly(n: Names, t: Texts, e: Expr)
    requires Faithful(n) && Readable(t) && (e.Literal? || e.SymbolRef?)
    ensures var j := ExprToJson(n, t, e); j.JObject? && (NodeFromJson(n, t, j, KindOf(e), e.id, e.ty) == Some(e) <==> PlainLiterals(e))
  {
    hide TypeToJson;
    match e
    case Literal(_, v, _) =>
      ValueSurvivesExactly(t, v);
      hide EncodeValue, DecodeValue;
    case SymbolRef(_, symbol, _) => assert n.toSymbol(n.ofSymbol(symbol)) == Some(symbol);
  }

  // What reading back a node of each kind comes down to.
  lemma SelectionShape(n: Names, t: Texts, e: Expr)
    requires e.Field? || e.Projection?
    ensures var j := ExprToJson(n, t, e);
      j.JObject? && (NodeFromJson(n, t, j, KindOf(e), e.id, e.ty) == Some(e) <==> ExprFromJson(n, t, ExprToJson(n, t, e.source)) == Some(e.source))
    ensures PlainLiterals(e) == PlainLiterals(e.source)
  {
    hide TypeToJson, ExprFromJson;
    var m := ExprToJson(n, t, e).members;
    assert m["source"] == ExprToJson(n, t, e.source) && TextAt(m, "field") == Some(e.field);
    hide ExprToJson;
  }

  lemma CallShape(n: Names, t: Texts, e: Expr)
    requires e.Call?
    ensures var j := ExprToJson(n, t, e);
      j.JObject? && (NodeFromJson(n, t, j, KindOf(e), e.id, e.ty) == Some(e) <==> ExprsFromJson(n, t, ExprsToJson(n, t, e.operands)) == Some(e.operands))
    ensures PlainLiterals(e) == forall i | 0 <= i < |e.operands| :: PlainLiterals(e.operands[i])
  {
    hide TypeToJson, ExprsFromJson, ExprsToJson;
    var m := ExprToJson(n, t, e).members;
    assert m["arguments"] == JArray(ExprsToJson(n, t, e.operands)) && TextAt(m, "function") == Some(BuiltinName(e.function_));
    hide ExprToJson;
    BuiltinReadsBack(e.function_);
    hide BuiltinNamed, BuiltinName;
  }

  lemma BuiltinReadsBack(f: Builtin)
    ensures BuiltinNamed(BuiltinName(f)) == Some(f)
  {
  }

  lemma BinaryShape(n: Names, t: Texts, e: Expr)
    requires e.Binary?
    ensures var j := ExprToJson(n, t, e);
      j.JObject? && (NodeFromJson(n, t, j, KindOf(e), e.id, e.ty) == Some(e) <==>
                     ExprFromJson(n, t, ExprToJson(n, t, e.left)) == Some(e.left) && ExprFromJson(n, t, ExprToJson(n, t, e.right)) == Some(e.right))
    ensures PlainLiterals(e) == (PlainLiterals(e.left) && PlainLiterals(e.right))
  {
    hide TypeToJson, ExprFromJson, OperatorName;
    var m := ExprToJson(n, t, e).members;
    assert m["left"] == ExprToJson(n, t, e.left) && m["right"] == ExprToJson(n, t, e.right) && TextAt(m, "operator") == Some(OperatorName(e.op));
    assert OperatorOf(OperatorName(e.op)) == Some(e.op);
    hide ExprToJson, OperatorOf;
  }

  lemma ReadShape(n: Names, t: Texts, e: Expr)
    requires e.Read? && Faithful(n)
    ensures var j := ExprToJson(n, t, e);
      j.JObject? && (NodeFromJson(n, t, j, KindOf(e), e.id, e.ty) == Some(e) <==> ArgumentsFromJson(n, t, ArgumentsToJson(n, t, e.arguments)) == Some(e.arguments))
    ensures PlainLiterals(e) == forall i | 0 <= i < |e.arguments| :: PlainLiterals(e.arguments[i].value)
  {
    hide TypeToJson, ArgumentsFromJson, ArgumentsToJson, PolicyToJson, PolicyFromJson;
    assert n.toTool(n.ofTool(e.tool)) == Some(e.tool);
    var m := ExprToJson(n, t, e).members;
    assert m["arguments"] == JArray(ArgumentsToJson(n, t, e.arguments)) && ToolAt(n, m) == Some(e.tool) && m["result_policy"] == PolicyToJson(e.policy);
    hide ExprToJson, Faithful, ToolAt;
    PolicyReadsBack(e.policy);
  }

  lemma PolicyReadsBack(p: ResultPolicy)
    ensures PolicyFromJson(PolicyToJson(p)) == Some(p)
  {
    assert PolicyToJson(p).members.Keys == {"required", "accept_partial", "empty_is_valid"};
  }

  lemma WriteShape(n: Names, t: Texts, e: Expr)
    requires e.Write? && Faithful(n)
    ensures var j := ExprToJson(n, t, e);
      j.JObject? && (NodeFromJson(n, t, j, KindOf(e), e.id, e.ty) == Some(e) <==> ArgumentsFromJson(n, t, ArgumentsToJson(n, t, e.arguments)) == Some(e.arguments))
    ensures PlainLiterals(e) == forall i | 0 <= i < |e.arguments| :: PlainLiterals(e.arguments[i].value)
  {
    hide TypeToJson, ArgumentsFromJson, ArgumentsToJson;
    assert n.toTool(n.ofTool(e.tool)) == Some(e.tool);
    var m := ExprToJson(n, t, e).members;
    assert m["arguments"] == JArray(ArgumentsToJson(n, t, e.arguments)) && ToolAt(n, m) == Some(e.tool) && TextAt(m, "approval_ref") == Some(e.approval);
    hide ExprToJson, Faithful, ToolAt;
  }

  lemma {:induction false} ExprsSurviveExactly(n: Names, t: Texts, es: seq<Expr>)
    requires Faithful(n) && Readable(t)
    ensures ExprsFromJson(n, t, ExprsToJson(n, t, es)) == Some(es) <==> forall i | 0 <= i < |es| :: PlainLiterals(es[i])
    decreases es, 0
  {
    if es != [] {
      hide Faithful, Readable, ExprToJson, ExprFromJson, PlainLiterals;
      ExprSurvivesExactly(n, t, es[0]);
      ExprsSurviveExactly(n, t, es[1..]);
      FirstExpr(n, t, es);
      assert (forall i | 0 <= i < |es| :: PlainLiterals(es[i])) == (PlainLiterals(es[0]) && forall i | 0 <= i < |es[1..]| :: PlainLiterals(es[1..][i])) by {
        assert forall i | 0 < i < |es| :: es[i] == es[1..][i - 1];
      }
      hide ExprsToJson, ExprsFromJson;
    }
  }

  lemma FirstExpr(n: Names, t: Texts, es: seq<Expr>)
    requires es != []
    ensures ExprsFromJson(n, t, ExprsToJson(n, t, es)) == Some(es) <==>
      ExprFromJson(n, t, ExprToJson(n, t, es[0])) == Some(es[0]) && ExprsFromJson(n, t, ExprsToJson(n, t, es[1..])) == Some(es[1..])
  {
    hide ExprToJson, ExprFromJson;
    var js := ExprsToJson(n, t, es);
    assert js[0] == ExprToJson(n, t, es[0]) && js[1..] == ExprsToJson(n, t, es[1..]);
    assert es == [es[0]] + es[1..];
  }

  lemma {:induction false} ArgumentsSurviveExactly(n: Names, t: Texts, args: seq<Argument>)
    requires Faithful(n) && Readable(t)
    ensures ArgumentsFromJson(n, t, ArgumentsToJson(n, t, args)) == Some(args) <==> forall i | 0 <= i < |args| :: PlainLiterals(args[i].value)
    decreases args, 0
  {
    if args != [] {
      hide Faithful, Readable, ExprToJson, ExprFromJson, PlainLiterals;
      ExprSurvivesExactly(n, t, args[0].value);
      ArgumentsSurviveExactly(n, t, args[1..]);
      FirstArgument(n, t, args);
      assert (forall i | 0 <= i < |args| :: PlainLiterals(args[i].value))
        == (PlainLiterals(args[0].value) && forall i | 0 <= i < |args[1..]| :: PlainLiterals(args[1..][i].value)) by {
        assert forall i | 0 < i < |args| :: args[i] == args[1..][i - 1];
      }
      hide ArgumentsToJson, ArgumentsFromJson;
    }
  }

  lemma FirstArgument(n: Names, t: Texts, args: seq<Argument>)
    requires args != []
    ensures ArgumentsFromJson(n, t, ArgumentsToJson(n, t, args)) == Some(args) <==>
      ExprFromJson(n, t, ExprToJson(n, t, args[0].value)) == Some(args[0].value) && ArgumentsFromJson(n, t, ArgumentsToJson(n, t, args[1..])) == Some(args[1..])
  {
    hide ExprToJson, ExprFromJson;
    var js := ArgumentsToJson(n, t, args);
    assert js[0] == ArgumentToJson(args[0].name, ExprToJson(n, t, args[0].value)) && js[1..] == ArgumentsToJson(n, t, args[1..]);
    assert args == [Argument(args[0].name, args[0].value)] + args[1..];
  }

  // ---------- statements ----------

  function StmtToJson(n: Names, t: Texts, s: Stmt): Json
    decreases s, 1
  {
    match s
    case Let(id, target, value) =>
      JObject(map["kind" := JText("let"), "node_id" := JText(n.ofNode(id)), "target_symbol_id" := JText(n.ofSymbol(target)), "value" := ExprToJson(n, t, value)])
    case Foreach(id, loopVariable, collection, maxIterations, body) =>
      JObject(map["kind" := JText("foreach"), "node_id" := JText(n.ofNode(id)), "iterator_symbol_id" := JText(n.ofSymbol(loopVariable)),
        "collection" := ExprToJson(n, t, collection), "max_iterations" := JInt(maxIterations), "body" := JArray(BlockToJson(n, t, body))])
    case Check(id, checkId, condition, severity, onFail, message, result) =>
      JObject(map["kind" := JText("check"), "node_id" := JText(n.ofNode(id)), "check_id" := JText(checkId), "condition" := ExprToJson(n, t, condition),
        "severity" := JText(severity), "on_fail" := JText(onFail), "message" := JText(message), "result_symbol_id" := JText(n.ofSymbol(result)),
        "data_policy" := JObject(map["require_complete" := JBool(true), "on_partial" := JText("UNKNOWN"), "on_unknown" := JText("UNKNOWN")])])
    case Emit(id, fields) =>
      JObject(map["kind" := JText("emit"), "node_id" := JText(n.ofNode(id)), "fields" := JArray(ArgumentsToJson(n, t, fields))])
    case Approval(id, approvalId, message, ttl) =>
      JObject(map["kind" := JText("approval"), "node_id" := JText(n.ofNode(id)), "approval_id" := JText(approvalId), "message" := JText(message),
        "policy" := PolicyOf(ttl)])
  }

  // The time to live is written only when there is one.
  function PolicyOf(ttl: Option<nat>): Json {
    JObject(match ttl case None => map["required" := JBool(true)] case Some(s) => map["required" := JBool(true), "ttl_seconds" := JInt(s)])
  }

  function BlockToJson(n: Names, t: Texts, stmts: seq<Stmt>): seq<Json>
    decreases stmts, 0
  {
    if stmts == [] then [] else [StmtToJson(n, t, stmts[0])] + BlockToJson(n, t, stmts[1..])
  }

  function SymbolAt(n: Names, m: map<string, Json>, key: string): Option<SymbolId> {
    match TextAt(m, key) case Some(s) => n.toSymbol(s) case None => None
  }

  function ExprAt(n: Names, t: Texts, m: map<string, Json>, key: string): Option<Expr> {
    if key in m then ExprFromJson(n, t, m[key]) else None
  }

  function CountAt(m: map<string, Json>, key: string): Option<nat> {
    if key in m && m[key].JInt? && m[key].i >= 0 then Some(m[key].i) else None
  }

  function TtlFrom(j: Json): Option<Option<nat>> {
    if !j.JObject? || FlagAt(j.members, "required") != Some(true) then None
    else if "ttl_seconds" !in j.members then Some(None)
    else match CountAt(j.members, "ttl_seconds") case Some(s) => Some(Some(s)) case None => None
  }

  function StmtFromJson(n: Names, t: Texts, j: Json): Option<Stmt>
    decreases j, 1
  {
    if !j.JObject? then None
    else
      var m := j.members;
      match (TextAt(m, "kind"), NodeAt(n, m))
      case (Some(kind), Some(id)) =>
        if kind == "let" then
          (match (SymbolAt(n, m, "target_symbol_id"), ExprAt(n, t, m, "value"))
           case (Some(target), Some(value)) => Some(Let(id, target, value))
           case _ => None)
        else if kind == "foreach" then
          (if "body" !in m || !m["body"].JArray? then None
           else match (SymbolAt(n, m, "iterator_symbol_id"), ExprAt(n, t, m, "collection"), CountAt(m, "max_iterations"), BlockFromJson(n, t, m["body"].items))
             case (Some(loopVariable), Some(collection), Some(maxIterations), Some(body)) => Some(Foreach(id, loopVariable, collection, maxIterations, body))
             case _ => None)
        else if kind == "check" then
          (match (TextAt(m, "check_id"), ExprAt(n, t, m, "condition"), TextAt(m, "severity"), TextAt(m, "on_fail"), TextAt(m, "message"), SymbolAt(n, m, "result_symbol_id"))
           case (Some(checkId), Some(condition), Some(severity), Some(onFail), Some(message), Some(result)) =>
             Some(Check(id, checkId, condition, severity, onFail, message, result))
           case _ => None)
        else if kind == "emit" then
          (if "fields" !in m || !m["fields"].JArray? then None
           else match ArgumentsFromJson(n, t, m["fields"].items) case Some(fields) => Some(Emit(id, fields)) case None => None)
        else if kind == "approval" then
          (if "policy" !in m then None
           else match (TextAt(m, "approval_id"), TextAt(m, "message"), TtlFrom(m["policy"]))
             case (Some(approvalId), Some(message), Some(ttl)) => Some(Approval(id, approvalId, message, ttl))
             case _ => None)
        else None
      case _ => None
  }

  function BlockFromJson(n: Names, t: Texts, items: seq<Json>): Option<seq<Stmt>>
    decreases items, 0
  {
    if items == [] then Some([])
    else match (StmtFromJson(n, t, items[0]), BlockFromJson(n, t, items[1..]))
      case (Some(s), Some(rest)) => Some([s] + rest)
      case _ => None
  }

  ghost predicate PlainStmt(s: Stmt)
    decreases s
  {
    match s
    case Let(_, _, value) => PlainLiterals(value)
    case Foreach(_, _, collection, _, body) => PlainLiterals(collection) && forall i | 0 <= i < |body| :: PlainStmt(body[i])
    case Check(_, _, condition, _, _, _, _) => PlainLiterals(condition)
    case Emit(_, fields) => forall i | 0 <= i < |fields| :: PlainLiterals(fields[i].value)
    case Approval(_, _, _, _) => true
  }

  ghost predicate PlainBlock(stmts: seq<Stmt>) {
    forall i | 0 <= i < |stmts| :: PlainStmt(stmts[i])
  }

  lemma {:induction false} StmtSurvivesExactly(n: Names, t: Texts, s: Stmt)
    requires Faithful(n) && Readable(t)
    ensures StmtFromJson(n, t, StmtToJson(n, t, s)) == Some(s) <==> PlainStmt(s)
    decreases s, 1
  {
    hide *;
    match s
    case Let(_, _, value) =>
      LetShape(n, t, s);
      ExprSurvivesExactly(n, t, value);
    case Foreach(_, _, collection, _, body) =>
      ForeachShape(n, t, s);
      ExprSurvivesExactly(n, t, collection);
      BlockSurvivesExactly(n, t, body);
    case Check(_, _, condition, _, _, _, _) =>
      CheckShape(n, t, s);
      ExprSurvivesExactly(n, t, condition);
    case Emit(_, fields) =>
      EmitShape(n, t, s);
      ArgumentsSurviveExactly(n, t, fields);
    case Approval(_, _, _, _) => ApprovalReadsBack(n, t, s);
  }

  lemma LetShape(n: Names, t: Texts, s: Stmt)
    requires s.Let? && Faithful(n)
    ensures StmtFromJson(n, t, StmtToJson(n, t, s)) == Some(s) <==> ExprFromJson(n, t, ExprToJson(n, t, s.value)) == Some(s.value)
    ensures PlainStmt(s) == PlainLiterals(s.value)
  {
    assert n.toNode(n.ofNode(s.id)) == Some(s.id) && n.toSymbol(n.ofSymbol(s.target)) == Some(s.target);
    hide ExprToJson, ExprFromJson, PlainLiterals, Faithful;
  }

  lemma ForeachMembers(n: Names, t: Texts, s: Stmt)
    requires s.Foreach? && Faithful(n)
    ensures var j := StmtToJson(n, t, s);
      && j.JObject?
      && TextAt(j.members, "kind") == Some("foreach") && NodeAt(n, j.members) == Some(s.id)
      && SymbolAt(n, j.members, "iterator_symbol_id") == Some(s.loopVariable)
      && ExprAt(n, t, j.members, "collection") == ExprFromJson(n, t, ExprToJson(n, t, s.collection))
      && CountAt(j.members, "max_iterations") == Some(s.maxIterations)
      && "body" in j.members && j.members["body"] == JArray(BlockToJson(n, t, s.body))
  {
    assert n.toNode(n.ofNode(s.id)) == Some(s.id) && n.toSymbol(n.ofSymbol(s.loopVariable)) == Some(s.loopVariable);
    hide ExprToJson, ExprFromJson, Faithful, BlockToJson, BlockFromJson;
  }

  lemma ForeachShape(n: Names, t: Texts, s: Stmt)
    requires s.Foreach? && Faithful(n)
    ensures StmtFromJson(n, t, StmtToJson(n, t, s)) == Some(s) <==>
      ExprFromJson(n, t, ExprToJson(n, t, s.collection)) == Some(s.collection) && BlockFromJson(n, t, BlockToJson(n, t, s.body)) == Some(s.body)
    ensures PlainStmt(s) == (PlainLiterals(s.collection) && PlainBlock(s.body))
  {
    ForeachMembers(n, t, s);
    hide ExprToJson, ExprFromJson, ExprAt, PlainLiterals, Faithful, BlockToJson, BlockFromJson, StmtToJson, TextAt, NodeAt, SymbolAt, CountAt;
  }

  lemma CheckMembers(n: Names, t: Texts, s: Stmt)
    requires s.Check? && Faithful(n)
    ensures var j := StmtToJson(n, t, s);
      && j.JObject?
      && TextAt(j.members, "kind") == Some("check") && NodeAt(n, j.members) == Some(s.id) && SymbolAt(n, j.members, "result_symbol_id") == Some(s.result)
      && TextAt(j.members, "check_id") == Some(s.checkId) && TextAt(j.members, "severity") == Some(s.severity)
      && TextAt(j.members, "on_fail") == Some(s.onFail) && TextAt(j.members, "message") == Some(s.message)
      && ExprAt(n, t, j.members, "condition") == ExprFromJson(n, t, ExprToJson(n, t, s.condition))
  {
    assert n.toNode(n.ofNode(s.id)) == Some(s.id) && n.toSymbol(n.ofSymbol(s.result)) == Some(s.result);
    hide ExprToJson, ExprFromJson, Faithful;
  }

  lemma CheckShape(n: Names, t: Texts, s: Stmt)
    requires s.Check? && Faithful(n)
    ensures StmtFromJson(n, t, StmtToJson(n, t, s)) == Some(s) <==> ExprFromJson(n, t, ExprToJson(n, t, s.condition)) == Some(s.condition)
    ensures PlainStmt(s) == PlainLiterals(s.condition)
  {
    CheckMembers(n, t, s);
    hide ExprToJson, ExprFromJson, ExprAt, PlainLiterals, Faithful, StmtToJson, TextAt, NodeAt, SymbolAt;
  }

  lemma EmitShape(n: Names, t: Texts, s: Stmt)
    requires s.Emit? && Faithful(n)
    ensures StmtFromJson(n, t, StmtToJson(n, t, s)) == Some(s) <==> ArgumentsFromJson(n, t, ArgumentsToJson(n, t, s.fields)) == Some(s.fields)
    ensures PlainStmt(s) == forall i | 0 <= i < |s.fields| :: PlainLiterals(s.fields[i].value)
  {
    assert n.toNode(n.ofNode(s.id)) == Some(s.id);
    hide ArgumentsToJson, ArgumentsFromJson, PlainLiterals, Faithful;
  }

  lemma ApprovalReadsBack(n: Names, t: Texts, s: Stmt)
    requires s.Approval? && Faithful(n)
    ensures StmtFromJson(n, t, StmtToJson(n, t, s)) == Some(s) && PlainStmt(s)
  {
    assert n.toNode(n.ofNode(s.id)) == Some(s.id);
    assert TtlFrom(PolicyOf(s.ttlSeconds)) == Some(s.ttlSeconds);
    hide Faithful, PolicyOf, TtlFrom;
  }

  // A body survives its codec exactly when no literal in it looks like a typed scalar.
  lemma {:induction false} BlockSurvivesExactly(n: Names, t: Texts, stmts: seq<Stmt>)
    requires Faithful(n) && Readable(t)
    ensures BlockFromJson(n, t, BlockToJson(n, t, stmts)) == Some(stmts) <==> PlainBlock(stmts)
    decreases stmts, 0
  {
    if stmts != [] {
      StmtSurvivesExactly(n, t, stmts[0]);
      BlockSurvivesExactly(n, t, stmts[1..]);
      PlainFirst(stmts);
      FirstReadsBack(n, t, stmts);
      hide Faithful, Readable, StmtToJson, StmtFromJson, BlockToJson, BlockFromJson, PlainStmt, PlainBlock;
    }
  }

  lemma FirstReadsBack(n: Names, t: Texts, stmts: seq<Stmt>)
    requires stmts != []
    ensures BlockFromJson(n, t, BlockToJson(n, t, stmts)) == Some(stmts)
      <==> StmtFromJson(n, t, StmtToJson(n, t, stmts[0])) == Some(stmts[0]) && BlockFromJson(n, t, BlockToJson(n, t, stmts[1..])) == Some(stmts[1..])
  {
    hide StmtToJson, StmtFromJson;
    var js := BlockToJson(n, t, stmts);
    assert js[0] == StmtToJson(n, t, stmts[0]) && js[1..] == BlockToJson(n, t, stmts[1..]);
    assert stmts == [stmts[0]] + stmts[1..];
  }

  lemma PlainFirst(stmts: seq<Stmt>)
    requires stmts != []
    ensures PlainBlock(stmts) == (PlainStmt(stmts[0]) && PlainBlock(stmts[1..]))
  {
    hide PlainStmt;
    assert forall i | 0 < i < |stmts| :: stmts[i] == stmts[1..][i - 1];
  }
}
