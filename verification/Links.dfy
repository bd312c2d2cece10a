// Approvals and the WRITEs they license: what the compiler checks on the syntax tree, what the
// schema checks again on the compiled body, and that the two agree.

module Links {
  import opened Wrappers
  import opened Core
  import opened Operators
  import opened Ir
  import opened Semantics
  import opened Symbols
  import opened Ast
  import opened Compiler

  // An approval, or a WRITE that needs one; the tool is named before lowering and numbered after.
  datatype Link<T> = ApproveLink(id: string) | WriteLink(tool: T, approval: string)

  datatype Marked<T> = Marked(link: Link<T>, inside: bool)

  // ---------- in the syntax tree ----------

  function AstExprLinks(e: AstExpr, inside: bool): seq<Marked<string>>
    decreases e, 1
  {
    match e
    case ALiteral(_, _) => []
    case APath(_, _) => []
    case ACall(_, operands) => AstOperandLinks(operands, inside)
    case ARead(_, arguments) => AstArgumentLinks(arguments, inside)
    case AWrite(tool, arguments, approval) => [Marked(WriteLink(tool, approval), inside)] + AstArgumentLinks(arguments, inside)
    case ABinary(_, left, right) => AstExprLinks(left, inside) + AstExprLinks(right, inside)
  }

  function AstOperandLinks(es: seq<AstExpr>, inside: bool): seq<Marked<string>>
    decreases es, 0
  {
    if es == [] then [] else AstExprLinks(es[0], inside) + AstOperandLinks(es[1..], inside)
  }

  function AstArgumentLinks(args: seq<AstArgument>, inside: bool): seq<Marked<string>>
    decreases args, 0
  {
    if args == [] then [] else AstExprLinks(args[0].value, inside) + AstArgumentLinks(args[1..], inside)
  }

  function AstStmtLinks(stmt: AstStmt, inside: bool): seq<Marked<string>>
    decreases stmt, 0
  {
    match stmt
    case ALet(_, value) => AstExprLinks(value, inside)
    case AForeach(_, collection, _, body) => AstExprLinks(collection, inside) + AstBlockLinks(body, true)
    case ACheck(_, condition, _, _, _) => AstExprLinks(condition, inside)
    case AEmit(fields) => AstArgumentLinks(fields, inside)
    case AApprove(id, _) => [Marked(ApproveLink(id), inside)]
  }

  function AstBlockLinks(stmts: seq<AstStmt>, inside: bool): seq<Marked<string>>
    decreases stmts, 1
  {
    if stmts == [] then [] else AstStmtLinks(stmts[0], inside) + AstBlockLinks(stmts[1..], inside)
  }

  // ---------- in the compiled body ----------

  function ExprLinks(e: Expr, inside: bool): seq<Marked<ToolRef>>
    decreases e, 1
  {
    match e
    case Literal(_, _, _) => []
    case SymbolRef(_, _, _) => []
    case Field(_, source, _, _) => ExprLinks(source, inside)
    case Projection(_, source, _, _) => ExprLinks(source, inside)
    case Call(_, _, operands, _) => OperandLinks(operands, inside)
    case Binary(_, _, left, right, _) => ExprLinks(left, inside) + ExprLinks(right, inside)
    case Read(_, _, arguments, _, _) => ArgumentLinks(arguments, inside)
    case Write(_, tool, arguments, approval, _) => [Marked(WriteLink(tool, approval), inside)] + ArgumentLinks(arguments, inside)
  }

  function OperandLinks(es: seq<Expr>, inside: bool): seq<Marked<ToolRef>>
    decreases es, 0
  {
    if es == [] then [] else ExprLinks(es[0], inside) + OperandLinks(es[1..], inside)
  }

  function ArgumentLinks(args: seq<Argument>, inside: bool): seq<Marked<ToolRef>>
    decreases args, 0
  {
    if args == [] then [] else ExprLinks(args[0].value, inside) + ArgumentLinks(args[1..], inside)
  }

  function StmtLinks(stmt: Stmt, inside: bool): seq<Marked<ToolRef>>
    decreases stmt, 0
  {
    match stmt
    case Let(_, _, value) => ExprLinks(value, inside)
    case Foreach(_, _, collection, _, body) => ExprLinks(collection, inside) + BlockLinks(body, true)
    case Check(_, _, condition, _, _, _, _) => ExprLinks(condition, inside)
    case Emit(_, fields) => ArgumentLinks(fields, inside)
    case Approval(_, id, _, _) => [Marked(ApproveLink(id), inside)]
  }

  function BlockLinks(stmts: seq<Stmt>, inside: bool): seq<Marked<ToolRef>>
    decreases stmts, 1
  {
    if stmts == [] then [] else StmtLinks(stmts[0], inside) + BlockLinks(stmts[1..], inside)
  }

  // ---------- lowering keeps every link, in order ----------

  // The same links, with tools numbered as the compiler numbered them.
  ghost predicate SameLinks(tools: Tools, a: seq<Marked<string>>, b: seq<Marked<ToolRef>>) {
    |a| == |b| && forall i | 0 <= i < |a| :: SameLink(tools, a[i], b[i])
  }

  predicate SameLink(tools: Tools, a: Marked<string>, b: Marked<ToolRef>) {
    a.inside == b.inside && match (a.link, b.link)
      case (ApproveLink(x), ApproveLink(y)) => x == y
      case (WriteLink(tool, x), WriteLink(ref, y)) => x == y && tool in tools && tools[tool].ref == ref
      case _ => false
  }

  lemma SameLinksJoin(tools: Tools, a: seq<Marked<string>>, b: seq<Marked<ToolRef>>, c: seq<Marked<string>>, d: seq<Marked<ToolRef>>)
    requires SameLinks(tools, a, b) && SameLinks(tools, c, d)
    ensures SameLinks(tools, a + c, b + d)
  {
  }

  lemma {:induction false} LoweredExprKeepsLinks(tools: Tools, t: Table, e: AstExpr, n: Nodes, inside: bool)
    requires LowerExpr(tools, t, e, n).Ok?
    ensures SameLinks(tools, AstExprLinks(e, inside), ExprLinks(LowerExpr(tools, t, e, n).value.expr, inside))
    decreases e, 1
  {
    hide LowerOperands, LowerArguments, LowerPath, AstOperandLinks, OperandLinks, AstArgumentLinks, ArgumentLinks, NamesMatch, BuiltinResult, BinaryResult;
    match e
    case ALiteral(_, _) =>
    case APath(root, parts) =>
      var b := Find(t.frames, root).value;
      PathHasNoLinks(SymbolRef(Next(n, ExprNode), b.id, b.ty), parts, Taken(n, ExprNode), inside);
    case ACall(_, operands) => LoweredOperandsKeepLinks(tools, t, operands, n, inside);
    case ABinary(_, _, _) => LoweredBinaryKeepsLinks(tools, t, e, n, inside);
    case ARead(tool, arguments) => LoweredArgumentsKeepLinks(tools, t, tools[tool].contract, arguments, n, inside);
    case AWrite(tool, arguments, _) => LoweredArgumentsKeepLinks(tools, t, tools[tool].contract, arguments, n, inside);
  }

  lemma {:induction false} LoweredBinaryKeepsLinks(tools: Tools, t: Table, e: AstExpr, n: Nodes, inside: bool)
    requires e.ABinary? && LowerExpr(tools, t, e, n).Ok?
    ensures SameLinks(tools, AstExprLinks(e, inside), ExprLinks(LowerExpr(tools, t, e, n).value.expr, inside))
    decreases e, 0
  {
    var l := LowerExpr(tools, t, e.left, n).value;
    var r := LowerExpr(tools, t, e.right, l.nodes).value;
    LoweredExprKeepsLinks(tools, t, e.left, n, inside);
    LoweredExprKeepsLinks(tools, t, e.right, l.nodes, inside);
    SameLinksJoin(tools, AstExprLinks(e.left, inside), ExprLinks(l.expr, inside), AstExprLinks(e.right, inside), ExprLinks(r.expr, inside));
    hide SameLinks, BinaryResult;
  }

  lemma {:induction false} PathHasNoLinks(source: Expr, parts: seq<string>, n: Nodes, inside: bool)
    requires LowerPath(source, parts, n).Ok? && ExprLinks(source, inside) == []
    ensures ExprLinks(LowerPath(source, parts, n).value.0, inside) == []
    decreases |parts|
  {
    if parts != [] {
      var (ty, projected) := FieldResult(source.ty, parts[0]).value;
      var id := Next(n, ExprNode);
      PathHasNoLinks(if projected then Projection(id, source, parts[0], ty) else Field(id, source, parts[0], ty), parts[1..], Taken(n, ExprNode), inside);
    }
  }

  lemma {:induction false} LoweredOperandsKeepLinks(tools: Tools, t: Table, es: seq<AstExpr>, n: Nodes, inside: bool)
    requires LowerOperands(tools, t, es, n).Ok?
    ensures SameLinks(tools, AstOperandLinks(es, inside), OperandLinks(LowerOperands(tools, t, es, n).value.operands, inside))
    decreases es, 0
  {
    if es != [] {
      var first := LowerExpr(tools, t, es[0], n).value;
      LoweredExprKeepsLinks(tools, t, es[0], n, inside);
      LoweredOperandsKeepLinks(tools, t, es[1..], first.nodes, inside);
      var lowered := LowerOperands(tools, t, es, n).value.operands;
      assert lowered[0] == first.expr && lowered[1..] == LowerOperands(tools, t, es[1..], first.nodes).value.operands;
      hide LowerExpr, LowerOperands, AstExprLinks, ExprLinks, SameLinks;
      SameLinksJoin(tools, AstExprLinks(es[0], inside), ExprLinks(first.expr, inside), AstOperandLinks(es[1..], inside), OperandLinks(lowered[1..], inside));
    }
  }

  lemma {:induction false} LoweredArgumentsKeepLinks(tools: Tools, t: Table, contract: Contract, args: seq<AstArgument>, n: Nodes, inside: bool)
    requires LowerArguments(tools, t, contract, args, n).Ok?
    ensures SameLinks(tools, AstArgumentLinks(args, inside), ArgumentLinks(LowerArguments(tools, t, contract, args, n).value.arguments, inside))
    decreases args, 0
  {
    if args != [] {
      var first := LowerExpr(tools, t, args[0].value, n).value;
      LoweredExprKeepsLinks(tools, t, args[0].value, n, inside);
      LoweredArgumentsKeepLinks(tools, t, contract, args[1..], first.nodes, inside);
      var lowered := LowerArguments(tools, t, contract, args, n).value.arguments;
      assert lowered[0].value == first.expr && lowered[1..] == LowerArguments(tools, t, contract, args[1..], first.nodes).value.arguments;
      hide LowerExpr, LowerArguments, AstExprLinks, ExprLinks, SameLinks;
      SameLinksJoin(tools, AstExprLinks(args[0].value, inside), ExprLinks(first.expr, inside), AstArgumentLinks(args[1..], inside), ArgumentLinks(lowered[1..], inside));
    }
  }

  lemma {:induction false} LoweredFieldsKeepLinks(tools: Tools, t: Table, outputs: seq<OutputField>, fields: seq<AstArgument>, n: Nodes, inside: bool)
    requires forall i | 0 <= i < |fields| :: fields[i].name in OutputNames(outputs)
    requires LowerFields(tools, t, outputs, fields, n).Ok?
    ensures SameLinks(tools, AstArgumentLinks(fields, inside), ArgumentLinks(LowerFields(tools, t, outputs, fields, n).value.arguments, inside))
    decreases |fields|
  {
    if fields != [] {
      var first := LowerExpr(tools, t, fields[0].value, n).value;
      LoweredExprKeepsLinks(tools, t, fields[0].value, n, inside);
      LoweredFieldsKeepLinks(tools, t, outputs, fields[1..], first.nodes, inside);
      var lowered := LowerFields(tools, t, outputs, fields, n).value.arguments;
      assert lowered[0].value == first.expr && lowered[1..] == LowerFields(tools, t, outputs, fields[1..], first.nodes).value.arguments;
      hide LowerExpr, LowerFields, AstExprLinks, ExprLinks, SameLinks;
      SameLinksJoin(tools, AstExprLinks(fields[0].value, inside), ExprLinks(first.expr, inside), AstArgumentLinks(fields[1..], inside), ArgumentLinks(lowered[1..], inside));
    }
  }

  lemma {:induction false} LoweredStmtKeepsLinks(tools: Tools, outputs: seq<OutputField>, stmt: AstStmt, s: LState, inside: bool)
    requires s.table.frames != [] && LowerStmt(tools, outputs, stmt, s).Ok?
    ensures SameLinks(tools, AstStmtLinks(stmt, inside), StmtLinks(LowerStmt(tools, outputs, stmt, s).value.stmt, inside))
    decreases stmt, 1
  {
    hide LowerExpr, ExprLinks, AstExprLinks, LowerFields, ArgumentLinks, AstArgumentLinks, LowerBlock, BlockLinks, AstBlockLinks;
    match stmt
    case ALet(_, value) => LoweredExprKeepsLinks(tools, s.table, value, s.nodes, inside);
    case AForeach(_, _, _, _) => LoweredForeachKeepsLinks(tools, outputs, stmt, s, inside);
    case ACheck(_, condition, _, _, _) => LoweredExprKeepsLinks(tools, s.table, condition, s.nodes, inside);
    case AEmit(fields) =>
      FieldNamesKnown(outputs, fields);
      LoweredFieldsKeepLinks(tools, s.table, outputs, fields, s.nodes, inside);
    case AApprove(_, _) =>
  }

  lemma {:induction false} LoweredForeachKeepsLinks(tools: Tools, outputs: seq<OutputField>, stmt: AstStmt, s: LState, inside: bool)
    requires stmt.AForeach? && s.table.frames != [] && LowerStmt(tools, outputs, stmt, s).Ok?
    ensures SameLinks(tools, AstStmtLinks(stmt, inside), StmtLinks(LowerStmt(tools, outputs, stmt, s).value.stmt, inside))
    decreases stmt, 0
  {
    hide LowerExpr, ExprLinks, AstExprLinks, LowerBlock, BlockLinks, AstBlockLinks;
    var c := LowerExpr(tools, s.table, stmt.collection, s.nodes).value;
    var inner := DeclareIn(LState(Enter(s.table), c.nodes), stmt.loopName, VALUE, c.expr.ty.item, c.cls).value;
    LoweredExprKeepsLinks(tools, s.table, stmt.collection, s.nodes, inside);
    LoweredBlockKeepsLinks(tools, outputs, stmt.body, inner, true);
  }

  lemma {:induction false} LoweredBlockKeepsLinks(tools: Tools, outputs: seq<OutputField>, stmts: seq<AstStmt>, s: LState, inside: bool)
    requires s.table.frames != [] && LowerBlock(tools, outputs, stmts, s).Ok?
    ensures SameLinks(tools, AstBlockLinks(stmts, inside), BlockLinks(LowerBlock(tools, outputs, stmts, s).value.stmts, inside))
    decreases stmts, 2
  {
    if stmts != [] {
      hide LowerStmt, StmtLinks, AstStmtLinks;
      var first := LowerStmt(tools, outputs, stmts[0], s).value;
      LoweredStmtKeepsLinks(tools, outputs, stmts[0], s, inside);
      LoweredBlockKeepsLinks(tools, outputs, stmts[1..], first.state, inside);
      var lowered := LowerBlock(tools, outputs, stmts, s).value.stmts;
      assert lowered[1..] == LowerBlock(tools, outputs, stmts[1..], first.state).value.stmts;
      SameLinksJoin(tools, AstStmtLinks(stmts[0], inside), StmtLinks(first.stmt, inside), AstBlockLinks(stmts[1..], inside), BlockLinks(lowered[1..], inside));
    }
  }

  // ---------- what each side accepts ----------

  predicate Approves<T>(m: Marked<T>, id: string) {
    m.link.ApproveLink? && m.link.id == id
  }

  predicate Writes<T>(m: Marked<T>, approval: string) {
    m.link.WriteLink? && m.link.approval == approval
  }

  ghost predicate ApprovalsUnique<T>(links: seq<Marked<T>>) {
    forall i, j | 0 <= i < j < |links| && links[i].link.ApproveLink? :: !Approves(links[j], links[i].link.id)
  }

  ghost predicate AtMostOneWrite<T>(links: seq<Marked<T>>) {
    forall i, j | 0 <= i < j < |links| && links[i].link.WriteLink? :: !links[j].link.WriteLink?
  }

  ghost predicate ApprovalsUsed<T>(links: seq<Marked<T>>) {
    forall i | 0 <= i < |links| && links[i].link.ApproveLink? :: exists j :: 0 <= j < |links| && Writes(links[j], links[i].link.id)
  }

  ghost predicate NoApprovalInside<T>(links: seq<Marked<T>>) {
    forall i | 0 <= i < |links| && links[i].link.ApproveLink? :: !links[i].inside
  }

  // Approved by a declaration before it, outside every loop, with a WRITE tool.
  ghost predicate Licensed(tools: Tools, links: seq<Marked<string>>, j: nat)
    requires j < |links| && links[j].link.WriteLink?
  {
    && !links[j].inside && links[j].link.tool in tools && tools[links[j].link.tool].capability == WRITE
    && exists i :: 0 <= i < j && Approves(links[i], links[j].link.approval)
  }

  // Approvals stand in skill scope, once each; the one WRITE is licensed; and no approval is unused.
  ghost predicate AstAccepts(tools: Tools, links: seq<Marked<string>>) {
    && NoApprovalInside(links) && ApprovalsUnique(links) && AtMostOneWrite(links) && ApprovalsUsed(links)
    && (forall j | 0 <= j < |links| && links[j].link.WriteLink? :: Licensed(tools, links, j))
  }

  // A link with the number of the statement it stands in.
  datatype Ordered = Ordered(order: nat, mark: Marked<ToolRef>)

  function Numbered(order: nat, links: seq<Marked<ToolRef>>): seq<Ordered> {
    seq(|links|, i requires 0 <= i < |links| => Ordered(order, links[i]))
  }

  datatype Collected = Collected(links: seq<Ordered>, counter: nat)

  // Statements are counted as they are entered; a link carries the count of its own statement.
  function StmtOrdered(stmt: Stmt, inside: bool, counter: nat): Collected
    decreases stmt, 0
  {
    var order := counter + 1;
    match stmt
    case Foreach(_, _, collection, _, body) =>
      var rest := BlockOrdered(body, true, order);
      Collected(Numbered(order, ExprLinks(collection, inside)) + rest.links, rest.counter)
    case _ => Collected(Numbered(order, StmtLinks(stmt, inside)), order)
  }

  function BlockOrdered(stmts: seq<Stmt>, inside: bool, counter: nat): Collected
    decreases stmts, 1
  {
    if stmts == [] then Collected([], counter)
    else
      var first := StmtOrdered(stmts[0], inside, counter);
      var rest := BlockOrdered(stmts[1..], inside, first.counter);
      Collected(first.links + rest.links, rest.counter)
  }

  type Capabilities = map<ToolRef, Capability>

  // The same by statement number, for a numbered tool.
  ghost predicate LicensedByNumber(capabilities: Capabilities, links: seq<Ordered>, j: nat)
    requires j < |links| && links[j].mark.link.WriteLink?
  {
    && !links[j].mark.inside && links[j].mark.link.tool in capabilities && capabilities[links[j].mark.link.tool] == WRITE
    && exists i :: 0 <= i < |links| && Approves(links[i].mark, links[j].mark.link.approval) && links[i].order < links[j].order
  }

  // The schema's own rules.
  ghost predicate IrAccepts(capabilities: Capabilities, links: seq<Ordered>) {
    && ApprovalsUnique(Marks(links)) && AtMostOneWrite(Marks(links)) && ApprovalsUsed(Marks(links))
    && (forall j | 0 <= j < |links| && links[j].mark.link.WriteLink? :: LicensedByNumber(capabilities, links, j))
  }

  function Marks(links: seq<Ordered>): seq<Marked<ToolRef>> {
    seq(|links|, i requires 0 <= i < |links| => links[i].mark)
  }

  // Only links of one expression share a number, so never an approval.
  predicate WellOrdered(links: seq<Ordered>) {
    forall i, j | 0 <= i < j < |links| ::
      links[i].order < links[j].order || (links[i].order == links[j].order && links[i].mark.link.WriteLink? && links[j].mark.link.WriteLink?)
  }

  predicate Between(links: seq<Ordered>, low: nat, high: nat) {
    forall i | 0 <= i < |links| :: low < links[i].order <= high
  }

  lemma {:induction false} ExprLinksAreWrites(e: Expr, inside: bool)
    ensures forall i | 0 <= i < |ExprLinks(e, inside)| :: ExprLinks(e, inside)[i].link.WriteLink?
    decreases e, 1
  {
    match e
    case Literal(_, _, _) =>
    case SymbolRef(_, _, _) =>
    case Field(_, source, _, _) => ExprLinksAreWrites(source, inside);
    case Projection(_, source, _, _) => ExprLinksAreWrites(source, inside);
    case Call(_, _, operands, _) => OperandLinksAreWrites(operands, inside);
    case Binary(_, _, left, right, _) =>
      ExprLinksAreWrites(left, inside);
      ExprLinksAreWrites(right, inside);
    case Read(_, _, arguments, _, _) => ArgumentLinksAreWrites(arguments, inside);
    case Write(_, _, arguments, _, _) => ArgumentLinksAreWrites(arguments, inside);
  }

  lemma {:induction false} OperandLinksAreWrites(es: seq<Expr>, inside: bool)
    ensures forall i | 0 <= i < |OperandLinks(es, inside)| :: OperandLinks(es, inside)[i].link.WriteLink?
    decreases es, 0
  {
    if es != [] {
      ExprLinksAreWrites(es[0], inside);
      OperandLinksAreWrites(es[1..], inside);
    }
  }

  lemma {:induction false} ArgumentLinksAreWrites(args: seq<Argument>, inside: bool)
    ensures forall i | 0 <= i < |ArgumentLinks(args, inside)| :: ArgumentLinks(args, inside)[i].link.WriteLink?
    decreases args, 0
  {
    if args != [] {
      ExprLinksAreWrites(args[0].value, inside);
      ArgumentLinksAreWrites(args[1..], inside);
    }
  }

  lemma OrderedJoin(a: seq<Ordered>, b: seq<Ordered>, low: nat, middle: nat, high: nat)
    requires Between(a, low, middle) && Between(b, middle, high) && WellOrdered(a) && WellOrdered(b) && low <= middle <= high
    ensures Between(a + b, low, high) && WellOrdered(a + b) && Marks(a + b) == Marks(a) + Marks(b)
  {
  }

  lemma NumberedIsOrdered(order: nat, links: seq<Marked<ToolRef>>)
    requires order > 0 && forall i | 0 <= i < |links| :: links[i].link.WriteLink?
    ensures var n := Numbered(order, links); Between(n, order - 1, order) && WellOrdered(n) && Marks(n) == links
  {
  }

  lemma {:induction false} StmtIsWellOrdered(stmt: Stmt, inside: bool, counter: nat)
    ensures var c := StmtOrdered(stmt, inside, counter);
      c.counter > counter && Between(c.links, counter, c.counter) && WellOrdered(c.links) && Marks(c.links) == StmtLinks(stmt, inside)
    decreases stmt, 0
  {
    hide ExprLinks, ArgumentLinks, Between, WellOrdered, Marks, Numbered;
    match stmt
    case Foreach(_, _, collection, _, body) =>
      ExprLinksAreWrites(collection, inside);
      NumberedIsOrdered(counter + 1, ExprLinks(collection, inside));
      BlockIsWellOrdered(body, true, counter + 1);
      var rest := BlockOrdered(body, true, counter + 1);
      OrderedJoin(Numbered(counter + 1, ExprLinks(collection, inside)), rest.links, counter, counter + 1, rest.counter);
    case Let(_, _, value) =>
      ExprLinksAreWrites(value, inside);
      NumberedIsOrdered(counter + 1, ExprLinks(value, inside));
    case Check(_, _, condition, _, _, _, _) =>
      ExprLinksAreWrites(condition, inside);
      NumberedIsOrdered(counter + 1, ExprLinks(condition, inside));
    case Emit(_, fields) =>
      ArgumentLinksAreWrites(fields, inside);
      NumberedIsOrdered(counter + 1, ArgumentLinks(fields, inside));
    case Approval(_, id, _, _) => ApprovalIsOrdered(counter + 1, Marked(ApproveLink(id), inside));
  }

  lemma ApprovalIsOrdered(order: nat, m: Marked<ToolRef>)
    requires order > 0
    ensures var n := Numbered(order, [m]); Between(n, order - 1, order) && WellOrdered(n) && Marks(n) == [m]
  {
  }

  lemma {:induction false} BlockIsWellOrdered(stmts: seq<Stmt>, inside: bool, counter: nat)
    ensures var c := BlockOrdered(stmts, inside, counter);
      c.counter >= counter && Between(c.links, counter, c.counter) && WellOrdered(c.links) && Marks(c.links) == BlockLinks(stmts, inside)
    decreases stmts, 1
  {
    if stmts != [] {
      var first := StmtOrdered(stmts[0], inside, counter);
      var rest := BlockOrdered(stmts[1..], inside, first.counter);
      hide StmtOrdered, StmtLinks, Between, WellOrdered, Marks;
      StmtIsWellOrdered(stmts[0], inside, counter);
      BlockIsWellOrdered(stmts[1..], inside, first.counter);
      OrderedJoin(first.links, rest.links, counter, first.counter, rest.counter);
    }
  }

  // ---------- the two agree ----------

  ghost predicate CapabilitiesOf(tools: Tools, capabilities: Capabilities) {
    forall id | id in tools :: tools[id].ref in capabilities && capabilities[tools[id].ref] == tools[id].capability
  }

  lemma ShapesAgree(tools: Tools, a: seq<Marked<string>>, b: seq<Marked<ToolRef>>)
    requires SameLinks(tools, a, b)
    ensures ApprovalsUnique(a) <==> ApprovalsUnique(b)
    ensures AtMostOneWrite(a) <==> AtMostOneWrite(b)
  {
    forall i, j | 0 <= i < j < |a| && a[i].link.ApproveLink? ensures Approves(a[j], a[i].link.id) <==> Approves(b[j], b[i].link.id) {
      assert SameLink(tools, a[i], b[i]) && SameLink(tools, a[j], b[j]);
    }
    forall i | 0 <= i < |a| ensures a[i].link.WriteLink? <==> b[i].link.WriteLink? {
      assert SameLink(tools, a[i], b[i]);
    }
    forall i | 0 <= i < |a| ensures a[i].link.ApproveLink? <==> b[i].link.ApproveLink? {
      assert SameLink(tools, a[i], b[i]);
    }
    if ApprovalsUnique(a) {
      forall i, j | 0 <= i < j < |b| && b[i].link.ApproveLink? ensures !Approves(b[j], b[i].link.id) {
        assert !Approves(a[j], a[i].link.id);
      }
    }
    if AtMostOneWrite(b) {
      forall i, j | 0 <= i < j < |a| && a[i].link.WriteLink? ensures !a[j].link.WriteLink? {
        assert b[i].link.WriteLink?;
      }
    }
  }

  lemma UsesAgree(tools: Tools, a: seq<Marked<string>>, b: seq<Marked<ToolRef>>)
    requires SameLinks(tools, a, b)
    ensures ApprovalsUsed(a) <==> ApprovalsUsed(b)
  {
    forall i, j | 0 <= i < |a| && 0 <= j < |a| && a[i].link.ApproveLink? ensures Writes(a[j], a[i].link.id) <==> Writes(b[j], b[i].link.id) {
      assert SameLink(tools, a[i], b[i]) && SameLink(tools, a[j], b[j]);
    }
    forall i | 0 <= i < |a| ensures a[i].link.ApproveLink? <==> b[i].link.ApproveLink? {
      assert SameLink(tools, a[i], b[i]);
    }
    if ApprovalsUsed(a) {
      forall i | 0 <= i < |b| && b[i].link.ApproveLink? ensures exists j :: 0 <= j < |b| && Writes(b[j], b[i].link.id) {
        var j :| 0 <= j < |a| && Writes(a[j], a[i].link.id);
        assert Writes(b[j], b[i].link.id);
      }
    }
    if ApprovalsUsed(b) {
      forall i | 0 <= i < |a| && a[i].link.ApproveLink? ensures exists j :: 0 <= j < |a| && Writes(a[j], a[i].link.id) {
        var j :| 0 <= j < |b| && Writes(b[j], b[i].link.id);
        assert Writes(a[j], a[i].link.id);
      }
    }
  }

  // A licence by position is a licence by number, because numbers follow positions.
  lemma LicencesAgree(tools: Tools, capabilities: Capabilities, a: seq<Marked<string>>, b: seq<Ordered>, j: nat)
    requires SameLinks(tools, a, Marks(b)) && WellOrdered(b) && CapabilitiesOf(tools, capabilities)
    requires j < |a| && a[j].link.WriteLink? && b[j].mark.link.WriteLink?
    ensures Licensed(tools, a, j) <==> LicensedByNumber(capabilities, b, j)
  {
    assert forall i | 0 <= i < |b| :: Marks(b)[i] == b[i].mark && SameLink(tools, a[i], b[i].mark);
    assert SameLink(tools, a[j], b[j].mark);
    if Licensed(tools, a, j) {
      var i :| 0 <= i < j && Approves(a[i], a[j].link.approval);
      assert SameLink(tools, a[i], b[i].mark);
      assert Approves(b[i].mark, b[j].mark.link.approval) && b[i].order < b[j].order;
    }
    if LicensedByNumber(capabilities, b, j) {
      var i :| 0 <= i < |b| && Approves(b[i].mark, b[j].mark.link.approval) && b[i].order < b[j].order;
      assert SameLink(tools, a[i], b[i].mark);
      assert i < j && Approves(a[i], a[j].link.approval);
    }
  }

  lemma RulesAgree(tools: Tools, capabilities: Capabilities, a: seq<Marked<string>>, b: seq<Ordered>)
    requires SameLinks(tools, a, Marks(b)) && WellOrdered(b) && CapabilitiesOf(tools, capabilities)
    ensures AstAccepts(tools, a) <==> IrAccepts(capabilities, b) && NoApprovalInside(a)
  {
    ShapesAgree(tools, a, Marks(b));
    UsesAgree(tools, a, Marks(b));
    forall j | 0 <= j < |a| ensures a[j].link.WriteLink? <==> b[j].mark.link.WriteLink? {
      assert SameLink(tools, a[j], Marks(b)[j]);
    }
    hide ApprovalsUnique, AtMostOneWrite, ApprovalsUsed, NoApprovalInside, Licensed, LicensedByNumber, WellOrdered, CapabilitiesOf, SameLink;
    forall j | 0 <= j < |a| && a[j].link.WriteLink? ensures Licensed(tools, a, j) <==> LicensedByNumber(capabilities, b, j) {
      LicencesAgree(tools, capabilities, a, b, j);
    }
  }

  // The compiler's analysers accept a body exactly when the schema accepts what it is lowered to and
  // no approval stands inside a loop, the one thing the schema does not look at.
  lemma LinkChecksSurviveLowering(tools: Tools, capabilities: Capabilities, outputs: seq<OutputField>, body: seq<AstStmt>, s: LState)
    requires s.table.frames != [] && LowerBlock(tools, outputs, body, s).Ok? && CapabilitiesOf(tools, capabilities)
    ensures AstAccepts(tools, AstBlockLinks(body, false)) <==>
      IrAccepts(capabilities, BlockOrdered(LowerBlock(tools, outputs, body, s).value.stmts, false, 0).links) && NoApprovalInside(AstBlockLinks(body, false))
  {
    LoweredBlockKeepsLinks(tools, outputs, body, s, false);
    var lowered := LowerBlock(tools, outputs, body, s).value.stmts;
    BlockIsWellOrdered(lowered, false, 0);
    hide *;
    RulesAgree(tools, capabilities, AstBlockLinks(body, false), BlockOrdered(lowered, false, 0).links);
  }

  // ---------- the analysers, as they run ----------

  // Every approval so far, by its identifier, with its place.
  ghost predicate Places(links: seq<Marked<string>>, n: nat, approvals: map<string, nat>)
    requires n <= |links|
  {
    && (forall k | 0 <= k < n && links[k].link.ApproveLink? :: links[k].link.id in approvals && approvals[links[k].link.id] == k)
    && (forall id | id in approvals :: approvals[id] < n && Approves(links[approvals[id]], id))
  }

  // The places of all WRITEs so far, in order.
  ghost predicate WritePlaces(links: seq<Marked<string>>, n: nat, writes: seq<nat>)
    requires n <= |links|
  {
    && (forall k | 0 <= k < |writes| :: writes[k] < n && links[writes[k]].link.WriteLink?)
    && (forall k | 0 <= k < n && links[k].link.WriteLink? :: k in writes)
    && (forall j, k | 0 <= j < k < |writes| :: writes[j] < writes[k])
  }

  // The compiler's analyser: declarations first, then each WRITE, then what was left unused, then
  // the safety of the WRITE.
  method AnalyzeApprovals(tools: Tools, links: seq<Marked<string>>) returns (ok: bool)
    ensures ok <==> AstAccepts(tools, links)
  {
    var approvals, writes;
    ok, approvals, writes := CollectDeclarations(links);
    if !ok {
      return;
    }
    var linked;
    ok, linked := LinkWrites(tools, links, approvals, writes);
    if !ok {
      return;
    }
    LinkedMeansUsed(links, approvals, writes, linked);
    hide Places, Approves, Writes, WritePlaces;
    if exists id :: id in approvals && id !in linked {
      return false;
    }
    SeveralWrites(links, writes);
    if |writes| > 1 {
      return false;
    }
    ok := WriteIsSafe(tools, links, approvals, writes);
  }

  method CollectDeclarations(links: seq<Marked<string>>) returns (ok: bool, approvals: map<string, nat>, writes: seq<nat>)
    ensures ok <==> NoApprovalInside(links) && ApprovalsUnique(links)
    ensures ok ==> Places(links, |links|, approvals) && WritePlaces(links, |links|, writes)
  {
    approvals, writes := map[], [];
    for i := 0 to |links|
      invariant forall k | 0 <= k < i && links[k].link.ApproveLink? :: !links[k].inside
      invariant Places(links, i, approvals) && WritePlaces(links, i, writes)
    {
      match links[i].link {
        case ApproveLink(id) =>
          if links[i].inside {
            return false, approvals, writes;
          }
          if id in approvals {
            assert Approves(links[i], links[approvals[id]].link.id);
            return false, approvals, writes;
          }
          approvals := approvals[id := i];
        case WriteLink(_, _) =>
          writes := writes + [i];
      }
    }
    ok := true;
  }

  // Each WRITE must name an earlier approval that no WRITE before it has named.
  method LinkWrites(tools: Tools, links: seq<Marked<string>>, approvals: map<string, nat>, writes: seq<nat>) returns (ok: bool, linked: set<string>)
    requires Places(links, |links|, approvals) && WritePlaces(links, |links|, writes)
    ensures !ok ==> !AstAccepts(tools, links)
    ensures ok ==> forall k | 0 <= k < |writes| :: links[writes[k]].link.approval in approvals && approvals[links[writes[k]].link.approval] < writes[k]
    ensures ok ==> forall id :: id in linked <==> exists k :: 0 <= k < |writes| && links[writes[k]].link.approval == id
  {
    linked := {};
    for k := 0 to |writes|
      invariant forall j | 0 <= j < k :: links[writes[j]].link.approval in approvals && approvals[links[writes[j]].link.approval] < writes[j]
      invariant forall id :: id in linked <==> exists j :: 0 <= j < k && links[writes[j]].link.approval == id
    {
      var approval := links[writes[k]].link.approval;
      if approval !in approvals || approvals[approval] >= writes[k] {
        assert !Licensed(tools, links, writes[k]);
        return false, linked;
      }
      if approval in linked {
        var j :| 0 <= j < k && links[writes[j]].link.approval == approval;
        assert writes[j] < writes[k] && links[writes[j]].link.WriteLink? && links[writes[k]].link.WriteLink?;
        return false, linked;
      }
      linked := linked + {approval};
    }
    ok := true;
  }

  // The one WRITE left is outside every loop and has a WRITE tool.
  method WriteIsSafe(tools: Tools, links: seq<Marked<string>>, approvals: map<string, nat>, writes: seq<nat>) returns (ok: bool)
    requires Places(links, |links|, approvals) && WritePlaces(links, |links|, writes) && |writes| <= 1
    requires forall k | 0 <= k < |writes| :: links[writes[k]].link.approval in approvals && approvals[links[writes[k]].link.approval] < writes[k]
    ensures ok <==> forall j | 0 <= j < |links| && links[j].link.WriteLink? :: Licensed(tools, links, j)
  {
    if |writes| == 0 {
      return true;
    }
    var write := links[writes[0]];
    assert Approves(links[approvals[write.link.approval]], write.link.approval);
    ok := !write.inside && write.link.tool in tools && tools[write.link.tool].capability == WRITE;
    assert ok <==> Licensed(tools, links, writes[0]);
    assert forall j | 0 <= j < |links| && links[j].link.WriteLink? :: j == writes[0];
  }

  lemma SeveralWrites(links: seq<Marked<string>>, writes: seq<nat>)
    requires WritePlaces(links, |links|, writes)
    ensures |writes| > 1 <==> !AtMostOneWrite(links)
  {
    if |writes| > 1 {
      assert writes[0] < writes[1] && links[writes[0]].link.WriteLink? && links[writes[1]].link.WriteLink?;
    }
    if !AtMostOneWrite(links) {
      var i, j :| 0 <= i < j < |links| && links[i].link.WriteLink? && links[j].link.WriteLink?;
      assert i in writes && j in writes;
    }
  }

  lemma LinkedMeansUsed(links: seq<Marked<string>>, approvals: map<string, nat>, writes: seq<nat>, linked: set<string>)
    requires Places(links, |links|, approvals) && WritePlaces(links, |links|, writes)
    requires forall id :: id in linked <==> exists k :: 0 <= k < |writes| && links[writes[k]].link.approval == id
    ensures ApprovalsUsed(links) <==> !exists id :: id in approvals && id !in linked
  {
    if exists id :: id in approvals && id !in linked {
      var id :| id in approvals && id !in linked;
      UnusedApproval(links, approvals[id], id, linked, writes);
    } else {
      forall i | 0 <= i < |links| && links[i].link.ApproveLink? ensures exists j :: 0 <= j < |links| && Writes(links[j], links[i].link.id) {
        assert links[i].link.id in linked;
        var j :| 0 <= j < |writes| && links[writes[j]].link.approval == links[i].link.id;
        assert Writes(links[writes[j]], links[i].link.id);
      }
    }
  }

  lemma UnusedApproval(links: seq<Marked<string>>, i: nat, id: string, linked: set<string>, writes: seq<nat>)
    requires i < |links| && Approves(links[i], id) && id !in linked
    requires forall k | 0 <= k < |writes| :: writes[k] < |links| && links[writes[k]].link.WriteLink?
    requires forall k | 0 <= k < |links| && links[k].link.WriteLink? :: k in writes
    requires forall other :: other in linked <==> exists j :: 0 <= j < |writes| && links[writes[j]].link.approval == other
    ensures !ApprovalsUsed(links)
  {
    forall j | 0 <= j < |links| ensures !Writes(links[j], id) {
      if links[j].link.WriteLink? {
        var k :| 0 <= k < |writes| && writes[k] == j;
        assert links[writes[k]].link.approval in linked;
      }
    }
  }

  // The WRITEs among numbered links, in order.
  function WritesOf(links: seq<Ordered>): (r: seq<Ordered>)
    ensures forall k | 0 <= k < |r| :: r[k] in links && r[k].mark.link.WriteLink?
    ensures forall i | 0 <= i < |links| && links[i].mark.link.WriteLink? :: links[i] in r
  {
    if links == [] then []
    else
      var n := |links| - 1;
      WritesOf(links[..n]) + if links[n].mark.link.WriteLink? then [links[n]] else []
  }

  // The approvals among numbered links by their identifiers, unless one is declared twice.
  function Register(approvals: map<string, nat>, links: seq<Ordered>): Option<map<string, nat>> {
    if links == [] then Some(approvals)
    else
      var n := |links| - 1;
      match Register(approvals, links[..n])
      case None => None
      case Some(front) =>
        match links[n].mark.link
        case WriteLink(_, _) => Some(front)
        case ApproveLink(id) => if id in front then None else Some(front[id := links[n].order])
  }

  lemma {:induction false} WritesOfJoin(a: seq<Ordered>, b: seq<Ordered>)
    ensures WritesOf(a + b) == WritesOf(a) + WritesOf(b)
    decreases |b|
  {
    if b == [] {
      assert a + b == a;
    } else {
      var n := |b| - 1;
      assert (a + b)[..|a + b| - 1] == a + b[..n];
      WritesOfJoin(a, b[..n]);
    }
  }

  lemma {:induction false} RegisterJoin(approvals: map<string, nat>, a: seq<Ordered>, b: seq<Ordered>)
    ensures Register(approvals, a + b) == match Register(approvals, a) case None => None case Some(mid) => Register(mid, b)
    decreases |b|
  {
    if b == [] {
      assert a + b == a;
    } else {
      var n := |b| - 1;
      assert (a + b)[..|a + b| - 1] == a + b[..n];
      RegisterJoin(approvals, a, b[..n]);
    }
  }

  lemma {:induction false} OnlyWrites(links: seq<Ordered>, approvals: map<string, nat>)
    requires forall i | 0 <= i < |links| :: links[i].mark.link.WriteLink?
    ensures WritesOf(links) == links && Register(approvals, links) == Some(approvals)
    decreases |links|
  {
    if links != [] {
      var front := links[..|links| - 1];
      OnlyWrites(front, approvals);
      var last := links[|links| - 1];
      assert links == front + [last];
      assert WritesOf(links) == WritesOf(front) + [last] == front + [last];
    }
  }

  class LinkCollector {
    var counter: nat
    var approvals: map<string, nat>
    var writes: seq<Ordered>

    constructor ()
      ensures counter == 0 && approvals == map[] && writes == []
    {
      counter, approvals, writes := 0, map[], [];
    }

    method CollectExpr(e: Expr, order: nat, inside: bool)
      modifies this`writes
      ensures writes == old(writes) + Numbered(order, ExprLinks(e, inside))
      decreases e, 1
    {
      match e {
        case Literal(_, _, _) =>
        case SymbolRef(_, _, _) =>
        case Field(_, source, _, _) => CollectExpr(source, order, inside);
        case Projection(_, source, _, _) => CollectExpr(source, order, inside);
        case Call(_, _, _, _) => CollectOperands(e, order, inside);
        case Binary(_, _, left, right, _) =>
          NumberedJoin(order, ExprLinks(left, inside), ExprLinks(right, inside));
          CollectExpr(left, order, inside);
          CollectExpr(right, order, inside);
        case Read(_, _, arguments, _, _) => CollectArguments(e, order, inside);
        case Write(_, tool, arguments, approval, _) =>
          NumberedJoin(order, [Marked(WriteLink(tool, approval), inside)], ArgumentLinks(arguments, inside));
          writes := writes + [Ordered(order, Marked(WriteLink(tool, approval), inside))];
          CollectArguments(e, order, inside);
      }
    }

    method CollectOperands(e: Expr, order: nat, inside: bool)
      requires e.Call?
      modifies this`writes
      ensures writes == old(writes) + Numbered(order, OperandLinks(e.operands, inside))
      decreases e, 0
    {
      var operands := e.operands;
      assert operands[0..] == operands;
      for i := 0 to |operands|
        invariant writes + Numbered(order, OperandLinks(operands[i..], inside)) == old(writes) + Numbered(order, OperandLinks(operands, inside))
      {
        assert operands[i..][0] == operands[i] && operands[i..][1..] == operands[i + 1..];
        NumberedJoin(order, ExprLinks(operands[i], inside), OperandLinks(operands[i + 1..], inside));
        CollectExpr(operands[i], order, inside);
      }
    }

    method CollectArguments(e: Expr, order: nat, inside: bool)
      requires e.Read? || e.Write?
      modifies this`writes
      ensures writes == old(writes) + Numbered(order, ArgumentLinks(e.arguments, inside))
      decreases e, 0
    {
      var arguments := e.arguments;
      assert arguments[0..] == arguments;
      for i := 0 to |arguments|
        invariant writes + Numbered(order, ArgumentLinks(arguments[i..], inside)) == old(writes) + Numbered(order, ArgumentLinks(arguments, inside))
      {
        assert arguments[i..][0] == arguments[i] && arguments[i..][1..] == arguments[i + 1..];
        NumberedJoin(order, ExprLinks(arguments[i].value, inside), ArgumentLinks(arguments[i + 1..], inside));
        CollectExpr(arguments[i].value, order, inside);
      }
    }

    method CollectStmt(stmt: Stmt, inside: bool) returns (ok: bool)
      modifies this
      ensures var c := StmtOrdered(stmt, inside, old(counter));
        && ok == Register(old(approvals), c.links).Some?
        && (ok ==> counter == c.counter && writes == old(writes) + WritesOf(c.links) && Some(approvals) == Register(old(approvals), c.links))
      decreases stmt, 0
    {
      hide *;
      if stmt.Foreach? {
        ok := CollectForeach(stmt, inside);
        return;
      }
      PlainStmtCollects(stmt, inside, counter, approvals);
      counter := counter + 1;
      var order := counter;
      match stmt {
        case Approval(_, id, _, _) =>
          if id in approvals {
            return false;
          }
          approvals := approvals[id := order];
          assert writes == old(writes) + [];
        case Let(_, _, value) => CollectExpr(value, order, inside);
        case Check(_, _, condition, _, _, _, _) => CollectExpr(condition, order, inside);
        case Emit(_, _) => CollectFields(stmt, order, inside);
      }
      return true;
    }

    method CollectForeach(stmt: Stmt, inside: bool) returns (ok: bool)
      requires stmt.Foreach?
      modifies this
      ensures var c := StmtOrdered(stmt, inside, old(counter));
        && ok == Register(old(approvals), c.links).Some?
        && (ok ==> counter == c.counter && writes == old(writes) + WritesOf(c.links) && Some(approvals) == Register(old(approvals), c.links))
      decreases stmt, 0, 0
    {
      hide *;
      ForeachCollects(stmt, inside, counter, approvals);
      counter := counter + 1;
      ghost var own := Numbered(counter, ExprLinks(stmt.collection, inside));
      ghost var body := WritesOf(BlockOrdered(stmt.body, true, counter).links);
      CollectExpr(stmt.collection, counter, inside);
      ok := CollectBlock(stmt.body, true);
      assert old(writes) + own + body == old(writes) + (own + body);
    }

    method CollectFields(stmt: Stmt, order: nat, inside: bool)
      requires stmt.Emit?
      modifies this`writes
      ensures writes == old(writes) + Numbered(order, ArgumentLinks(stmt.fields, inside))
    {
      var fields := stmt.fields;
      assert fields[0..] == fields;
      for i := 0 to |fields|
        invariant writes + Numbered(order, ArgumentLinks(fields[i..], inside)) == old(writes) + Numbered(order, ArgumentLinks(fields, inside))
      {
        assert fields[i..][0] == fields[i] && fields[i..][1..] == fields[i + 1..];
        NumberedJoin(order, ExprLinks(fields[i].value, inside), ArgumentLinks(fields[i + 1..], inside));
        CollectExpr(fields[i].value, order, inside);
      }
    }

    method CollectBlock(stmts: seq<Stmt>, inside: bool) returns (ok: bool)
      modifies this
      ensures var c := BlockOrdered(stmts, inside, old(counter));
        && ok == Register(old(approvals), c.links).Some?
        && (ok ==> counter == c.counter && writes == old(writes) + WritesOf(c.links) && Some(approvals) == Register(old(approvals), c.links))
      decreases stmts, 1
    {
      hide *;
      ghost var whole := BlockOrdered(stmts, inside, counter);
      ghost var registered := Register(approvals, whole.links);
      ghost var rest := whole;
      ghost var done: seq<Ordered> := [];
      assert stmts[0..] == stmts && writes == old(writes) + done;
      for i := 0 to |stmts|
        invariant rest == BlockOrdered(stmts[i..], inside, counter) && whole.counter == rest.counter
        invariant writes == old(writes) + done && WritesOf(whole.links) == done + WritesOf(rest.links)
        invariant registered == Register(approvals, rest.links)
      {
        assert stmts[i..][0] == stmts[i] && stmts[i..][1..] == stmts[i + 1..];
        ghost var first := StmtOrdered(stmts[i], inside, counter);
        ghost var next := BlockOrdered(stmts[i + 1..], inside, first.counter);
        BlockUnfolds(stmts[i..], inside, counter, approvals);
        ok := CollectStmt(stmts[i], inside);
        if !ok {
          return;
        }
        ghost var own := WritesOf(first.links);
        assert old(writes) + done + own == old(writes) + (done + own);
        assert done + (own + WritesOf(next.links)) == done + own + WritesOf(next.links);
        done, rest := done + own, next;
      }
      NothingCollected(inside, counter, approvals);
      assert stmts[|stmts|..] == [] && done + [] == done;
      return true;
    }
  }

  lemma BlockUnfolds(stmts: seq<Stmt>, inside: bool, counter: nat, approvals: map<string, nat>)
    requires stmts != []
    ensures var whole := BlockOrdered(stmts, inside, counter);
      var first := StmtOrdered(stmts[0], inside, counter);
      var rest := BlockOrdered(stmts[1..], inside, first.counter);
      && whole.counter == rest.counter && WritesOf(whole.links) == WritesOf(first.links) + WritesOf(rest.links)
      && Register(approvals, whole.links) == match Register(approvals, first.links) case None => None case Some(mid) => Register(mid, rest.links)
  {
    var first := StmtOrdered(stmts[0], inside, counter);
    var rest := BlockOrdered(stmts[1..], inside, first.counter);
    WritesOfJoin(first.links, rest.links);
    RegisterJoin(approvals, first.links, rest.links);
    hide StmtOrdered, WritesOf, Register;
  }

  lemma NothingCollected(inside: bool, counter: nat, approvals: map<string, nat>)
    ensures BlockOrdered([], inside, counter) == Collected([], counter)
    ensures WritesOf([]) == [] && Register(approvals, []) == Some(approvals)
  {
  }

  // What collecting one simple statement comes to.
  lemma PlainStmtCollects(stmt: Stmt, inside: bool, counter: nat, approvals: map<string, nat>)
    requires !stmt.Foreach?
    ensures var c := StmtOrdered(stmt, inside, counter);
      && c.counter == counter + 1
      && WritesOf(c.links) == (match stmt
           case Let(_, _, value) => Numbered(counter + 1, ExprLinks(value, inside))
           case Check(_, _, condition, _, _, _, _) => Numbered(counter + 1, ExprLinks(condition, inside))
           case Emit(_, fields) => Numbered(counter + 1, ArgumentLinks(fields, inside))
           case _ => [])
      && Register(approvals, c.links) == (match stmt
           case Approval(_, id, _, _) => if id in approvals then None else Some(approvals[id := counter + 1])
           case _ => Some(approvals))
  {
    hide ExprLinks, ArgumentLinks;
    match stmt
    case Let(_, _, value) =>
      ExprLinksAreWrites(value, inside);
      OnlyWrites(Numbered(counter + 1, ExprLinks(value, inside)), approvals);
    case Check(_, _, condition, _, _, _, _) =>
      ExprLinksAreWrites(condition, inside);
      OnlyWrites(Numbered(counter + 1, ExprLinks(condition, inside)), approvals);
    case Emit(_, fields) =>
      ArgumentLinksAreWrites(fields, inside);
      OnlyWrites(Numbered(counter + 1, ArgumentLinks(fields, inside)), approvals);
    case Approval(_, id, _, _) =>
      var link := Ordered(counter + 1, Marked(ApproveLink(id), inside));
      assert StmtOrdered(stmt, inside, counter).links == [link];
      assert [link][..0] == [];
  }

  lemma ForeachCollects(stmt: Stmt, inside: bool, counter: nat, approvals: map<string, nat>)
    requires stmt.Foreach?
    ensures var c := StmtOrdered(stmt, inside, counter);
      var body := BlockOrdered(stmt.body, true, counter + 1);
      && c.counter == body.counter
      && WritesOf(c.links) == Numbered(counter + 1, ExprLinks(stmt.collection, inside)) + WritesOf(body.links)
      && Register(approvals, c.links) == Register(approvals, body.links)
  {
    var own := Numbered(counter + 1, ExprLinks(stmt.collection, inside));
    var body := BlockOrdered(stmt.body, true, counter + 1);
    assert StmtOrdered(stmt, inside, counter).links == own + body.links;
    hide StmtOrdered, BlockOrdered, ExprLinks;
    ExprLinksAreWrites(stmt.collection, inside);
    OnlyWrites(own, approvals);
    WritesOfJoin(own, body.links);
    RegisterJoin(approvals, own, body.links);
  }

  lemma NumberedJoin(order: nat, a: seq<Marked<ToolRef>>, b: seq<Marked<ToolRef>>)
    ensures Numbered(order, a + b) == Numbered(order, a) + Numbered(order, b)
  {
  }

  ghost predicate Tabled(links: seq<Ordered>, approvals: map<string, nat>) {
    && (forall i | 0 <= i < |links| && links[i].mark.link.ApproveLink? :: links[i].mark.link.id in approvals && approvals[links[i].mark.link.id] == links[i].order)
    && (forall id | id in approvals :: exists i :: 0 <= i < |links| && Approves(links[i].mark, id) && links[i].order == approvals[id])
  }

  lemma TabledMore(links: seq<Ordered>, approvals: map<string, nat>, last: Ordered)
    requires Tabled(links, approvals) && (last.mark.link.ApproveLink? ==> last.mark.link.id !in approvals)
    ensures Tabled(links + [last], if last.mark.link.ApproveLink? then approvals[last.mark.link.id := last.order] else approvals)
  {
    var longer := links + [last];
    var t := if last.mark.link.ApproveLink? then approvals[last.mark.link.id := last.order] else approvals;
    forall id | id in t ensures exists i :: 0 <= i < |longer| && Approves(longer[i].mark, id) && longer[i].order == t[id] {
      if last.mark.link.ApproveLink? && id == last.mark.link.id {
        assert Approves(longer[|links|].mark, id);
      } else {
        var i :| 0 <= i < |links| && Approves(links[i].mark, id) && links[i].order == approvals[id];
        assert Approves(longer[i].mark, id);
      }
    }
  }

  // The table of approvals can be built exactly when none is declared twice, and says which are
  // declared and where.
  lemma {:induction false} RegisterIsExact(links: seq<Ordered>)
    ensures Register(map[], links).Some? <==> ApprovalsUnique(Marks(links))
    ensures Register(map[], links).Some? ==> Tabled(links, Register(map[], links).value)
    decreases |links|
  {
    if links != [] {
      var n := |links| - 1;
      var front := links[..n];
      RegisterIsExact(front);
      MarksMore(links);
      var m := links[n].mark;
      var marks := Marks(front);
      UniqueMore(marks, m);
      assert links == front + [links[n]];
      hide Marks, ApprovalsUnique;
      if Register(map[], front).Some? {
        var t := Register(map[], front).value;
        if m.link.ApproveLink? {
          InTable(front, t, m.link.id);
          if m.link.id !in t {
            TabledMore(front, t, links[n]);
          }
        } else {
          TabledMore(front, t, links[n]);
        }
      }
    }
  }

  lemma InTable(links: seq<Ordered>, approvals: map<string, nat>, id: string)
    requires Tabled(links, approvals)
    ensures id in approvals <==> exists i :: 0 <= i < |Marks(links)| && Approves(Marks(links)[i], id)
  {
    if id in approvals {
      var i :| 0 <= i < |links| && Approves(links[i].mark, id);
      assert Approves(Marks(links)[i], id);
    }
  }

  lemma MarksMore(links: seq<Ordered>)
    requires links != []
    ensures Marks(links) == Marks(links[..|links| - 1]) + [links[|links| - 1].mark]
  {
  }

  lemma UniqueMore<T>(marks: seq<Marked<T>>, m: Marked<T>)
    ensures ApprovalsUnique(marks + [m]) <==>
      ApprovalsUnique(marks) && !(m.link.ApproveLink? && exists i :: 0 <= i < |marks| && Approves(marks[i], m.link.id))
  {
    var longer := marks + [m];
    if ApprovalsUnique(longer) {
      assert longer[|marks|] == m;
      forall i | 0 <= i < |marks| ensures m.link.ApproveLink? ==> !Approves(marks[i], m.link.id) {
        assert longer[i] == marks[i];
      }
      forall i, j | 0 <= i < j < |marks| && marks[i].link.ApproveLink? ensures !Approves(marks[j], marks[i].link.id) {
        assert longer[i] == marks[i] && longer[j] == marks[j];
      }
    }
  }

  ghost predicate SomeWrite<T>(marks: seq<Marked<T>>) {
    exists i :: 0 <= i < |marks| && marks[i].link.WriteLink?
  }

  lemma OneWriteMore<T>(marks: seq<Marked<T>>, m: Marked<T>)
    ensures AtMostOneWrite(marks + [m]) <==> AtMostOneWrite(marks) && !(m.link.WriteLink? && SomeWrite(marks))
    ensures SomeWrite(marks + [m]) <==> SomeWrite(marks) || m.link.WriteLink?
  {
    var longer := marks + [m];
    assert longer[|marks|] == m;
    if SomeWrite(marks) {
      var i :| 0 <= i < |marks| && marks[i].link.WriteLink?;
      assert longer[i].link.WriteLink?;
    }
    if AtMostOneWrite(longer) {
      forall i, j | 0 <= i < j < |marks| && marks[i].link.WriteLink? ensures !marks[j].link.WriteLink? {
        assert longer[i] == marks[i] && longer[j] == marks[j];
      }
    }
  }

  lemma {:induction false} FewWrites(links: seq<Ordered>)
    ensures |WritesOf(links)| <= 1 <==> AtMostOneWrite(Marks(links))
    ensures WritesOf(links) != [] <==> SomeWrite(Marks(links))
    decreases |links|
  {
    if links != [] {
      FewWrites(links[..|links| - 1]);
      MarksMore(links);
      OneWriteMore(Marks(links[..|links| - 1]), links[|links| - 1].mark);
      hide Marks, AtMostOneWrite, SomeWrite;
    }
  }

  // The schema's validator: collect, then check each WRITE against the table, then each approval.
  method ValidateLinks(capabilities: Capabilities, body: seq<Stmt>) returns (ok: bool)
    ensures ok <==> IrAccepts(capabilities, BlockOrdered(body, false, 0).links)
  {
    ghost var links := BlockOrdered(body, false, 0).links;
    RegisterIsExact(links);
    FewWrites(links);
    var collector := new LinkCollector();
    ok := collector.CollectBlock(body, false);
    if !ok {
      return;
    }
    var approvals, writes := collector.approvals, collector.writes;
    assert [] + WritesOf(links) == WritesOf(links) == writes;
    hide BlockOrdered, Register, ApprovalsUnique, AtMostOneWrite;
    if |writes| > 1 {
      return false;
    }
    ok := CheckTables(capabilities, links, approvals, writes);
  }

  method CheckTables(capabilities: Capabilities, ghost links: seq<Ordered>, approvals: map<string, nat>, writes: seq<Ordered>) returns (ok: bool)
    requires Tabled(links, approvals) && writes == WritesOf(links) && |writes| <= 1 && AtMostOneWrite(Marks(links))
    ensures ok <==> ApprovalsUsed(Marks(links)) && forall j | 0 <= j < |links| && links[j].mark.link.WriteLink? :: LicensedByNumber(capabilities, links, j)
  {
    UsedFromTable(links, approvals);
    if |writes| == 0 {
      assert forall j | 0 <= j < |links| :: !links[j].mark.link.WriteLink?;
      return approvals == map[];
    }
    var w := writes[0];
    ghost var j :| 0 <= j < |links| && links[j] == w;
    OnlyWriteIs(links, j);
    LicenceFromTable(capabilities, approvals, links, j);
    hide Tabled, ApprovalsUsed, LicensedByNumber, WritesOf, Marks, AtMostOneWrite;
    if w.mark.inside || w.mark.link.approval !in approvals || approvals[w.mark.link.approval] >= w.order
       || w.mark.link.tool !in capabilities || capabilities[w.mark.link.tool] != WRITE {
      return false;
    }
    ok := forall id | id in approvals :: w.mark.link.approval == id;
  }

  lemma LicenceFromTable(capabilities: Capabilities, approvals: map<string, nat>, links: seq<Ordered>, j: nat)
    requires Tabled(links, approvals) && j < |links| && links[j].mark.link.WriteLink?
    ensures var w := links[j];
      LicensedByNumber(capabilities, links, j) == (
        && !w.mark.inside && w.mark.link.approval in approvals && approvals[w.mark.link.approval] < w.order
        && w.mark.link.tool in capabilities && capabilities[w.mark.link.tool] == WRITE)
  {
    var w := links[j];
    if w.mark.link.approval in approvals && approvals[w.mark.link.approval] < w.order {
      var i :| 0 <= i < |links| && Approves(links[i].mark, w.mark.link.approval) && links[i].order == approvals[w.mark.link.approval];
    }
  }

  // With at most one WRITE, its licence is all there is to check.
  lemma OnlyWriteIs(links: seq<Ordered>, w: nat)
    requires w < |links| && WritesOf(links) == [links[w]] && AtMostOneWrite(Marks(links))
    ensures links[w].mark.link.WriteLink? && forall j | 0 <= j < |links| && links[j].mark.link.WriteLink? :: j == w
  {
    assert WritesOf(links)[0] == links[w];
    forall j | 0 <= j < |links| && links[j].mark.link.WriteLink? ensures j == w {
      assert Marks(links)[j] == links[j].mark && Marks(links)[w] == links[w].mark;
    }
  }

  lemma UsedFromTable(links: seq<Ordered>, approvals: map<string, nat>)
    requires Tabled(links, approvals)
    ensures ApprovalsUsed(Marks(links)) <==> forall id | id in approvals :: exists w :: w in WritesOf(links) && w.mark.link.approval == id
  {
    if ApprovalsUsed(Marks(links)) {
      forall id | id in approvals ensures exists w :: w in WritesOf(links) && w.mark.link.approval == id {
        var i :| 0 <= i < |links| && Approves(links[i].mark, id);
        assert Marks(links)[i].link.ApproveLink?;
        var j :| 0 <= j < |Marks(links)| && Writes(Marks(links)[j], id);
        assert links[j] in WritesOf(links);
      }
    }
    if forall id | id in approvals :: exists w :: w in WritesOf(links) && w.mark.link.approval == id {
      forall i | 0 <= i < |Marks(links)| && Marks(links)[i].link.ApproveLink?
        ensures exists j :: 0 <= j < |Marks(links)| && Writes(Marks(links)[j], Marks(links)[i].link.id)
      {
        var id := links[i].mark.link.id;
        assert id in approvals;
        var w :| w in WritesOf(links) && w.mark.link.approval == id;
        var j :| 0 <= j < |links| && links[j] == w;
        assert Writes(Marks(links)[j], id);
      }
    }
  }
}
