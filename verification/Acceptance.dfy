// Which skills the compiler accepts: just those that are well typed by name, without numbers, nodes or
// tables of scopes.

module Acceptance {
  import opened Wrappers
  import opened Core
  import opened Operators
  import opened Ir
  import opened Semantics
  import opened Symbols
  import opened Ast
  import opened Bounds
  import opened Compiler
  import opened Typing
  import opened CheckIds
  import opened ClassificationFlow

  // What a name in scope stands for. Names are never shadowed, so that one map holds the whole scope.
  type Names = map<string, Tag>

  function Higher(a: Classification, b: Classification): (c: Classification)
    ensures (c == a || c == b) && NoMoreThan(a, c) && NoMoreThan(b, c)
  {
    if NoMoreThan(a, b) then b else a
  }

  // ---------- expressions ----------

  // The type and classification of an expression, if it has one.
  function TagOf(tools: Tools, names: Names, e: AstExpr): Option<Tag>
    decreases e
  {
    match e
    case ALiteral(_, ty) => Some(Tag(ty, PUBLIC))
    case APath(root, parts) =>
      if root !in names then None
      else (match PathType(names[root].ty, parts) case Some(ty) => Some(Tag(ty, names[root].cls)) case None => None)
    case ACall(name, operands) =>
      if name !in ["count", "sum", "min", "max"] || |operands| != 1 then None
      else
        (match TagOf(tools, names, operands[0])
         case None => None
         case Some(list) => (match CallType(name, list.ty) case Some(ty) => Some(Tag(ty, list.cls)) case None => None))
    case ABinary(op, left, right) =>
      (match (TagOf(tools, names, left), TagOf(tools, names, right))
       case (Some(l), Some(r)) =>
         if l.ty != r.ty || !Applies(op, l.ty) then None
         else Some(Tag(if op.ADD? || op.SUB? || op.MUL? then l.ty else if op.DIV? then TDecimal else TBool, Higher(l.cls, r.cls)))
       case _ => None)
    case ARead(tool, arguments) =>
      if tool !in tools || tools[tool].capability != READ || !Passes(tools, names, tools[tool].contract, arguments) then None
      else Some(Tag(tools[tool].contract.output, tools[tool].contract.outputClass))
    case AWrite(tool, arguments, _) =>
      if tool !in tools || !Passes(tools, names, tools[tool].contract, arguments) then None
      else Some(Tag(tools[tool].contract.output, tools[tool].contract.outputClass))
  }

  // Lists of anything are counted, and only those of numbers and money are summed.
  function CallType(name: string, list: Type): Option<Type> {
    if !list.TList? then None
    else if name == "count" then Some(TInt)
    else if name == "sum" && !(list.item.TInt? || list.item.TDecimal? || list.item.TMoney?) then None
    else Some(list.item)
  }

  // Equality is defined on everything, order and addition on numbers and money, the rest on numbers.
  predicate Applies(op: BinOp, t: Type) {
    match op
    case EQ => true
    case NE => true
    case MUL => t.TInt? || t.TDecimal?
    case DIV => t.TInt? || t.TDecimal?
    case _ => t.TInt? || t.TDecimal? || t.TMoney?
  }

  // The type behind a path of fields; over a list, a field is that of every item.
  function PathType(ty: Type, parts: seq<string>): Option<Type>
    decreases |parts|
  {
    if parts == [] then Some(ty)
    else if ty.TRecord? then
      (match LookupField(ty.fields, parts[0]) case Some(t) => PathType(t, parts[1..]) case None => None)
    else if ty.TList? && ty.item.TRecord? then
      (match LookupField(ty.item.fields, parts[0]) case Some(t) => PathType(TList(t), parts[1..]) case None => None)
    else None
  }

  // The arguments are the contract's, each once, with its type.
  predicate Passes(tools: Tools, names: Names, contract: Contract, args: seq<AstArgument>)
    decreases args
  {
    && NamesMatch(AstArgumentNames(args), FieldNames(contract.inputs))
    && forall i | 0 <= i < |args| :: Fitting(tools, names, contract, args[i])
  }

  predicate Fitting(tools: Tools, names: Names, contract: Contract, arg: AstArgument)
    decreases arg
  {
    match TagOf(tools, names, arg.value)
    case Some(tag) => LookupField(contract.inputs, arg.name) == Some(tag.ty)
    case None => false
  }

  // ---------- statements ----------

  // The names in scope after a statement, if it is well typed.
  function After(tools: Tools, outputs: seq<OutputField>, names: Names, stmt: AstStmt): Option<Names>
    decreases stmt, 0
  {
    match stmt
    case ALet(name, value) =>
      (match TagOf(tools, names, value)
       case Some(tag) => if name in names then None else Some(names[name := tag])
       case None => None)
    case ACheck(checkId, condition, _, _, _) =>
      (match TagOf(tools, names, condition)
       case Some(tag) => if !tag.ty.TBool? || checkId in names then None else Some(names[checkId := Tag(CHECK_RESULT, INTERNAL)])
       case None => None)
    case AEmit(fields) =>
      if NamesMatch(AstArgumentNames(fields), OutputNames(outputs)) && forall i | 0 <= i < |fields| :: Emits(tools, outputs, names, fields[i])
      then Some(names) else None
    case AForeach(loopName, collection, _, body) =>
      (match TagOf(tools, names, collection)
       case Some(tag) =>
         if !tag.ty.TList? || loopName in names then None
         else if AfterAll(tools, outputs, names[loopName := Tag(tag.ty.item, tag.cls)], body).Some? then Some(names)
         else None
       case None => None)
    case AApprove(_, _) => Some(names)
  }

  function AfterAll(tools: Tools, outputs: seq<OutputField>, names: Names, stmts: seq<AstStmt>): Option<Names>
    decreases stmts, 1
  {
    if stmts == [] then Some(names)
    else match After(tools, outputs, names, stmts[0])
      case Some(next) => AfterAll(tools, outputs, next, stmts[1..])
      case None => None
  }

  // The field has its output's type, and is no more classified.
  predicate Emits(tools: Tools, outputs: seq<OutputField>, names: Names, field: AstArgument) {
    field.name in OutputNames(outputs)
    && match TagOf(tools, names, field.value)
       case Some(tag) => tag.ty == LookupOutput(outputs, field.name).ty && NoMoreThan(tag.cls, LookupOutput(outputs, field.name).cls)
       case None => false
  }

  // ---------- the compiler agrees ----------

  // The table shows just these names.
  ghost predicate Shows(t: Table, names: Names) {
    forall name :: Known(t, names, name)
  }

  predicate Known(t: Table, names: Names, name: string) {
    match Find(t.frames, name)
    case None => name !in names
    case Some(b) => name in names && names[name] == Tag(b.ty, b.cls)
  }

  ghost predicate SameExpr(r: Result<Lowered, CompileError>, tag: Option<Tag>) {
    (r.Ok? <==> tag.Some?) && (r.Ok? ==> r.value.expr.ty == tag.value.ty && r.value.cls == tag.value.cls)
  }

  lemma {:induction false} ExprIsAccepted(tools: Tools, t: Table, names: Names, e: AstExpr, n: Nodes)
    requires Shows(t, names)
    ensures SameExpr(LowerExpr(tools, t, e, n), TagOf(tools, names, e))
    decreases e, 2
  {
    match e
    case ALiteral(_, _) =>
    case APath(_, _) => PathIsKnown(tools, t, names, e, n);
    case ACall(_, _) => CallIsAccepted(tools, t, names, e, n);
    case ABinary(_, _, _) => BinaryIsAccepted(tools, t, names, e, n);
    case ARead(tool, arguments) =>
      if tool in tools {
        ArgumentsAreAccepted(tools, t, names, tools[tool].contract, arguments, n);
      }
      hide LowerArguments, NamesMatch, Shows, Fitting;
    case AWrite(tool, arguments, _) =>
      if tool in tools {
        ArgumentsAreAccepted(tools, t, names, tools[tool].contract, arguments, n);
      }
      hide LowerArguments, NamesMatch, Shows, Fitting;
  }

  lemma {:induction false} PathIsKnown(tools: Tools, t: Table, names: Names, e: AstExpr, n: Nodes)
    requires e.APath? && Shows(t, names)
    ensures SameExpr(LowerExpr(tools, t, e, n), TagOf(tools, names, e))
  {
    assert Known(t, names, e.root);
    hide Shows, LowerPath, PathType, Find;
    if e.root in names {
      var b := Find(t.frames, e.root).value;
      PathIsAccepted(SymbolRef(Next(n, ExprNode), b.id, b.ty), e.parts, Taken(n, ExprNode));
    }
  }

  lemma {:induction false} BinaryIsAccepted(tools: Tools, t: Table, names: Names, e: AstExpr, n: Nodes)
    requires e.ABinary? && Shows(t, names)
    ensures SameExpr(LowerExpr(tools, t, e, n), TagOf(tools, names, e))
    decreases e, 1
  {
    hide Shows;
    ExprIsAccepted(tools, t, names, e.left, n);
    var l := LowerExpr(tools, t, e.left, n);
    if l.Ok? {
      ExprIsAccepted(tools, t, names, e.right, l.value.nodes);
      var r := LowerExpr(tools, t, e.right, l.value.nodes);
      if r.Ok? {
        ResultIsTheType(e.op, l.value.expr.ty, r.value.expr.ty);
        HigherIsHighest();
      }
    }
    hide BinaryResult, Applies, Higher, Highest;
  }

  lemma ResultIsTheType(op: BinOp, left: Type, right: Type)
    ensures BinaryResult(op, left, right) ==
      if left != right || !Applies(op, left) then None
      else Some(if op.ADD? || op.SUB? || op.MUL? then left else if op.DIV? then TDecimal else TBool)
  {
  }

  lemma HigherIsHighest()
    ensures forall a, b :: Higher(a, b) == Highest(a, b)
  {
  }

  lemma {:induction false} PathIsAccepted(source: Expr, parts: seq<string>, n: Nodes)
    ensures var r := LowerPath(source, parts, n); var ty := PathType(source.ty, parts);
      (r.Ok? <==> ty.Some?) && (r.Ok? ==> r.value.0.ty == ty.value)
    decreases |parts|
  {
    if parts != [] && FieldResult(source.ty, parts[0]).Some? {
      var (ty, projected) := FieldResult(source.ty, parts[0]).value;
      var id := Next(n, ExprNode);
      PathIsAccepted(if projected then Projection(id, source, parts[0], ty) else Field(id, source, parts[0], ty), parts[1..], Taken(n, ExprNode));
    }
  }

  lemma {:induction false} CallIsAccepted(tools: Tools, t: Table, names: Names, e: AstExpr, n: Nodes)
    requires e.ACall? && Shows(t, names)
    ensures SameExpr(LowerExpr(tools, t, e, n), TagOf(tools, names, e))
    decreases e, 1
  {
    var l := LowerOperands(tools, t, e.operands, n);
    hide Shows;
    if |e.operands| == 1 {
      ExprIsAccepted(tools, t, names, e.operands[0], n);
      OneOperand(tools, t, e.operands, n);
      var first := LowerExpr(tools, t, e.operands[0], n);
      if first.Ok? {
        assert OperandTypes(l.value.operands) == [first.value.expr.ty];
      }
    } else if l.Ok? {
      assert |OperandTypes(l.value.operands)| == |e.operands|;
    }
    if l.Ok? {
      CallsGive(e.name, OperandTypes(l.value.operands));
    }
    hide CallType, BuiltinNamed, BuiltinResult, LowerOperands;
  }

  lemma CallsGive(name: string, types: seq<Type>)
    ensures BuiltinNamed(name).Some? <==> name in ["count", "sum", "min", "max"]
    ensures BuiltinNamed(name).Some? ==> BuiltinResult(BuiltinNamed(name).value, types) == if |types| != 1 then None else CallType(name, types[0])
  {
  }

  lemma OneOperand(tools: Tools, t: Table, es: seq<AstExpr>, n: Nodes)
    requires |es| == 1
    ensures var first := LowerExpr(tools, t, es[0], n); var l := LowerOperands(tools, t, es, n);
      (l.Ok? <==> first.Ok?) && (l.Ok? ==> l.value.operands == [first.value.expr] && l.value.classes == [first.value.cls])
  {
    hide LowerExpr;
    var rest := es[1..];
    assert rest == [];
    var first := LowerExpr(tools, t, es[0], n);
    if first.Ok? {
      assert LowerOperands(tools, t, rest, first.value.nodes) == Ok(LoweredOperands([], [], first.value.nodes));
    }
  }

  lemma {:induction false} ArgumentsAreAccepted(tools: Tools, t: Table, names: Names, contract: Contract, args: seq<AstArgument>, n: Nodes)
    requires Shows(t, names)
    ensures LowerArguments(tools, t, contract, args, n).Ok? <==> forall i | 0 <= i < |args| :: Fitting(tools, names, contract, args[i])
    decreases args, 0
  {
    hide LowerExpr, TagOf, Shows;
    if args != [] {
      ExprIsAccepted(tools, t, names, args[0].value, n);
      var first := LowerExpr(tools, t, args[0].value, n);
      if first.Ok? {
        ArgumentsAreAccepted(tools, t, names, contract, args[1..], first.value.nodes);
      }
      assert (forall i | 0 <= i < |args| :: Fitting(tools, names, contract, args[i]))
        <==> Fitting(tools, names, contract, args[0]) && forall i | 0 <= i < |args[1..]| :: Fitting(tools, names, contract, args[1..][i]) by {
        assert forall i | 1 <= i < |args| :: args[i] == args[1..][i - 1];
      }
    }
  }

  lemma {:induction false} FieldsAreAccepted(tools: Tools, t: Table, names: Names, outputs: seq<OutputField>, fields: seq<AstArgument>, n: Nodes)
    requires Shows(t, names) && forall i | 0 <= i < |fields| :: fields[i].name in OutputNames(outputs)
    ensures LowerFields(tools, t, outputs, fields, n).Ok? <==> forall i | 0 <= i < |fields| :: Emits(tools, outputs, names, fields[i])
    decreases |fields|
  {
    hide LowerExpr, TagOf, Shows, Allows, NoMoreThan;
    if fields != [] {
      ExprIsAccepted(tools, t, names, fields[0].value, n);
      var first := LowerExpr(tools, t, fields[0].value, n);
      if first.Ok? {
        AllowsIsTheOrder(first.value.cls, LookupOutput(outputs, fields[0].name).cls);
        FieldsAreAccepted(tools, t, names, outputs, fields[1..], first.value.nodes);
      }
      assert (forall i | 0 <= i < |fields| :: Emits(tools, outputs, names, fields[i]))
        <==> Emits(tools, outputs, names, fields[0]) && forall i | 0 <= i < |fields[1..]| :: Emits(tools, outputs, names, fields[1..][i]) by {
        assert forall i | 1 <= i < |fields| :: fields[i] == fields[1..][i - 1];
      }
    }
  }

  lemma {:induction false} DeclaringShows(t: Table, names: Names, name: string, namespace: Namespace, ty: Type, cls: Classification)
    requires t.frames != [] && Shows(t, names) && name !in names
    ensures Shows(Declared(t, name, namespace, ty, cls), names[name := Tag(ty, cls)]) && !Visible(t.frames, name)
  {
    var d := Declared(t, name, namespace, ty, cls);
    var n := |t.frames| - 1;
    var added := names[name := Tag(ty, cls)];
    assert Known(t, names, name);
    assert d.frames[..n] == t.frames[..n];
    forall other ensures Known(d, added, other) {
      assert Known(t, names, other);
      assert other != name ==> Find(d.frames, other) == Find(t.frames, other);
    }
  }

  lemma EnteringShows(t: Table, names: Names)
    requires Shows(t, names)
    ensures Shows(Enter(t), names)
  {
    forall name ensures Known(Enter(t), names, name) {
      assert Known(t, names, name);
      assert Enter(t).frames[..|t.frames|] == t.frames;
    }
  }

  lemma SameFramesShow(t: Table, u: Table, names: Names)
    requires t.frames == u.frames && Shows(t, names)
    ensures Shows(u, names)
  {
    forall name ensures Known(u, names, name) {
      assert Known(t, names, name);
    }
  }

  lemma VisibleNames(t: Table, names: Names, name: string)
    requires Shows(t, names)
    ensures Visible(t.frames, name) <==> name in names
  {
    assert Known(t, names, name);
  }

  lemma {:induction false} StmtIsAccepted(tools: Tools, outputs: seq<OutputField>, stmt: AstStmt, s: LState, names: Names)
    requires s.table.frames != [] && Shows(s.table, names)
    ensures var r := LowerStmt(tools, outputs, stmt, s); var next := After(tools, outputs, names, stmt);
      (r.Ok? <==> next.Some?) && (r.Ok? ==> r.value.state.table.frames != [] && Shows(r.value.state.table, next.value))
    decreases stmt, 1
  {
    hide LowerExpr, TagOf, LowerFields, LowerBlock, Declared, Find, Visible, Shows, NamesMatch;
    match stmt
    case ALet(name, value) =>
      ExprIsAccepted(tools, s.table, names, value, s.nodes);
      VisibleNames(s.table, names, name);
      if TagOf(tools, names, value).Some? && name !in names {
        var tag := TagOf(tools, names, value).value;
        DeclaringShows(s.table, names, name, VALUE, tag.ty, tag.cls);
      }
    case ACheck(checkId, condition, _, _, _) =>
      ExprIsAccepted(tools, s.table, names, condition, s.nodes);
      VisibleNames(s.table, names, checkId);
      if checkId !in names {
        DeclaringShows(s.table, names, checkId, CHECKS, CHECK_RESULT, INTERNAL);
      }
    case AEmit(fields) =>
      if NamesMatch(AstArgumentNames(fields), OutputNames(outputs)) {
        FieldNamesKnown(outputs, fields);
        FieldsAreAccepted(tools, s.table, names, outputs, fields, s.nodes);
      }
    case AApprove(_, _) =>
    case AForeach(_, _, _, _) => ForeachIsAccepted(tools, outputs, stmt, s, names);
  }

  lemma {:induction false} ForeachIsAccepted(tools: Tools, outputs: seq<OutputField>, stmt: AstStmt, s: LState, names: Names)
    requires stmt.AForeach? && s.table.frames != [] && Shows(s.table, names)
    ensures var r := LowerStmt(tools, outputs, stmt, s); var next := After(tools, outputs, names, stmt);
      (r.Ok? <==> next.Some?) && (r.Ok? ==> r.value.state.table.frames != [] && Shows(r.value.state.table, next.value))
    decreases stmt, 0
  {
    ExprIsAccepted(tools, s.table, names, stmt.collection, s.nodes);
    var c := LowerExpr(tools, s.table, stmt.collection, s.nodes);
    if c.Ok? && c.value.expr.ty.TList? {
      var entered := Enter(s.table);
      EnteringShows(s.table, names);
      VisibleNames(entered, names, stmt.loopName);
      if stmt.loopName !in names {
        var tag := Tag(c.value.expr.ty.item, c.value.cls);
        DeclaringShows(entered, names, stmt.loopName, VALUE, tag.ty, tag.cls);
        var inner := DeclareIn(LState(entered, c.value.nodes), stmt.loopName, VALUE, tag.ty, tag.cls).value;
        BlockIsAccepted(tools, outputs, stmt.body, inner, names[stmt.loopName := tag]);
      }
    }
    var r := LowerStmt(tools, outputs, stmt, s);
    if r.Ok? {
      ForeachGrows(tools, outputs, stmt, s);
      SameFramesShow(s.table, r.value.state.table, names);
    }
    hide LowerExpr, TagOf, LowerBlock, Declared, Find, Visible, Shows;
  }

  lemma {:induction false} BlockIsAccepted(tools: Tools, outputs: seq<OutputField>, stmts: seq<AstStmt>, s: LState, names: Names)
    requires s.table.frames != [] && Shows(s.table, names)
    ensures var r := LowerBlock(tools, outputs, stmts, s); var next := AfterAll(tools, outputs, names, stmts);
      (r.Ok? <==> next.Some?) && (r.Ok? ==> r.value.state.table.frames != [] && Shows(r.value.state.table, next.value))
    decreases stmts, 2
  {
    hide LowerStmt, After, Shows;
    if stmts != [] {
      StmtIsAccepted(tools, outputs, stmts[0], s, names);
      var first := LowerStmt(tools, outputs, stmts[0], s);
      if first.Ok? {
        BlockIsAccepted(tools, outputs, stmts[1..], first.value.state, After(tools, outputs, names, stmts[0]).value);
      }
    }
  }

  // ---------- whole skills ----------

  function DeclaredNames(fields: seq<AstField>, names: Names): Option<Names> {
    if fields == [] then Some(names)
    else if fields[0].name in names then None
    else DeclaredNames(fields[1..], names[fields[0].name := Tag(fields[0].ty, fields[0].cls)])
  }

  lemma {:induction false} SpecsAreAccepted(fields: seq<AstField>, t: Table, names: Names)
    requires t.frames != [] && Shows(t, names)
    ensures var r := DeclareSpecs(fields, t); var next := DeclaredNames(fields, names);
      (r.Ok? <==> next.Some?) && (r.Ok? ==> r.value.table.frames != [] && Shows(r.value.table, next.value))
    decreases |fields|
  {
    hide Find, Visible, Shows;
    if fields != [] {
      var f := fields[0];
      VisibleNames(t, names, f.name);
      if f.name !in names {
        DeclaringShows(t, names, f.name, VALUE, f.ty, f.cls);
        SpecsAreAccepted(fields[1..], Declared(t, f.name, VALUE, f.ty, f.cls), names[f.name := Tag(f.ty, f.cls)]);
      }
    }
  }

  // Every required tool is in the catalogue, and none is required twice.
  ghost predicate ToolsGiven(catalog: Catalog, wanted: seq<AstRequire>) {
    && (forall i | 0 <= i < |wanted| :: (wanted[i].toolId, wanted[i].version) in catalog)
    && Distinct(Ids(wanted))
  }

  function Ids(wanted: seq<AstRequire>): (ids: seq<string>)
    ensures |ids| == |wanted|
  {
    seq(|wanted|, i requires 0 <= i < |wanted| => wanted[i].toolId)
  }

  // The tools are the catalogue's, numbered in the order they are required.
  ghost predicate Numbers(catalog: Catalog, wanted: seq<AstRequire>, tools: Tools) {
    && tools.Keys == (set id | id in Ids(wanted))
    && forall i | 0 <= i < |wanted| :: Entry(catalog, wanted[i], i + 1, tools)
  }

  predicate Entry(catalog: Catalog, r: AstRequire, number: nat, tools: Tools) {
    r.toolId in tools && (r.toolId, r.version) in catalog && tools[r.toolId] == catalog[(r.toolId, r.version)].(ref := number)
  }

  lemma {:induction false} ToolsAreResolved(catalog: Catalog, wanted: seq<AstRequire>)
    ensures ResolveTools(catalog, wanted).Ok? <==> ToolsGiven(catalog, wanted)
    ensures ResolveTools(catalog, wanted).Ok? ==> Numbers(catalog, wanted, ResolveTools(catalog, wanted).value)
    decreases |wanted|
  {
    if wanted != [] {
      var n := |wanted| - 1;
      var front := wanted[..n];
      ToolsAreResolved(catalog, front);
      LastIsGiven(catalog, wanted);
      if ResolveTools(catalog, front).Ok? && ToolsGiven(catalog, wanted) {
        LastIsNumbered(catalog, wanted, ResolveTools(catalog, front).value);
      }
    }
    hide ToolsGiven, Ids, Entry;
  }

  lemma LastIsGiven(catalog: Catalog, wanted: seq<AstRequire>)
    requires wanted != []
    ensures var n := |wanted| - 1;
      ToolsGiven(catalog, wanted) <==>
        ToolsGiven(catalog, wanted[..n]) && wanted[n].toolId !in Ids(wanted[..n]) && (wanted[n].toolId, wanted[n].version) in catalog
  {
    var n := |wanted| - 1;
    var front := wanted[..n];
    assert Ids(wanted) == Ids(front) + [wanted[n].toolId];
    assert (forall i | 0 <= i < |wanted| :: (wanted[i].toolId, wanted[i].version) in catalog)
      <==> (forall i | 0 <= i < n :: (front[i].toolId, front[i].version) in catalog) && (wanted[n].toolId, wanted[n].version) in catalog by {
      assert forall i | 0 <= i < n :: front[i] == wanted[i];
    }
    DistinctLast(Ids(front), wanted[n].toolId);
    hide Ids, Distinct;
  }

  lemma DistinctLast(front: seq<string>, last: string)
    ensures Distinct(front + [last]) <==> Distinct(front) && last !in front
  {
    var all := front + [last];
    assert forall i | 0 <= i < |front| :: front[i] == all[i];
    assert Distinct(all) ==> forall i | 0 <= i < |front| :: all[i] != all[|front|];
    assert Distinct(all) ==> Distinct(front);
  }

  lemma LastIsNumbered(catalog: Catalog, wanted: seq<AstRequire>, tools: Tools)
    requires wanted != [] && ToolsGiven(catalog, wanted) && Numbers(catalog, wanted[..|wanted| - 1], tools)
    ensures var last := wanted[|wanted| - 1];
      Numbers(catalog, wanted, tools[last.toolId := catalog[(last.toolId, last.version)].(ref := |wanted|)])
  {
    var n := |wanted| - 1;
    var front := wanted[..n];
    var last := wanted[n];
    var all := tools[last.toolId := catalog[(last.toolId, last.version)].(ref := |wanted|)];
    assert Ids(wanted) == Ids(front) + [last.toolId];
    forall i | 0 <= i < n ensures Entry(catalog, wanted[i], i + 1, all) {
      assert front[i] == wanted[i] && Entry(catalog, front[i], i + 1, tools);
      assert Ids(wanted)[i] != Ids(wanted)[n];
    }
  }

  // What the names of a body are.
  function BodyNames(ast: AstSkill): Option<Names> {
    match DeclaredNames(ast.inputs, map[])
    case Some(names) => DeclaredNames(ast.contexts, names)
    case None => None
  }

  // Worst case within the declared limits, every loop with a positive maximum.
  predicate Affordable(body: seq<Stmt>, limits: Limits) {
    && Bounded(body)
    && BlockBound(body).toolCalls <= limits.toolCalls && BlockBound(body).loopIterations <= limits.loopIterations
    && BlockBound(body).emitRecords <= limits.emittedRows
  }

  // Well typed by name: the tools are given, names and outputs are distinct, and so on through the body.
  ghost predicate WellTypedByName(catalog: Catalog, ast: AstSkill) {
    && ToolsGiven(catalog, ast.requires_) && Distinct(OutputNameSeq(ast.outputs))
    && BodyNames(ast).Some?
    && exists tools :: Numbers(catalog, ast.requires_, tools) && AfterAll(tools, ast.outputs, BodyNames(ast).value, ast.body).Some?
  }

  // The body that lowering comes to, if it comes to one.
  function LoweredBody(catalog: Catalog, ast: AstSkill): Option<seq<Stmt>> {
    match ResolveTools(catalog, ast.requires_)
    case Err(_) => None
    case Ok(tools) =>
      match DeclareSpecs(ast.inputs, ROOT_TABLE)
      case Err(_) => None
      case Ok(inputs) =>
        match DeclareSpecs(ast.contexts, inputs.table)
        case Err(_) => None
        case Ok(contexts) =>
          match LowerBlock(tools, ast.outputs, ast.body, LState(contexts.table, map[]))
          case Err(_) => None
          case Ok(b) => Some(b.stmts)
  }

  lemma NumbersDetermine(catalog: Catalog, wanted: seq<AstRequire>, a: Tools, b: Tools)
    requires Numbers(catalog, wanted, a) && Numbers(catalog, wanted, b)
    ensures a == b
  {
    assert a.Keys == b.Keys;
    forall id | id in a ensures a[id] == b[id] {
      var i :| 0 <= i < |wanted| && Ids(wanted)[i] == id;
      assert Entry(catalog, wanted[i], i + 1, a) && Entry(catalog, wanted[i], i + 1, b);
    }
  }

  lemma {:induction false} NamesAreDeclared(ast: AstSkill)
    ensures BodyNames(ast).Some? <==> DeclareSpecs(ast.inputs, ROOT_TABLE).Ok? && DeclareSpecs(ast.contexts, DeclareSpecs(ast.inputs, ROOT_TABLE).value.table).Ok?
    ensures BodyNames(ast).Some? ==> Shows(DeclareSpecs(ast.contexts, DeclareSpecs(ast.inputs, ROOT_TABLE).value.table).value.table, BodyNames(ast).value)
  {
    forall name ensures Known(ROOT_TABLE, map[], name) {
      assert ROOT_TABLE.frames[..0] == [];
    }
    assert Shows(ROOT_TABLE, map[]);
    SpecsAreAccepted(ast.inputs, ROOT_TABLE, map[]);
    hide Shows, Known;
    if DeclaredNames(ast.inputs, map[]).Some? {
      SpecsAreAccepted(ast.contexts, DeclareSpecs(ast.inputs, ROOT_TABLE).value.table, DeclaredNames(ast.inputs, map[]).value);
    }
    hide DeclareSpecs, DeclaredNames;
  }

  lemma {:induction false} BodiesAreLowered(catalog: Catalog, ast: AstSkill)
    ensures WellTypedByName(catalog, ast) <==> LoweredBody(catalog, ast).Some? && Distinct(OutputNameSeq(ast.outputs))
  {
    ToolsAreResolved(catalog, ast.requires_);
    NamesAreDeclared(ast);
    if ResolveTools(catalog, ast.requires_).Ok? && BodyNames(ast).Some? {
      var tools := ResolveTools(catalog, ast.requires_).value;
      var contexts := DeclareSpecs(ast.contexts, DeclareSpecs(ast.inputs, ROOT_TABLE).value.table).value;
      BlockIsAccepted(tools, ast.outputs, ast.body, LState(contexts.table, map[]), BodyNames(ast).value);
      forall other | Numbers(catalog, ast.requires_, other) ensures other == tools {
        NumbersDetermine(catalog, ast.requires_, other, tools);
      }
    }
    hide ResolveTools, DeclareSpecs, LowerBlock, AfterAll, BodyNames, ToolsGiven, Numbers, Shows, Distinct;
  }

  // The compiler accepts exactly the skills that are well typed by name and whose body, at worst, stays
  // within the declared limits.
  lemma {:induction false} CompilerAcceptsTheWellTyped(catalog: Catalog, ast: AstSkill)
    ensures WellTypedByName(catalog, ast) ==> LoweredBody(catalog, ast).Some?
    ensures Compile(catalog, ast).Ok? <==> WellTypedByName(catalog, ast) && Affordable(LoweredBody(catalog, ast).value, ast.limits)
    ensures Compile(catalog, ast).Ok? ==> Compile(catalog, ast).value.body == LoweredBody(catalog, ast).value
  {
    BodiesAreLowered(catalog, ast);
    hide ResolveTools, DeclareSpecs, LowerBlock, WellTypedByName, Bounded, BlockBound, Distinct, ContractsByRef;
  }
}
