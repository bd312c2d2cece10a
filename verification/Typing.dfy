// Well-typed intermediate code, and what its typing guarantees about every run of it:
// type and classification tags are exact, names always resolve, bindings are never repeated,
// values conform to their static types, and only the failures the language admits remain.

module Typing {
  import opened Wrappers
  import opened Core
  import opened Failures
  import opened Operators
  import opened Ir
  import opened Semantics
  import opened Effects

  // ---------- static judgements ----------

  datatype Tag = Tag(ty: Type, cls: Classification)

  type Scope = map<SymbolId, Tag>

  datatype Signature = Signature(tools: map<ToolRef, Contract>, outputs: seq<OutputField>)

  function SignatureOf(env: Env): Signature {
    Signature(env.tools, env.outputs)
  }

  // The classification the compiler computes for an expression.
  function ClassOf(sig: Signature, g: Scope, e: Expr): Classification {
    match e
    case Literal(_, _, _) => PUBLIC
    case SymbolRef(_, symbol, _) => if symbol in g then g[symbol].cls else PUBLIC
    case Field(_, source, _, _) => ClassOf(sig, g, source)
    case Projection(_, source, _, _) => ClassOf(sig, g, source)
    case Call(_, _, operands, _) => if operands == [] then PUBLIC else ClassOf(sig, g, operands[0])
    case Binary(_, _, left, right, _) => Highest(ClassOf(sig, g, left), ClassOf(sig, g, right))
    case Read(_, tool, _, _, _) => if tool in sig.tools then sig.tools[tool].outputClass else PUBLIC
    case Write(_, tool, _, _, _) => if tool in sig.tools then sig.tools[tool].outputClass else PUBLIC
  }

  function TypesOf(es: seq<Expr>): seq<Type> {
    seq(|es|, i requires 0 <= i < |es| => es[i].ty)
  }

  predicate WellTyped(sig: Signature, g: Scope, e: Expr)
    decreases e
  {
    match e
    case Literal(_, v, ty) => Conforms(v, ty)
    case SymbolRef(_, symbol, ty) => symbol in g && g[symbol].ty == ty
    case Field(_, source, field, ty) => WellTyped(sig, g, source) && FieldResult(source.ty, field) == Some((ty, false))
    case Projection(_, source, field, ty) => WellTyped(sig, g, source) && FieldResult(source.ty, field) == Some((ty, true))
    case Call(_, f, operands, ty) =>
      && (forall i | 0 <= i < |operands| :: WellTyped(sig, g, operands[i]))
      && BuiltinResult(f, TypesOf(operands)) == Some(ty)
    case Binary(_, op, left, right, ty) =>
      WellTyped(sig, g, left) && WellTyped(sig, g, right) && BinaryResult(op, left.ty, right.ty) == Some(ty)
    case Read(_, tool, arguments, ty, policy) =>
      && tool in sig.tools
      && NamesMatch(ArgumentNames(arguments), FieldNames(sig.tools[tool].inputs))
      && (forall i | 0 <= i < |arguments| :: WellTyped(sig, g, arguments[i].value))
      && (forall i | 0 <= i < |arguments| :: LookupField(sig.tools[tool].inputs, arguments[i].name) == Some(arguments[i].value.ty))
      && ty == sig.tools[tool].output
    case Write(_, _, _, _, _) => false
  }

  // The scope after a statement.
  function ScopeAfter(sig: Signature, g: Scope, stmt: Stmt): Scope {
    match stmt
    case Let(_, target, value) => g[target := Tag(value.ty, ClassOf(sig, g, value))]
    case Check(_, _, _, _, _, _, result) => g[result := Tag(CHECK_RESULT, INTERNAL)]
    case _ => g
  }

  function ScopeAfterBlock(sig: Signature, g: Scope, stmts: seq<Stmt>): Scope
    decreases |stmts|
  {
    if stmts == [] then g else ScopeAfterBlock(sig, ScopeAfter(sig, g, stmts[0]), stmts[1..])
  }

  function LoopScope(sig: Signature, g: Scope, stmt: Stmt): Scope
    requires stmt.Foreach? && stmt.collection.ty.TList?
  {
    g[stmt.loopVariable := Tag(stmt.collection.ty.item, ClassOf(sig, g, stmt.collection))]
  }

  predicate WellTypedBlock(sig: Signature, g: Scope, stmts: seq<Stmt>)
    decreases stmts, 1
  {
    stmts == [] || (WellTypedStmt(sig, g, stmts[0]) && WellTypedBlock(sig, ScopeAfter(sig, g, stmts[0]), stmts[1..]))
  }

  predicate WellTypedStmt(sig: Signature, g: Scope, stmt: Stmt)
    decreases stmt, 0
  {
    match stmt
    case Let(_, target, value) => WellTyped(sig, g, value) && target !in g
    case Check(_, _, condition, _, _, _, result) => WellTyped(sig, g, condition) && condition.ty.TBool? && result !in g
    case Emit(_, fields) => EmitSchemaOk(sig.outputs, fields) && WellTypedFields(sig, g, fields)
    case Foreach(_, loopVariable, collection, _, body) =>
      && WellTyped(sig, g, collection)
      && collection.ty.TList?
      && loopVariable !in g
      && WellTypedBlock(sig, LoopScope(sig, g, stmt), body)
    case Approval(_, _, _, _) => false
  }

  predicate WellTypedFields(sig: Signature, g: Scope, fields: seq<Argument>) {
    forall i | 0 <= i < |fields| ::
      && WellTyped(sig, g, fields[i].value)
      && fields[i].name in OutputNames(sig.outputs)
      && fields[i].value.ty == LookupOutput(sig.outputs, fields[i].name).ty
      && Allows(ClassOf(sig, g, fields[i].value), LookupOutput(sig.outputs, fields[i].name).cls)
  }

  // Which failures evaluating an expression can still meet.
  function HasDivision(e: Expr): bool
    decreases e
  {
    match e
    case Field(_, source, _, _) => HasDivision(source)
    case Projection(_, source, _, _) => HasDivision(source)
    case Call(_, _, operands, _) => exists i :: 0 <= i < |operands| && HasDivision(operands[i])
    case Binary(_, op, left, right, _) => op.DIV? || HasDivision(left) || HasDivision(right)
    case Read(_, _, arguments, _, _) => exists i :: 0 <= i < |arguments| && HasDivision(arguments[i].value)
    case _ => false
  }

  function HasExtremum(e: Expr): bool
    decreases e
  {
    match e
    case Field(_, source, _, _) => HasExtremum(source)
    case Projection(_, source, _, _) => HasExtremum(source)
    case Call(_, f, operands, _) => f.Min? || f.Max? || exists i :: 0 <= i < |operands| && HasExtremum(operands[i])
    case Binary(_, _, left, right, _) => HasExtremum(left) || HasExtremum(right)
    case Read(_, _, arguments, _, _) => exists i :: 0 <= i < |arguments| && HasExtremum(arguments[i].value)
    case _ => false
  }

  function HasRead(e: Expr): bool
    decreases e
  {
    match e
    case Field(_, source, _, _) => HasRead(source)
    case Projection(_, source, _, _) => HasRead(source)
    case Call(_, _, operands, _) => exists i :: 0 <= i < |operands| && HasRead(operands[i])
    case Binary(_, _, left, right, _) => HasRead(left) || HasRead(right)
    case Read(_, _, _, _, _) => true
    case _ => false
  }

  // ---------- run-time counterparts ----------

  // `deep` adds that the value itself conforms to the tag.
  predicate Typed(x: Envelope, tag: Tag, deep: bool) {
    x.ty == tag.ty && x.cls == tag.cls && (deep ==> Conforms(x.value, tag.ty))
  }

  // The bound symbols are exactly those of the static scope, with their tags.
  ghost predicate ScopeHolds(g: Scope, b: Bindings, deep: bool) {
    && (forall id :: IsBound(b, id) <==> id in g)
    && (forall id | id in g :: Typed(Resolve(b, id).value, g[id], deep))
  }

  // Failures that typing rules out: always the first group; with conforming values the second too.
  predicate RuledOut(f: Failure, deep: bool) {
    || f.TypeMismatch? || f.UnknownSymbol? || f.ImmutableBinding? || f.UnregisteredTool? || f == Tool(ArgumentMismatch)
    || f.EmitSchema? || f.EmitType? || f.EmitClassification?
    || (deep && (f.MoneyFailure? || f == Tool(ArgumentTypeMismatch) || f.EmitValue? || f.CheckNotBool?))
  }

  predicate Explained(f: Failure, division: bool, extremum: bool, calls: bool, deep: bool) {
    && !RuledOut(f, deep)
    && (f.Tool? || f.Unauthorized? || f.PortCrashed? || f == LimitExceeded(ToolCalls) ==> calls)
    && (deep ==>
      && (f.EvaluationError? ==> division || calls)
      && (f.BuiltinFailure? ==> extremum)
      && (f.RawError? ==> calls))
  }

  ghost predicate SafeEval(e: Expr, cls: Classification, r: Eval<Envelope>, deep: bool) {
    match r.res
    case Ok(x) => Typed(x, Tag(e.ty, cls), deep)
    case Err(f) => Explained(f, HasDivision(e), HasExtremum(e), HasRead(e), deep)
  }

  // As SafeEval, before an unreported arithmetic error is turned into the expression's own.
  ghost predicate SafeNode(e: Expr, cls: Classification, r: Eval<Envelope>, deep: bool) {
    match r.res
    case Ok(x) => Typed(x, Tag(e.ty, cls), deep)
    case Err(f) =>
      if f.RawError? then deep ==> HasDivision(e) || HasRead(e)
      else Explained(f, HasDivision(e), HasExtremum(e), HasRead(e), deep)
  }

  // ---------- expressions ----------

  lemma {:induction false} ExprIsSafe(env: Env, g: Scope, b: Bindings, e: Expr, w: Ledger, deep: bool)
    requires WellTyped(SignatureOf(env), g, e) && ScopeHolds(g, b, deep)
    ensures SafeEval(e, ClassOf(SignatureOf(env), g, e), EvalExpr(env, b, e, w), deep)
    decreases e, 2
  {
    assert !e.Write?;
    hide EvalNode, WellTyped, ClassOf, HasDivision, HasExtremum, HasRead, ScopeHolds, Conforms;
    NodeIsSafe(env, g, b, e, w, deep);
  }

  lemma {:induction false} NodeIsSafe(env: Env, g: Scope, b: Bindings, e: Expr, w: Ledger, deep: bool)
    requires WellTyped(SignatureOf(env), g, e) && ScopeHolds(g, b, deep)
    ensures SafeNode(e, ClassOf(SignatureOf(env), g, e), EvalNode(env, b, e, w), deep)
    decreases e, 1
  {
    match e
    case Literal(_, _, _) =>
    case SymbolRef(_, _, _) =>
    case Field(_, source, _, _) =>
      ExprIsSafe(env, g, b, source, w, deep);
      FieldIsSafe(env, g, b, e, w, deep);
    case Projection(_, source, _, _) =>
      ExprIsSafe(env, g, b, source, w, deep);
      ProjectionIsSafe(env, g, b, e, w, deep);
    case Call(_, _, _, _) => CallIsSafe(env, g, b, e, w, deep);
    case Binary(_, _, left, right, _) =>
      ExprIsSafe(env, g, b, left, w, deep);
      ExprIsSafe(env, g, b, right, EvalExpr(env, b, left, w).w, deep);
      BinaryNodeIsSafe(env, g, b, e, w, deep);
    case Read(_, _, _, _, _) => ReadIsSafe(env, g, b, e, w, deep);
  }

  lemma {:induction false} FieldIsSafe(env: Env, g: Scope, b: Bindings, e: Expr, w: Ledger, deep: bool)
    requires e.Field? && WellTyped(SignatureOf(env), g, e)
    requires SafeEval(e.source, ClassOf(SignatureOf(env), g, e.source), EvalExpr(env, b, e.source, w), deep)
    ensures SafeNode(e, ClassOf(SignatureOf(env), g, e), EvalNode(env, b, e, w), deep)
  {
    hide EvalExpr;
  }

  lemma {:induction false} ProjectionIsSafe(env: Env, g: Scope, b: Bindings, e: Expr, w: Ledger, deep: bool)
    requires e.Projection? && WellTyped(SignatureOf(env), g, e)
    requires SafeEval(e.source, ClassOf(SignatureOf(env), g, e.source), EvalExpr(env, b, e.source, w), deep)
    ensures SafeNode(e, ClassOf(SignatureOf(env), g, e), EvalNode(env, b, e, w), deep)
  {
    hide EvalExpr;
    var r := EvalExpr(env, b, e.source, w);
    if r.res.Ok? && deep {
      var items := r.res.value.value.items;
      forall i | 0 <= i < |items|
        ensures items[i].VRecord? && e.field in items[i].fields && Conforms(items[i].fields[e.field], e.ty.item)
      {
        FieldLookupConforms(e.source.ty.item.fields, e.field, items[i], e.source.ty.item.name);
      }
    }
  }

  lemma {:induction false} CallIsSafe(env: Env, g: Scope, b: Bindings, e: Expr, w: Ledger, deep: bool)
    requires e.Call? && WellTyped(SignatureOf(env), g, e) && ScopeHolds(g, b, deep)
    ensures SafeNode(e, ClassOf(SignatureOf(env), g, e), EvalNode(env, b, e, w), deep)
    decreases e, 0
  {
    hide EvalExpr;
    var operand := e.operands[0];
    assert TypesOf(e.operands)[0] == operand.ty;
    assert e.operands == [operand] && e.operands[1..] == [];
    ExprIsSafe(env, g, b, operand, w, deep);
    var r := EvalExpr(env, b, operand, w);
    if r.res.Ok? {
      assert EvalOperands(env, b, e.operands, w) == Eval(Ok([r.res.value] + []), r.w);
      var x := r.res.value;
      assert EvalOperands(env, b, e.operands, w).res.value == [x];
      assert TypesOf(e.operands) == [operand.ty];
      assert seq(|[x]|, i requires 0 <= i < |[x]| => [x][i].value) == [x.value];
      assert seq(|[x]|, i requires 0 <= i < |[x]| => [x][i].ty) == [operand.ty];
      if deep {
        BuiltinIsSafe(e.function_, x.value, operand.ty);
      }
    }
  }

  lemma {:induction false} BinaryNodeIsSafe(env: Env, g: Scope, b: Bindings, e: Expr, w: Ledger, deep: bool)
    requires e.Binary? && WellTyped(SignatureOf(env), g, e)
    requires var l := EvalExpr(env, b, e.left, w);
      && SafeEval(e.left, ClassOf(SignatureOf(env), g, e.left), l, deep)
      && SafeEval(e.right, ClassOf(SignatureOf(env), g, e.right), EvalExpr(env, b, e.right, l.w), deep)
    ensures SafeNode(e, ClassOf(SignatureOf(env), g, e), EvalNode(env, b, e, w), deep)
  {
    hide EvalExpr;
    var l := EvalExpr(env, b, e.left, w);
    var r := EvalExpr(env, b, e.right, l.w);
    if l.res.Ok? && r.res.Ok? && deep {
      BinaryIsSafe(e.op, l.res.value.value, r.res.value.value, e.left.ty);
    }
  }

  lemma {:induction false} ReadIsSafe(env: Env, g: Scope, b: Bindings, e: Expr, w: Ledger, deep: bool)
    requires e.Read? && WellTyped(SignatureOf(env), g, e) && ScopeHolds(g, b, deep)
    ensures SafeNode(e, ClassOf(SignatureOf(env), g, e), EvalNode(env, b, e, w), deep)
    decreases e, 0
  {
    hide EvalExpr, CallTool, EvalArguments, ScopeHolds, Conforms, HasDivision, HasExtremum;
    ArgumentsAreSafe(env, g, b, e.arguments, w, deep);
    var r := EvalArguments(env, b, e.arguments, w);
    var contract := env.tools[e.tool];
    if r.res.Ok? {
      ArgumentsFit(contract, e.arguments, r.res.value, deep);
      ToolCallIsSafe(env, contract, r.res.value, e.policy, r.w, deep);
    } else {
      ArgumentFailureIsExplained(e, r.res.error, deep);
    }
    hide SafeArguments, ArgumentsConform, NamesMatch, WellTyped;
  }

  lemma ArgumentsFit(contract: Contract, args: seq<Argument>, xs: seq<NamedEnvelope>, deep: bool)
    requires |xs| == |args| && forall i | 0 <= i < |args| ::
      xs[i].name == args[i].name && xs[i].value.ty == args[i].value.ty && (deep ==> Conforms(xs[i].value.value, args[i].value.ty))
    requires forall i | 0 <= i < |args| :: LookupField(contract.inputs, args[i].name) == Some(args[i].value.ty)
    ensures deep ==> ArgumentsConform(contract, xs)
  {
    hide Conforms, LookupField;
  }

  // A failure of an argument is explained by what its read contains.
  lemma ArgumentFailureIsExplained(e: Expr, f: Failure, deep: bool)
    requires e.Read? && exists i :: 0 <= i < |e.arguments| && ArgumentExplains(e.arguments[i], f, deep)
    ensures Explained(f, HasDivision(e), HasExtremum(e), HasRead(e), deep)
  {
    var i :| 0 <= i < |e.arguments| && ArgumentExplains(e.arguments[i], f, deep);
  }

  lemma ToolCallIsSafe(env: Env, contract: Contract, args: seq<NamedEnvelope>, policy: ResultPolicy, w: Ledger, deep: bool)
    requires deep ==> ArgumentsConform(contract, args)
    ensures match CallTool(env, contract, args, policy, w).res
      case Ok(x) => Typed(x, Tag(contract.output, contract.outputClass), true)
      case Err(f) => Explained(f, false, false, true, deep)
  {
  }

  predicate ArgumentExplains(arg: Argument, f: Failure, deep: bool) {
    Explained(f, HasDivision(arg.value), HasExtremum(arg.value), HasRead(arg.value), deep)
  }

  ghost predicate SafeArguments(args: seq<Argument>, r: Eval<seq<NamedEnvelope>>, deep: bool) {
    match r.res
    case Ok(xs) => |xs| == |args| && forall i | 0 <= i < |args| ::
      xs[i].name == args[i].name && xs[i].value.ty == args[i].value.ty && (deep ==> Conforms(xs[i].value.value, args[i].value.ty))
    case Err(f) => exists i :: 0 <= i < |args| && ArgumentExplains(args[i], f, deep)
  }

  lemma {:induction false} ArgumentsAreSafe(env: Env, g: Scope, b: Bindings, args: seq<Argument>, w: Ledger, deep: bool)
    requires ScopeHolds(g, b, deep) && forall i | 0 <= i < |args| :: WellTyped(SignatureOf(env), g, args[i].value)
    ensures SafeArguments(args, EvalArguments(env, b, args, w), deep)
    decreases args, 0
  {
    hide EvalExpr, WellTyped;
    if args != [] {
      ExprIsSafe(env, g, b, args[0].value, w, deep);
      var first := EvalExpr(env, b, args[0].value, w);
      ArgumentsAreSafe(env, g, b, args[1..], first.w, deep);
      var rest := EvalArguments(env, b, args[1..], first.w);
      if first.res.Ok? && rest.res.Err? {
        var i :| 0 <= i < |args[1..]| && ArgumentExplains(args[1..][i], rest.res.error, deep);
        assert args[i + 1] == args[1..][i];
      }
    }
  }

  // ---------- scopes ----------

  lemma {:induction false} BindKeepsScope(g: Scope, b: Bindings, id: SymbolId, tag: Tag, x: Envelope, deep: bool)
    requires Framed(b) && ScopeHolds(g, b, deep) && id !in g && Typed(x, tag, deep)
    ensures ScopeHolds(g[id := tag], Bind(b, id, x), deep)
    ensures ScopeHolds(g[id := tag], BindCheck(b, id, x), deep)
  {
    forall other
      ensures Resolve(Bind(b, id, x), other) == if other == id then Some(x) else Resolve(b, other)
      ensures Resolve(BindCheck(b, id, x), other) == if other == id then Some(x) else Resolve(b, other)
      ensures IsBound(Bind(b, id, x), other) <==> other == id || IsBound(b, other)
      ensures IsBound(BindCheck(b, id, x), other) <==> other == id || IsBound(b, other)
    {
      BindResolves(b, id, x, other);
    }
  }

  lemma {:induction false} PushKeepsScope(g: Scope, b: Bindings, deep: bool)
    requires ScopeHolds(g, b, deep)
    ensures ScopeHolds(g, Push(b), deep)
  {
    forall id ensures Resolve(Push(b), id) == Resolve(b, id) {
      PushResolves(b, id);
    }
  }

  // ---------- emitted rows ----------

  // The row has exactly the schema's fields, within their types and classifications.
  ghost predicate RowFits(outputs: seq<OutputField>, row: Row, deep: bool) {
    && row.Keys == OutputNames(outputs)
    && forall i | 0 <= i < |outputs| ::
      var x := row[outputs[i].name];
      x.ty == outputs[i].ty && Allows(x.cls, outputs[i].cls) && (deep ==> Conforms(x.value, outputs[i].ty))
  }

  ghost predicate RowsFit(outputs: seq<OutputField>, rows: seq<Row>, deep: bool) {
    forall i | 0 <= i < |rows| :: RowFits(outputs, rows[i], deep)
  }

  ghost predicate FieldFits(outputs: seq<OutputField>, x: NamedEnvelope, deep: bool) {
    && x.name in OutputNames(outputs)
    && x.value.ty == LookupOutput(outputs, x.name).ty
    && Allows(x.value.cls, LookupOutput(outputs, x.name).cls)
    && (deep ==> Conforms(x.value.value, x.value.ty))
  }

  lemma ConformingIsRuntimeOk(v: Value, t: Type)
    requires Conforms(v, t)
    ensures RuntimeTypeOk(v, t)
  {
  }

  ghost predicate SafeFields(outputs: seq<OutputField>, fields: seq<Argument>, r: Eval<seq<NamedEnvelope>>, deep: bool) {
    match r.res
    case Ok(xs) => forall i | 0 <= i < |xs| :: FieldFits(outputs, xs[i], deep)
    case Err(f) => exists i :: 0 <= i < |fields| && ArgumentExplains(fields[i], f, deep)
  }

  lemma {:induction false} FieldsAreSafe(env: Env, g: Scope, b: Bindings, fields: seq<Argument>, w: Ledger, deep: bool)
    requires ScopeHolds(g, b, deep) && WellTypedFields(SignatureOf(env), g, fields)
    ensures SafeFields(env.outputs, fields, EmitFields(env, b, fields, w), deep)
    decreases |fields|
  {
    hide EvalExpr, WellTyped, ClassOf, HasDivision, HasExtremum, HasRead, Conforms, RuntimeTypeOk;
    if fields != [] {
      ExprIsSafe(env, g, b, fields[0].value, w, deep);
      var first := EvalExpr(env, b, fields[0].value, w);
      FieldsAreSafe(env, g, b, fields[1..], first.w, deep);
      var rest := EmitFields(env, b, fields[1..], first.w);
      if first.res.Ok? && deep {
        ConformingIsRuntimeOk(first.res.value.value, fields[0].value.ty);
      }
      if first.res.Ok? && rest.res.Ok? {
        var head := NamedEnvelope(fields[0].name, first.res.value);
        assert FieldFits(env.outputs, head, deep);
        var all := EmitFields(env, b, fields, w);
        assert all.res.Ok? ==> all.res.value == [head] + rest.res.value;
      }
      if rest.res.Err? {
        var i :| 0 <= i < |fields[1..]| && ArgumentExplains(fields[1..][i], rest.res.error, deep);
        assert fields[i + 1] == fields[1..][i];
      }
    }
  }

  lemma {:induction false} LookupOutputAt(outputs: seq<OutputField>, i: nat)
    requires i < |outputs| && Distinct(OutputNameSeq(outputs))
    ensures outputs[i].name in OutputNames(outputs) && LookupOutput(outputs, outputs[i].name) == outputs[i]
  {
    var o := LookupOutput(outputs, outputs[i].name);
    var j :| 0 <= j < |outputs| && outputs[j] == o;
    assert OutputNameSeq(outputs)[i] == outputs[i].name && OutputNameSeq(outputs)[j] == outputs[j].name;
  }

  lemma {:induction false} RowFromFields(outputs: seq<OutputField>, fields: seq<Argument>, xs: seq<NamedEnvelope>, deep: bool)
    requires EmitSchemaOk(outputs, fields)
    requires |xs| == |fields| && forall i | 0 <= i < |xs| :: xs[i].name == fields[i].name && FieldFits(outputs, xs[i], deep)
    ensures RowFits(outputs, RowOf(xs), deep)
  {
    var row := RowOf(xs);
    forall i | 0 <= i < |outputs|
      ensures outputs[i].name in row && FieldFits(outputs, NamedEnvelope(outputs[i].name, row[outputs[i].name]), deep)
      ensures LookupOutput(outputs, outputs[i].name) == outputs[i]
    {
      assert outputs[i].name in OutputNames(outputs);
      assert outputs[i].name in (set n | n in ArgumentNames(fields));
      var j :| 0 <= j < |fields| && ArgumentNames(fields)[j] == outputs[i].name;
      assert xs[j].name == outputs[i].name;
      LookupOutputAt(outputs, i);
    }
    forall n | n in row ensures n in OutputNames(outputs) {
      assert NamedEnvelope(n, row[n]) in xs;
    }
  }

  // ---------- statements and blocks ----------

  // Names the static features that explain a failure of a block.
  ghost predicate StmtExplains(stmt: Stmt, f: Failure, deep: bool)
    decreases stmt
  {
    match stmt
    case Let(_, _, value) => Explained(f, HasDivision(value), HasExtremum(value), HasRead(value), deep)
    case Check(_, _, condition, _, _, _, _) => Explained(f, HasDivision(condition), HasExtremum(condition), HasRead(condition), deep)
    case Emit(_, fields) => f == LimitExceeded(EmittedRows) || exists i :: 0 <= i < |fields| && ArgumentExplains(fields[i], f, deep)
    case Foreach(_, _, collection, _, body) =>
      || f == LimitExceeded(ForeachNesting) || f == LimitExceeded(ForeachMax) || f == LimitExceeded(LoopIterations)
      || (!deep && f.RawError?)
      || Explained(f, HasDivision(collection), HasExtremum(collection), HasRead(collection), deep)
      || exists i :: 0 <= i < |body| && StmtExplains(body[i], f, deep)
    case Approval(_, _, _, _) => false
  }

  ghost predicate SafeExec(g: Scope, outputs: seq<OutputField>, stmts: seq<Stmt>, r: Exec, deep: bool) {
    && RowsFit(outputs, r.s.w.outputs, deep)
    && match r.error
       case None => ScopeHolds(g, r.s.b, deep)
       case Some(f) => exists i :: 0 <= i < |stmts| && StmtExplains(stmts[i], f, deep)
  }

  // A well-typed block, run from bindings that match its scope, keeps the scope, emits only rows
  // that fit the output schema, and can only fail in the ways its own statements explain.
  lemma {:induction false} BlockIsSafe(env: Env, g: Scope, stmts: seq<Stmt>, s: State, deep: bool)
    requires Framed(s.b) && WellTypedBlock(SignatureOf(env), g, stmts) && ScopeHolds(g, s.b, deep) && RowsFit(env.outputs, s.w.outputs, deep)
    ensures SafeExec(ScopeAfterBlock(SignatureOf(env), g, stmts), env.outputs, stmts, ExecBlock(env, stmts, s), deep)
    decreases stmts, 2, 0
  {
    hide ExecStmt;
    if stmts != [] {
      StmtIsSafe(env, g, stmts[0], s, deep);
      var first := ExecStmt(env, stmts[0], s);
      if first.error.None? {
        BlockIsSafe(env, ScopeAfter(SignatureOf(env), g, stmts[0]), stmts[1..], first.s, deep);
        var rest := ExecBlock(env, stmts[1..], first.s);
        if rest.error.Some? {
          var i :| 0 <= i < |stmts[1..]| && StmtExplains(stmts[1..][i], rest.error.value, deep);
          assert stmts[i + 1] == stmts[1..][i];
        }
      }
    }
  }

  lemma {:induction false} StmtIsSafe(env: Env, g: Scope, stmt: Stmt, s: State, deep: bool)
    requires Framed(s.b) && WellTypedStmt(SignatureOf(env), g, stmt) && ScopeHolds(g, s.b, deep) && RowsFit(env.outputs, s.w.outputs, deep)
    ensures var r := ExecStmt(env, stmt, s);
      && RowsFit(env.outputs, r.s.w.outputs, deep)
      && (r.error.None? ==> ScopeHolds(ScopeAfter(SignatureOf(env), g, stmt), r.s.b, deep))
      && (r.error.Some? ==> StmtExplains(stmt, r.error.value, deep))
    decreases stmt, 1, 0
  {
    match stmt
    case Let(_, _, _) => LetIsSafe(env, g, stmt, s, deep);
    case Check(_, _, _, _, _, _, _) => CheckIsSafe(env, g, stmt, s, deep);
    case Emit(_, _) => EmitIsSafe(env, g, stmt, s, deep);
    case Foreach(_, _, _, _, _) => ForeachIsSafe(env, g, stmt, s, deep);
  }

  lemma {:induction false} LetIsSafe(env: Env, g: Scope, stmt: Stmt, s: State, deep: bool)
    requires stmt.Let? && Framed(s.b) && WellTypedStmt(SignatureOf(env), g, stmt) && ScopeHolds(g, s.b, deep)
    ensures var r := ExecStmt(env, stmt, s);
      && r.s.w.outputs == s.w.outputs
      && (r.error.None? ==> ScopeHolds(ScopeAfter(SignatureOf(env), g, stmt), r.s.b, deep))
      && (r.error.Some? ==> StmtExplains(stmt, r.error.value, deep))
  {
    hide EvalExpr, WellTyped;
    ExprIsSafe(env, g, s.b, stmt.value, s.w, deep);
    EvalOnlyCalls(env, s.b, stmt.value, s.w);
    var r := EvalExpr(env, s.b, stmt.value, s.w);
    if r.res.Ok? {
      BindKeepsScope(g, s.b, stmt.target, Tag(stmt.value.ty, ClassOf(SignatureOf(env), g, stmt.value)), r.res.value, deep);
    }
  }

  lemma {:induction false} CheckIsSafe(env: Env, g: Scope, stmt: Stmt, s: State, deep: bool)
    requires stmt.Check? && Framed(s.b) && WellTypedStmt(SignatureOf(env), g, stmt) && ScopeHolds(g, s.b, deep)
    ensures var r := ExecStmt(env, stmt, s);
      && r.s.w.outputs == s.w.outputs
      && (r.error.None? ==> ScopeHolds(ScopeAfter(SignatureOf(env), g, stmt), r.s.b, deep))
      && (r.error.Some? ==> StmtExplains(stmt, r.error.value, deep))
  {
    hide EvalExpr, WellTyped;
    ExprIsSafe(env, g, s.b, stmt.condition, s.w, deep);
    EvalOnlyCalls(env, s.b, stmt.condition, s.w);
    var r := EvalExpr(env, s.b, stmt.condition, s.w);
    if r.res.Ok? {
      var c := JudgeCheck(stmt.checkId, stmt.severity, stmt.message, r.res.value);
      if c.Ok? {
        CheckEnvelopeTyped(c.value);
        BindKeepsScope(g, s.b, stmt.result, Tag(CHECK_RESULT, INTERNAL), CheckEnvelope(c.value), deep);
      }
    }
  }

  lemma CheckEnvelopeTyped(c: CheckResult)
    ensures Typed(CheckEnvelope(c), Tag(CHECK_RESULT, INTERNAL), true)
  {
    var v := CheckEnvelope(c).value;
    assert v.fields["status"] == VString(StatusText(c.status));
    assert StatusText(c.status) in CHECK_STATUS.values by {
      assert CHECK_STATUS.values[0] == "PASS" && CHECK_STATUS.values[1] == "FAIL" && CHECK_STATUS.values[2] == "UNKNOWN";
    }
    assert CHECK_RESULT.fields[0] == FieldType("status", CHECK_STATUS);
    assert FieldNames(CHECK_RESULT.fields) == {"status"};
    assert v.fields.Keys == {"status"};
  }

  lemma {:induction false} EmitIsSafe(env: Env, g: Scope, stmt: Stmt, s: State, deep: bool)
    requires stmt.Emit? && WellTypedStmt(SignatureOf(env), g, stmt) && ScopeHolds(g, s.b, deep) && RowsFit(env.outputs, s.w.outputs, deep)
    requires Framed(s.b)
    ensures var r := ExecStmt(env, stmt, s);
      && RowsFit(env.outputs, r.s.w.outputs, deep)
      && r.s.b == s.b
      && (r.error.Some? ==> StmtExplains(stmt, r.error.value, deep))
  {
    hide EvalExpr, WellTyped, EmitFields, WellTypedFields, ScopeHolds, RowFits, ArgumentExplains, OutputNames;
    SchemaNamesKnown(env.outputs, stmt.fields);
    FieldsAreSafe(env, g, s.b, stmt.fields, s.w, deep);
    EmitFieldsOnlyCalls(env, s.b, stmt.fields, s.w);
    var r := EmitFields(env, s.b, stmt.fields, s.w);
    if r.res.Ok? {
      RowFromFields(env.outputs, stmt.fields, r.res.value, deep);
    }
  }

  lemma {:induction false} ForeachIsSafe(env: Env, g: Scope, stmt: Stmt, s: State, deep: bool)
    requires stmt.Foreach? && Framed(s.b) && WellTypedStmt(SignatureOf(env), g, stmt) && ScopeHolds(g, s.b, deep) && RowsFit(env.outputs, s.w.outputs, deep)
    ensures var r := ExecStmt(env, stmt, s);
      && RowsFit(env.outputs, r.s.w.outputs, deep)
      && r.s.b == s.b
      && (r.error.Some? ==> StmtExplains(stmt, r.error.value, deep))
    decreases stmt, 0
  {
    hide EvalExpr, WellTyped, ExecLoop;
    ExprIsSafe(env, g, s.b, stmt.collection, s.w, deep);
    EvalOnlyCalls(env, s.b, stmt.collection, s.w);
    var r := EvalExpr(env, s.b, stmt.collection, s.w);
    if r.res.Ok? {
      var items := Elements(r.res.value.value);
      if items.Some? {
        assert deep ==> forall i | 0 <= i < |items.value| :: Conforms(items.value[i], stmt.collection.ty.item);
        LoopIsSafe(env, g, stmt, r.res.value, items.value, State(s.b, r.w, s.depth + 1), deep);
      }
    }
  }

  lemma {:induction false} LoopIsSafe(env: Env, g: Scope, stmt: Stmt, collection: Envelope, items: seq<Value>, s: State, deep: bool)
    requires stmt.Foreach? && Framed(s.b) && WellTypedStmt(SignatureOf(env), g, stmt) && ScopeHolds(g, s.b, deep) && RowsFit(env.outputs, s.w.outputs, deep)
    requires collection.ty == stmt.collection.ty && collection.cls == ClassOf(SignatureOf(env), g, stmt.collection)
    requires deep ==> forall i | 0 <= i < |items| :: Conforms(items[i], stmt.collection.ty.item)
    ensures var r := ExecLoop(env, stmt, collection, items, s);
      && RowsFit(env.outputs, r.s.w.outputs, deep)
      && (r.error.Some? ==> StmtExplains(stmt, r.error.value, deep))
    decreases stmt, 0, |items|
  {
    hide EvalExpr, WellTyped, ExecBlock;
    if items != [] && s.w.meter.loopIterations < env.limits.loopIterations {
      var w := s.w.(meter := s.w.meter.(loopIterations := s.w.meter.loopIterations + 1));
      var pushed := Push(s.b);
      PushKeepsScope(g, s.b, deep);
      var item := ItemEnvelope(collection, items[0]);
      BindKeepsScope(g, pushed, stmt.loopVariable, Tag(stmt.collection.ty.item, collection.cls), item, deep);
      var entry := State(Bind(pushed, stmt.loopVariable, item), w, s.depth);
      BlockIsSafe(env, LoopScope(SignatureOf(env), g, stmt), stmt.body, entry, deep);
      var body := ExecBlock(env, stmt.body, entry);
      assert Pop(entry.b) == s.b;
      if body.error.None? {
        LoopIsSafe(env, g, stmt, collection, items[1..], State(Pop(body.s.b), body.s.w, s.depth), deep);
      }
    }
  }

  // ---------- type safety of whole runs ----------

  lemma {:induction false} ExplainedIsNotRuledOut(stmt: Stmt, f: Failure, deep: bool)
    requires StmtExplains(stmt, f, deep)
    ensures !RuledOut(f, deep)
  {
    if stmt.Foreach? && (exists i :: 0 <= i < |stmt.body| && StmtExplains(stmt.body[i], f, deep)) {
      var i :| 0 <= i < |stmt.body| && StmtExplains(stmt.body[i], f, deep);
      ExplainedIsNotRuledOut(stmt.body[i], f, deep);
    }
  }

  // On any inputs: no unknown symbol, no repeated binding, no type or classification mismatch, no
  // schema error, across every loop iteration.  On conforming values: no missing field, currency
  // mismatch, argument type error or non-Boolean check either.
  lemma {:induction false} WellTypedRunIsSafe(env: Env, g: Scope, body: seq<Stmt>, s: State, deep: bool)
    requires Framed(s.b) && WellTypedBlock(SignatureOf(env), g, body) && ScopeHolds(g, s.b, deep) && RowsFit(env.outputs, s.w.outputs, deep)
    ensures var r := ExecBlock(env, body, s);
      && RowsFit(env.outputs, r.s.w.outputs, deep)
      && (r.error.None? ==> ScopeHolds(ScopeAfterBlock(SignatureOf(env), g, body), r.s.b, deep))
      && (r.error.Some? ==> !RuledOut(r.error.value, deep))
  {
    BlockIsSafe(env, g, body, s, deep);
    var r := ExecBlock(env, body, s);
    if r.error.Some? {
      var i :| 0 <= i < |body| && StmtExplains(body[i], r.error.value, deep);
      ExplainedIsNotRuledOut(body[i], r.error.value, deep);
    }
  }

  predicate ArgumentsCanFail(args: seq<Argument>) {
    exists i :: 0 <= i < |args| && ExprCanFail(args[i].value)
  }

  predicate ExprCanFail(e: Expr) {
    HasDivision(e) || HasExtremum(e) || HasRead(e)
  }

  // Some expression of the statement divides, takes a minimum or maximum, or reads.
  predicate StmtCanFail(stmt: Stmt)
    decreases stmt
  {
    match stmt
    case Let(_, _, value) => ExprCanFail(value)
    case Check(_, _, condition, _, _, _, _) => ExprCanFail(condition)
    case Emit(_, fields) => ArgumentsCanFail(fields)
    case Foreach(_, _, collection, _, body) => ExprCanFail(collection) || exists i :: 0 <= i < |body| && StmtCanFail(body[i])
    case Approval(_, _, _, _) => false
  }

  lemma {:induction false} ProgressOfStatement(stmt: Stmt, f: Failure)
    requires StmtExplains(stmt, f, true)
    ensures f.LimitExceeded? || StmtCanFail(stmt)
  {
    if stmt.Foreach? && (exists i :: 0 <= i < |stmt.body| && StmtExplains(stmt.body[i], f, true)) {
      var i :| 0 <= i < |stmt.body| && StmtExplains(stmt.body[i], f, true);
      ProgressOfStatement(stmt.body[i], f);
    } else if stmt.Emit? && f != LimitExceeded(EmittedRows) {
      var i :| 0 <= i < |stmt.fields| && ArgumentExplains(stmt.fields[i], f, true);
      assert f.LimitExceeded? || ExprCanFail(stmt.fields[i].value);
    }
  }

  // Progress: with conforming values, a body that neither divides, nor takes a minimum or maximum,
  // nor reads a tool runs to completion unless it meets a resource limit.
  lemma {:induction false} PlainBodyCompletes(env: Env, g: Scope, body: seq<Stmt>, s: State)
    requires Framed(s.b) && WellTypedBlock(SignatureOf(env), g, body) && ScopeHolds(g, s.b, true) && RowsFit(env.outputs, s.w.outputs, true)
    requires forall i | 0 <= i < |body| :: !StmtCanFail(body[i])
    ensures var r := ExecBlock(env, body, s);
      r.error.None? || r.error.value.LimitExceeded?
  {
    BlockIsSafe(env, g, body, s, true);
    var r := ExecBlock(env, body, s);
    if r.error.Some? {
      var i :| 0 <= i < |body| && StmtExplains(body[i], r.error.value, true);
      ProgressOfStatement(body[i], r.error.value);
    }
  }
}
