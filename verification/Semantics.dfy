// The reference interpreter: what evaluating an expression and executing a block do to the
// bindings of a run and to its ledger, for any behaviour of the tools it calls.
// Failures keep the effects made before them, as an exception does.

module Semantics {
  import opened Wrappers
  import opened Core
  import opened Failures
  import opened Operators
  import opened Ir

  const MAX_FOREACH_NESTING_DEPTH: nat := 16

  // ---------- tools ----------

  datatype Contract = Contract(
    toolId: string,
    version: string,
    inputs: seq<FieldType>,
    output: Type,
    outputClass: Classification,
    emptyIsValid: bool)

  datatype NamedEnvelope = NamedEnvelope(name: string, value: Envelope)

  datatype ToolRequest = ToolRequest(invocation: nat, toolId: string, version: string, arguments: seq<NamedEnvelope>)

  datatype ToolResult = ToolResult(
    invocation: nat,
    toolId: string,
    version: string,
    value: Value,
    ty: Type,
    presence: Presence,
    completeness: Completeness,
    cls: Classification,
    digest: Value)

  // What a tool port can do with a request: answer, answer with something that is no result
  // envelope, raise a tool error, or raise any other exception.
  datatype Reply =
    | Returned(result: ToolResult)
    | NotAnEnvelope
    | RaisedToolError(code: string)
    | RaisedPlainError
    | RaisedOther

  datatype ToolEvent = ToolEvent(request: ToolRequest, reply: Reply)

  // A port may answer by everything it has seen so far.
  type Port = (seq<ToolEvent>, ToolRequest) -> Reply

  datatype Env = Env(
    limits: Limits,
    outputs: seq<OutputField>,
    tools: map<ToolRef, Contract>,
    authorized: set<ToolRef>,
    port: Port)

  // ---------- run state ----------

  datatype CheckStatus = PASS | FAIL | UNDECIDED

  datatype CheckResult = CheckResult(
    checkId: string,
    status: CheckStatus,
    severity: string,
    message: string,
    presence: Presence,
    completeness: Completeness,
    prov: seq<Provenance>)

  function StatusText(s: CheckStatus): string {
    match s
    case PASS => "PASS"
    case FAIL => "FAIL"
    case UNDECIDED => "UNKNOWN"
  }

  datatype Meter = Meter(toolCalls: nat, loopIterations: nat, emittedRows: nat, maxCollectionSeen: nat)

  type Frame = map<SymbolId, Envelope>

  datatype Bindings = Bindings(inputs: Frame, contexts: Frame, frames: seq<Frame>, checkFrames: seq<Frame>)

  datatype Ledger = Ledger(
    checks: seq<CheckResult>,
    outputs: seq<Row>,
    meter: Meter,
    completeness: Completeness,
    invocations: nat,
    trace: seq<ToolEvent>)

  datatype State = State(b: Bindings, w: Ledger, depth: nat)

  datatype Eval<+T> = Eval(res: Result<T, Failure>, w: Ledger)

  datatype Exec = Exec(error: Option<Failure>, s: State)

  // ---------- bindings ----------

  predicate InSomeFrame(frames: seq<Frame>, id: SymbolId) {
    exists i :: 0 <= i < |frames| && id in frames[i]
  }

  predicate IsBound(b: Bindings, id: SymbolId) {
    id in b.inputs || id in b.contexts || InSomeFrame(b.frames, id) || InSomeFrame(b.checkFrames, id)
  }

  function Innermost(frames: seq<Frame>, id: SymbolId): (r: Option<Envelope>)
    ensures r.Some? <==> InSomeFrame(frames, id)
  {
    if frames == [] then None
    else
      var n := |frames| - 1;
      if id in frames[n] then Some(frames[n][id])
      else
        var r := Innermost(frames[..n], id);
        assert InSomeFrame(frames, id) ==> InSomeFrame(frames[..n], id) by {
          if InSomeFrame(frames, id) {
            var i :| 0 <= i < |frames| && id in frames[i];
            assert id in frames[..n][i];
          }
        }
        assert r.Some? ==> InSomeFrame(frames, id) by {
          if r.Some? {
            var i :| 0 <= i < n && id in frames[..n][i];
            assert id in frames[i];
          }
        }
        r
  }

  function Resolve(b: Bindings, id: SymbolId): (r: Option<Envelope>)
    ensures r.Some? <==> IsBound(b, id)
  {
    match Innermost(b.frames, id)
    case Some(x) => Some(x)
    case None =>
      match Innermost(b.checkFrames, id)
      case Some(x) => Some(x)
      case None =>
        if id in b.contexts then Some(b.contexts[id])
        else if id in b.inputs then Some(b.inputs[id])
        else None
  }

  function BindTop(frames: seq<Frame>, id: SymbolId, x: Envelope): seq<Frame>
    requires frames != []
  {
    var top: Frame := frames[|frames| - 1][id := x];
    frames[|frames| - 1 := top]
  }

  predicate Framed(b: Bindings) {
    0 < |b.frames| == |b.checkFrames|
  }

  function Bind(b: Bindings, id: SymbolId, x: Envelope): Bindings
    requires Framed(b)
  {
    b.(frames := BindTop(b.frames, id, x))
  }

  function BindCheck(b: Bindings, id: SymbolId, x: Envelope): Bindings
    requires Framed(b)
  {
    b.(checkFrames := BindTop(b.checkFrames, id, x))
  }

  function Push(b: Bindings): Bindings {
    b.(frames := b.frames + [map[]], checkFrames := b.checkFrames + [map[]])
  }

  function Pop(b: Bindings): Bindings
    requires Framed(b)
  {
    b.(frames := b.frames[..|b.frames| - 1], checkFrames := b.checkFrames[..|b.checkFrames| - 1])
  }

  // Everything but the innermost frames agrees.
  predicate SameBelow(b: Bindings, c: Bindings) {
    Framed(b) && Framed(c) && Pop(b) == Pop(c)
  }

  // ---------- expressions ----------

  function Oversized(v: Value, limits: Limits): bool {
    v.VList? && |v.items| > limits.collectionSize
  }

  function EvalExpr(env: Env, b: Bindings, e: Expr, w: Ledger): (r: Eval<Envelope>)
    decreases e, 1
  {
    if e.Write? then Eval(Err(RawError), w)
    else
      var r := EvalNode(env, b, e, w);
      match r.res
      case Err(f) => Eval(Err(if f == RawError && !e.Read? then EvaluationError else f), r.w)
      case Ok(x) =>
        if x.ty != e.ty then Eval(Err(TypeMismatch), r.w)
        else
          var seen := r.w.(completeness := Observe(r.w.completeness, x.completeness));
          if Oversized(x.value, env.limits) then Eval(Err(LimitExceeded(CollectionSize)), seen)
          else Eval(Ok(x), seen)
  }

  function EvalNode(env: Env, b: Bindings, e: Expr, w: Ledger): (r: Eval<Envelope>)
    decreases e, 0
  {
    match e
    case Literal(_, v, ty) => Eval(Ok(CompleteEnvelope(v, ty, PUBLIC, [])), w)
    case SymbolRef(_, symbol, _) =>
      (match Resolve(b, symbol)
       case Some(x) => Eval(Ok(x), w)
       case None => Eval(Err(UnknownSymbol), w))
    case Field(_, source, field, ty) =>
      var r := EvalExpr(env, b, source, w);
      (match r.res
       case Err(f) => r
       case Ok(x) => Eval(GetField(x, field, ty), r.w))
    case Projection(_, source, field, ty) =>
      var r := EvalExpr(env, b, source, w);
      (match r.res
       case Err(f) => r
       case Ok(x) => Eval(Project(x, field, ty), r.w))
    case Call(_, f, operands, ty) =>
      var r := EvalOperands(env, b, operands, w);
      (match r.res
       case Err(g) => Eval(Err(g), r.w)
       case Ok(xs) => Eval(ApplyCall(f, xs, ty), r.w))
    case Binary(_, op, left, right, ty) =>
      var l := EvalExpr(env, b, left, w);
      (match l.res
       case Err(f) => l
       case Ok(x) =>
         var r := EvalExpr(env, b, right, l.w);
         match r.res
         case Err(f) => r
         case Ok(y) => Eval(CombineBinary(op, x, y, ty), r.w))
    case Read(_, tool, arguments, ty, policy) =>
      if tool !in env.tools then Eval(Err(UnregisteredTool), w)
      else
        var contract := env.tools[tool];
        if !NamesMatch(ArgumentNames(arguments), FieldNames(contract.inputs)) then Eval(Err(Tool(ArgumentMismatch)), w)
        else if tool !in env.authorized then Eval(Err(Unauthorized), w)
        else
          var r := EvalArguments(env, b, arguments, w);
          (match r.res
           case Err(f) => Eval(Err(f), r.w)
           case Ok(args) => CallTool(env, contract, args, policy, r.w))
    case Write(_, _, _, _, _) => Eval(Err(RawError), w)
  }

  function EvalOperands(env: Env, b: Bindings, es: seq<Expr>, w: Ledger): (r: Eval<seq<Envelope>>)
    ensures r.res.Ok? ==> |r.res.value| == |es|
    decreases es, 0
  {
    if es == [] then Eval(Ok([]), w)
    else
      var first := EvalExpr(env, b, es[0], w);
      match first.res
      case Err(f) => Eval(Err(f), first.w)
      case Ok(x) =>
        var rest := EvalOperands(env, b, es[1..], first.w);
        match rest.res
        case Err(f) => rest
        case Ok(xs) => Eval(Ok([x] + xs), rest.w)
  }

  function EvalArguments(env: Env, b: Bindings, args: seq<Argument>, w: Ledger): (r: Eval<seq<NamedEnvelope>>)
    ensures r.res.Ok? ==> |r.res.value| == |args| && forall i | 0 <= i < |args| :: r.res.value[i].name == args[i].name
    decreases args, 0
  {
    if args == [] then Eval(Ok([]), w)
    else
      var first := EvalExpr(env, b, args[0].value, w);
      match first.res
      case Err(f) => Eval(Err(f), first.w)
      case Ok(x) =>
        var rest := EvalArguments(env, b, args[1..], first.w);
        match rest.res
        case Err(f) => rest
        case Ok(xs) => Eval(Ok([NamedEnvelope(args[0].name, x)] + xs), rest.w)
  }

  function GetField(x: Envelope, field: string, ty: Type): Result<Envelope, Failure> {
    if x.value.VRecord? && field in x.value.fields
    then Ok(Envelope(x.value.fields[field], ty, PRESENT, x.completeness, x.cls, x.prov))
    else Err(RawError)
  }

  function Project(x: Envelope, field: string, ty: Type): Result<Envelope, Failure> {
    match Elements(x.value)
    case None => Err(RawError)
    case Some(items) =>
      if exists i :: 0 <= i < |items| && !(items[i].VRecord? && field in items[i].fields) then Err(RawError)
      else
        var values := seq(|items|, i requires 0 <= i < |items| && items[i].VRecord? && field in items[i].fields => items[i].fields[field]);
        Ok(Envelope(VList(values), ty, if values == [] then EMPTY else PRESENT, x.completeness, x.cls, x.prov))
  }

  function ApplyCall(f: Builtin, xs: seq<Envelope>, ty: Type): Result<Envelope, Failure> {
    var v :- EvaluateBuiltin(f, seq(|xs|, i requires 0 <= i < |xs| => xs[i].value), seq(|xs|, i requires 0 <= i < |xs| => xs[i].ty), ty);
    Ok(Envelope(v, ty, PRESENT, xs[0].completeness, xs[0].cls, xs[0].prov))
  }

  function CombineBinary(op: BinOp, x: Envelope, y: Envelope, ty: Type): Result<Envelope, Failure> {
    var v :- ApplyBinary(op, x.value, y.value, ty);
    Ok(Envelope(v, ty, PRESENT, Combine(x.completeness, y.completeness), Highest(x.cls, y.cls), Dedup(x.prov + y.prov)))
  }

  // ---------- tool calls ----------

  predicate ArgumentsConform(contract: Contract, args: seq<NamedEnvelope>) {
    forall i | 0 <= i < |args| :: match LookupField(contract.inputs, args[i].name)
      case Some(ty) => args[i].value.ty == ty && Conforms(args[i].value.value, ty)
      case None => false
  }

  // The structural, contract and digest checks on what the port answered.
  function ValidateReply(contract: Contract, request: ToolRequest, policy: ResultPolicy, reply: Reply): Result<ToolResult, Failure> {
    match reply
    case RaisedToolError(code) => Err(Tool(RaisedByTool(code)))
    case RaisedPlainError => Err(RawError)
    case RaisedOther => Err(PortCrashed)
    case NotAnEnvelope => Err(Tool(Malformed))
    case Returned(t) =>
      if t.invocation != request.invocation || t.toolId != request.toolId || t.version != request.version then Err(Tool(ResultIdentity))
      else if t.ty != contract.output || t.cls != contract.outputClass || !Conforms(t.value, contract.output) then Err(Tool(OutputContract))
      else if t.digest != t.value then Err(Tool(ResultHash))
      else if policy.required && t.presence == EMPTY && !policy.emptyIsValid then Err(Tool(RequiredResultMissing))
      else Ok(t)
  }

  function MaxNat(a: nat, b: nat): nat {
    if a >= b then a else b
  }

  function ObserveSize(w: Ledger, v: Value): Ledger {
    if v.VList? then w.(meter := w.meter.(maxCollectionSeen := MaxNat(w.meter.maxCollectionSeen, |v.items|))) else w
  }

  function CallTool(env: Env, contract: Contract, args: seq<NamedEnvelope>, policy: ResultPolicy, w: Ledger): Eval<Envelope> {
    if w.meter.toolCalls >= env.limits.toolCalls then Eval(Err(LimitExceeded(ToolCalls)), w)
    else
      var counted := w.(meter := w.meter.(toolCalls := w.meter.toolCalls + 1), invocations := w.invocations + 1);
      if !ArgumentsConform(contract, args) then Eval(Err(Tool(ArgumentTypeMismatch)), counted)
      else
        var request := ToolRequest(counted.invocations, contract.toolId, contract.version, args);
        var reply := env.port(w.trace, request);
        var called := counted.(trace := w.trace + [ToolEvent(request, reply)]);
        match ValidateReply(contract, request, policy, reply)
        case Err(f) => Eval(Err(f), called)
        case Ok(t) =>
          var observed := ObserveSize(called, t.value);
          if Oversized(t.value, env.limits) then Eval(Err(LimitExceeded(CollectionSize)), observed)
          else Eval(Ok(Envelope(t.value, t.ty, t.presence, t.completeness, t.cls, [Provenance(request.invocation, t.digest)])), observed)
  }

  // ---------- statements ----------

  // The dynamic half of input checking: it does not look inside lists and records.
  predicate RuntimeTypeOk(v: Value, t: Type) {
    match t
    case TInt => v.VInt?
    case TYear => v.VInt?
    case TDomain(_) => v.VString?
    case TString => v.VString?
    case TBool => v.VBool?
    case TDecimal => v.VDecimal?
    case TDate => v.VDate?
    case TDateTime => v.VDateTime?
    case TMoney(c) => v.VMoney? && v.currency == c
    case TEnum(_, values) => v.VString? && v.s in values
    case TList(_) => true
    case TRecord(_, _) => true
  }

  function JudgeCheck(checkId: string, severity: string, message: string, x: Envelope): Result<CheckResult, Failure> {
    if !x.ty.TBool? || !x.value.VBool? then Err(CheckNotBool)
    else
      var status := if x.completeness == COMPLETE then (if x.value.b then PASS else FAIL) else UNDECIDED;
      Ok(CheckResult(checkId, status, severity, message, x.presence, x.completeness, x.prov))
  }

  function CheckEnvelope(c: CheckResult): Envelope {
    CompleteEnvelope(VRecord(map["status" := VString(StatusText(c.status))]), CHECK_RESULT, INTERNAL, c.prov)
  }

  function EmitFields(env: Env, b: Bindings, fields: seq<Argument>, w: Ledger): (r: Eval<seq<NamedEnvelope>>)
    requires forall i | 0 <= i < |fields| :: fields[i].name in OutputNames(env.outputs)
    ensures r.res.Ok? ==> |r.res.value| == |fields| && forall i | 0 <= i < |fields| :: r.res.value[i].name == fields[i].name
    decreases |fields|
  {
    if fields == [] then Eval(Ok([]), w)
    else
      var output := LookupOutput(env.outputs, fields[0].name);
      if fields[0].value.ty != output.ty then Eval(Err(EmitType), w)
      else
        var first := EvalExpr(env, b, fields[0].value, w);
        match first.res
        case Err(f) => Eval(Err(f), first.w)
        case Ok(x) =>
          if !RuntimeTypeOk(x.value, output.ty) then Eval(Err(EmitValue), first.w)
          else if !Allows(x.cls, output.cls) then Eval(Err(EmitClassification), first.w)
          else
            var rest := EmitFields(env, b, fields[1..], first.w);
            match rest.res
            case Err(f) => rest
            case Ok(xs) => Eval(Ok([NamedEnvelope(fields[0].name, x)] + xs), rest.w)
  }

  // An emitted record holds a value under every name.
  type Row = map<string, Envelope>

  function RowOf(xs: seq<NamedEnvelope>): (row: Row)
    ensures forall i | 0 <= i < |xs| :: xs[i].name in row
    ensures forall n | n in row :: NamedEnvelope(n, row[n]) in xs
  {
    if xs == [] then map[]
    else
      var last := xs[|xs| - 1];
      RowOf(xs[..|xs| - 1])[last.name := last.value]
  }

  function OutputNameSeq(outputs: seq<OutputField>): seq<string> {
    seq(|outputs|, i requires 0 <= i < |outputs| => outputs[i].name)
  }

  predicate EmitSchemaOk(outputs: seq<OutputField>, fields: seq<Argument>) {
    Distinct(OutputNameSeq(outputs)) && NamesMatch(ArgumentNames(fields), OutputNames(outputs))
  }

  lemma SchemaNamesKnown(outputs: seq<OutputField>, fields: seq<Argument>)
    requires NamesMatch(ArgumentNames(fields), OutputNames(outputs))
    ensures forall i | 0 <= i < |fields| :: fields[i].name in OutputNames(outputs)
  {
    forall i | 0 <= i < |fields| ensures fields[i].name in OutputNames(outputs) {
      assert ArgumentNames(fields)[i] == fields[i].name;
      assert fields[i].name in (set n | n in ArgumentNames(fields));
    }
  }

  function ExecEmit(env: Env, b: Bindings, fields: seq<Argument>, w: Ledger): Eval<()> {
    if w.meter.emittedRows >= env.limits.emittedRows then Eval(Err(LimitExceeded(EmittedRows)), w)
    else if !EmitSchemaOk(env.outputs, fields) then Eval(Err(EmitSchema), w)
    else
      SchemaNamesKnown(env.outputs, fields);
      var r := EmitFields(env, b, fields, w);
      match r.res
      case Err(f) => Eval(Err(f), r.w)
      case Ok(xs) =>
        Eval(Ok(()), r.w.(outputs := r.w.outputs + [RowOf(xs)],
                          meter := r.w.meter.(emittedRows := r.w.meter.emittedRows + 1)))
  }

  function ItemEnvelope(collection: Envelope, item: Value): Envelope {
    Envelope(item, if collection.ty.TList? then collection.ty.item else collection.ty, PRESENT, collection.completeness, collection.cls, collection.prov)
  }

  function ExecBlock(env: Env, stmts: seq<Stmt>, s: State): (r: Exec)
    requires Framed(s.b)
    ensures SameBelow(s.b, r.s.b)
    ensures r.s.depth == s.depth
    decreases stmts, 3, 0
  {
    if stmts == [] then Exec(None, s)
    else
      var first := ExecStmt(env, stmts[0], s);
      if first.error.Some? then first else ExecBlock(env, stmts[1..], first.s)
  }

  function ExecStmt(env: Env, stmt: Stmt, s: State): (r: Exec)
    requires Framed(s.b)
    ensures SameBelow(s.b, r.s.b)
    ensures r.s.depth == s.depth
    decreases stmt, 2, 0
  {
    match stmt
    case Let(_, _, _) => ExecLet(env, stmt, s)
    case Check(_, _, _, _, _, _, _) => ExecCheck(env, stmt, s)
    case Emit(_, fields) =>
      var r := ExecEmit(env, s.b, fields, s.w);
      Exec(if r.res.Err? then Some(r.res.error) else None, s.(w := r.w))
    case Foreach(_, _, _, _, _) => ExecForeach(env, stmt, s)
    case Approval(_, _, _, _) => Exec(Some(RawError), s)
  }

  function ExecLet(env: Env, stmt: Stmt, s: State): Exec
    requires stmt.Let? && Framed(s.b)
  {
    var r := EvalExpr(env, s.b, stmt.value, s.w);
    match r.res
    case Err(f) => Exec(Some(f), s.(w := r.w))
    case Ok(x) =>
      if IsBound(s.b, stmt.target) then Exec(Some(ImmutableBinding), s.(w := r.w))
      else Exec(None, s.(b := Bind(s.b, stmt.target, x), w := r.w))
  }

  // A check is recorded before its result is bound.
  function ExecCheck(env: Env, stmt: Stmt, s: State): Exec
    requires stmt.Check? && Framed(s.b)
  {
    var r := EvalExpr(env, s.b, stmt.condition, s.w);
    match r.res
    case Err(f) => Exec(Some(f), s.(w := r.w))
    case Ok(x) =>
      match JudgeCheck(stmt.checkId, stmt.severity, stmt.message, x)
      case Err(f) => Exec(Some(f), s.(w := r.w))
      case Ok(c) =>
        var w := r.w.(checks := r.w.checks + [c]);
        if IsBound(s.b, stmt.result) then Exec(Some(ImmutableBinding), s.(w := w))
        else Exec(None, s.(b := BindCheck(s.b, stmt.result, CheckEnvelope(c)), w := w))
  }

  function ExecForeach(env: Env, stmt: Stmt, s: State): (r: Exec)
    requires stmt.Foreach? && Framed(s.b)
    ensures r.s.b == s.b
    ensures r.s.depth == s.depth
    decreases stmt, 1, 0
  {
    if s.depth >= MAX_FOREACH_NESTING_DEPTH then Exec(Some(LimitExceeded(ForeachNesting)), s)
    else
      var r := EvalExpr(env, s.b, stmt.collection, s.w);
      match r.res
      case Err(f) => Exec(Some(f), s.(w := r.w))
      case Ok(x) =>
        match Elements(x.value)
        case None => Exec(Some(RawError), s.(w := r.w))
        case Some(items) =>
          if |items| > stmt.maxIterations then Exec(Some(LimitExceeded(ForeachMax)), s.(w := r.w))
          else
            var loop := ExecLoop(env, stmt, x, items, State(s.b, r.w, s.depth + 1));
            Exec(loop.error, s.(w := loop.s.w))
  }

  function ExecLoop(env: Env, stmt: Stmt, collection: Envelope, items: seq<Value>, s: State): (r: Exec)
    requires stmt.Foreach? && Framed(s.b)
    ensures r.s.b == s.b
    ensures r.s.depth == s.depth
    decreases stmt, 0, |items|
  {
    if items == [] then Exec(None, s)
    else if s.w.meter.loopIterations >= env.limits.loopIterations then Exec(Some(LimitExceeded(LoopIterations)), s)
    else
      var w := s.w.(meter := s.w.meter.(loopIterations := s.w.meter.loopIterations + 1));
      var pushed := Push(s.b);
      assert Pop(pushed) == s.b;
      if IsBound(pushed, stmt.loopVariable) then Exec(Some(ImmutableBinding), State(Pop(pushed), w, s.depth))
      else
        var bound := Bind(pushed, stmt.loopVariable, ItemEnvelope(collection, items[0]));
        assert Pop(bound) == s.b;
        var body := ExecBlock(env, stmt.body, State(bound, w, s.depth));
        var after := State(Pop(body.s.b), body.s.w, s.depth);
        if body.error.Some? then Exec(body.error, after)
        else ExecLoop(env, stmt, collection, items[1..], after)
  }
}
