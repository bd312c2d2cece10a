// The interpreter as the engine runs it: an execution context whose frames, results and meter
// are updated in place, and methods whose effect is exactly that of the reference interpreter.

module Runtime {
  import opened Wrappers
  import opened Core
  import opened Failures
  import opened Operators
  import opened Ir
  import opened Semantics
  import opened Ast
  import opened Compiler
  import opened Execution
  import opened WriteOutcomes

  class ResourceMeter {
    var toolCalls: nat
    var loopIterations: nat
    var emittedRows: nat
    var maxCollectionSeen: nat

    constructor ()
      ensures Usage() == Meter(0, 0, 0, 0)
    {
      toolCalls, loopIterations, emittedRows, maxCollectionSeen := 0, 0, 0, 0;
    }

    function Usage(): Meter
      reads this
    {
      Meter(toolCalls, loopIterations, emittedRows, maxCollectionSeen)
    }
  }

  // The guard holds no counts of its own: it spends from the meter it was given.
  class ResourceGuard {
    const limits: Limits
    const meter: ResourceMeter

    constructor (limits: Limits, meter: ResourceMeter)
      ensures this.limits == limits && this.meter == meter
    {
      this.limits, this.meter := limits, meter;
    }

    method BeforeToolCall() returns (error: Option<Failure>)
      modifies meter
      ensures error == if old(meter.toolCalls) >= limits.toolCalls then Some(LimitExceeded(ToolCalls)) else None
      ensures meter.Usage() == if error.Some? then old(meter.Usage()) else old(meter.Usage()).(toolCalls := old(meter.toolCalls) + 1)
    {
      if meter.toolCalls >= limits.toolCalls {
        return Some(LimitExceeded(ToolCalls));
      }
      meter.toolCalls := meter.toolCalls + 1;
      return None;
    }

    method BeforeLoopIteration() returns (error: Option<Failure>)
      modifies meter
      ensures error == if old(meter.loopIterations) >= limits.loopIterations then Some(LimitExceeded(LoopIterations)) else None
      ensures meter.Usage() == if error.Some? then old(meter.Usage()) else old(meter.Usage()).(loopIterations := old(meter.loopIterations) + 1)
    {
      if meter.loopIterations >= limits.loopIterations {
        return Some(LimitExceeded(LoopIterations));
      }
      meter.loopIterations := meter.loopIterations + 1;
      return None;
    }

    method BeforeEmit() returns (error: Option<Failure>)
      ensures error == if meter.emittedRows >= limits.emittedRows then Some(LimitExceeded(EmittedRows)) else None
    {
      return if meter.emittedRows >= limits.emittedRows then Some(LimitExceeded(EmittedRows)) else None;
    }

    method RecordEmit()
      modifies meter
      ensures meter.Usage() == old(meter.Usage()).(emittedRows := old(meter.emittedRows) + 1)
    {
      meter.emittedRows := meter.emittedRows + 1;
    }

    method CheckCollection(size: nat) returns (error: Option<Failure>)
      ensures error == if size > limits.collectionSize then Some(LimitExceeded(CollectionSize)) else None
    {
      return if size > limits.collectionSize then Some(LimitExceeded(CollectionSize)) else None;
    }

    // The size is recorded whether or not it is within the limit.
    method ObserveCollection(size: nat) returns (error: Option<Failure>)
      modifies meter
      ensures error == if size > limits.collectionSize then Some(LimitExceeded(CollectionSize)) else None
      ensures meter.Usage() == old(meter.Usage()).(maxCollectionSeen := MaxNat(old(meter.maxCollectionSeen), size))
    {
      meter.maxCollectionSeen := MaxNat(meter.maxCollectionSeen, size);
      error := CheckCollection(size);
    }
  }

  datatype ApprovalStatus = NOT_REQUESTED | PENDING | APPROVED | REJECTED | EXPIRED

  // What a context remembers about its checkpoints and the WRITE they guard.
  datatype CheckpointState = CheckpointState(
    version: nat,
    lastCompletedNode: Option<string>,
    suspendedAtNode: Option<string>,
    traceSequence: nat,
    approvalRequestPublished: bool,
    writeRequestDurable: bool,
    approvalRequestIds: map<string, string>,
    writeIntentHashes: map<string, string>,
    payloadHashes: map<string, string>)

  const NO_CHECKPOINT := CheckpointState(0, None, None, 0, false, false, map[], map[], map[])

  // Everything a context holds beside its bindings, results and counters.
  datatype Controls = Controls(
    currentNode: Option<string>,
    approvals: map<string, ApprovalStatus>,
    journal: seq<JournalEntry>,
    keysByWriteNode: map<string, string>,
    payloadHashesByWriteNode: map<string, string>,
    checkpoint: CheckpointState)

  class ExecutionContext {
    var inputValues: Frame
    var contextValues: Frame
    var frames: seq<Frame>
    var checkFrames: seq<Frame>
    var checks: seq<CheckResult>
    var outputs: seq<Row>
    var dataCompleteness: Completeness
    var invocationCounter: nat
    var foreachDepth: nat
    var controls: Controls
    const resources: ResourceMeter
    const resourceGuard: ResourceGuard

    constructor (limits: Limits)
      ensures Valid() && fresh(resources)
      ensures resourceGuard.limits == limits
      ensures Bound() == Bindings(map[], map[], [map[]], [map[]])
      ensures Spent([]) == Ledger([], [], Meter(0, 0, 0, 0), COMPLETE, 0, [])
      ensures foreachDepth == 0 && controls == Controls(None, map[], [], map[], map[], NO_CHECKPOINT)
    {
      inputValues, contextValues, frames, checkFrames := map[], map[], [map[]], [map[]];
      checks, outputs, dataCompleteness, invocationCounter, foreachDepth := [], [], COMPLETE, 0, 0;
      controls := Controls(None, map[], [], map[], map[], NO_CHECKPOINT);
      var meter := new ResourceMeter();
      resources := meter;
      resourceGuard := new ResourceGuard(limits, meter);
    }

    // The guard spends from the context's own meter.
    predicate Valid()
      reads this
    {
      resourceGuard.meter == resources && Framed(Bound())
    }

    function Bound(): Bindings
      reads this
    {
      Bindings(inputValues, contextValues, frames, checkFrames)
    }

    function Spent(trace: seq<ToolEvent>): Ledger
      reads this, resources
    {
      Ledger(checks, outputs, resources.Usage(), dataCompleteness, invocationCounter, trace)
    }

    function RunState(trace: seq<ToolEvent>): State
      reads this, resources
    {
      State(Bound(), Spent(trace), foreachDepth)
    }

    method BoundAlready(id: SymbolId) returns (bound: bool)
      ensures bound == IsBound(Bound(), id)
    {
      bound := id in inputValues || id in contextValues;
      for i := 0 to |frames|
        invariant bound == (id in inputValues || id in contextValues || InSomeFrame(frames[..i], id))
      {
        assert frames[..i + 1] == frames[..i] + [frames[i]];
        InSomeFrameSplits(frames[..i], frames[i], id);
        bound := bound || id in frames[i];
      }
      assert frames[..|frames|] == frames;
      for i := 0 to |checkFrames|
        invariant bound == (id in inputValues || id in contextValues || InSomeFrame(frames, id) || InSomeFrame(checkFrames[..i], id))
      {
        assert checkFrames[..i + 1] == checkFrames[..i] + [checkFrames[i]];
        InSomeFrameSplits(checkFrames[..i], checkFrames[i], id);
        bound := bound || id in checkFrames[i];
      }
      assert checkFrames[..|checkFrames|] == checkFrames;
    }

    method BindInput(id: SymbolId, x: Envelope) returns (ok: bool)
      modifies this`inputValues
      ensures ok == !old(IsBound(Bound(), id))
      ensures inputValues == if ok then old(inputValues)[id := x] else old(inputValues)
    {
      var bound := BoundAlready(id);
      ok := !bound;
      if ok {
        inputValues := inputValues[id := x];
      }
    }

    method BindContext(id: SymbolId, x: Envelope) returns (ok: bool)
      modifies this`contextValues
      ensures ok == !old(IsBound(Bound(), id))
      ensures contextValues == if ok then old(contextValues)[id := x] else old(contextValues)
    {
      var bound := BoundAlready(id);
      ok := !bound;
      if ok {
        contextValues := contextValues[id := x];
      }
    }

    method BindValue(id: SymbolId, x: Envelope) returns (ok: bool)
      requires Valid()
      modifies this`frames
      ensures Valid()
      ensures ok == !old(IsBound(Bound(), id))
      ensures Bound() == if ok then Bind(old(Bound()), id, x) else old(Bound())
    {
      var bound := BoundAlready(id);
      ok := !bound;
      if ok {
        var n := |frames| - 1;
        var top: Frame := frames[n][id := x];
        frames := frames[n := top];
      }
    }

    method BindCheckResult(id: SymbolId, x: Envelope) returns (ok: bool)
      requires Valid()
      modifies this`checkFrames
      ensures Valid()
      ensures ok == !old(IsBound(Bound(), id))
      ensures Bound() == if ok then BindCheck(old(Bound()), id, x) else old(Bound())
    {
      var bound := BoundAlready(id);
      ok := !bound;
      if ok {
        var n := |checkFrames| - 1;
        var top: Frame := checkFrames[n][id := x];
        checkFrames := checkFrames[n := top];
      }
    }

    method PushFrame()
      requires Valid()
      modifies this`frames, this`checkFrames
      ensures Valid() && Bound() == Push(old(Bound()))
    {
      frames := frames + [map[]];
      checkFrames := checkFrames + [map[]];
    }

    // The root frame stays.
    method PopFrame() returns (ok: bool)
      requires Valid()
      modifies this`frames, this`checkFrames
      ensures Valid() && ok == (|old(frames)| > 1)
      ensures Bound() == if ok then Pop(old(Bound())) else old(Bound())
    {
      ok := |frames| > 1;
      if ok {
        frames := frames[..|frames| - 1];
        checkFrames := checkFrames[..|checkFrames| - 1];
      }
    }

    method ResolveSymbol(id: SymbolId) returns (r: Option<Envelope>)
      ensures r == Resolve(Bound(), id)
    {
      r := SearchFrames(frames, id);
      if r.None? {
        r := SearchFrames(checkFrames, id);
      }
      if r.None? {
        if id in contextValues {
          r := Some(contextValues[id]);
        } else if id in inputValues {
          r := Some(inputValues[id]);
        }
      }
    }

    method ObserveCompleteness(seen: Completeness)
      modifies this`dataCompleteness
      ensures dataCompleteness == Observe(old(dataCompleteness), seen)
    {
      if seen == UNKNOWN {
        dataCompleteness := UNKNOWN;
      } else if seen == PARTIAL && dataCompleteness == COMPLETE {
        dataCompleteness := PARTIAL;
      }
    }
  }

  lemma {:induction false} InSomeFrameSplits(front: seq<Frame>, last: Frame, id: SymbolId)
    ensures InSomeFrame(front + [last], id) <==> InSomeFrame(front, id) || id in last
  {
    var all := front + [last];
    if InSomeFrame(front, id) {
      var i :| 0 <= i < |front| && id in front[i];
      assert id in all[i];
    } else if id in last {
      assert id in all[|front|];
    }
  }

  method SearchFrames(frames: seq<Frame>, id: SymbolId) returns (r: Option<Envelope>)
    ensures r == Innermost(frames, id)
  {
    var i := |frames|;
    assert frames[..i] == frames;
    while i > 0
      invariant 0 <= i <= |frames|
      invariant Innermost(frames, id) == Innermost(frames[..i], id)
    {
      i := i - 1;
      assert frames[..i + 1][..i] == frames[..i];
      if id in frames[i] {
        return Some(frames[i][id]);
      }
    }
    return None;
  }

  class ToolPort {
    const answer: Port
    var trace: seq<ToolEvent>

    constructor (answer: Port)
      ensures this.answer == answer && trace == []
    {
      this.answer, trace := answer, [];
    }

    method Execute(request: ToolRequest) returns (reply: Reply)
      modifies this`trace
      ensures reply == answer(old(trace), request)
      ensures trace == old(trace) + [ToolEvent(request, reply)]
    {
      reply := answer(trace, request);
      trace := trace + [ToolEvent(request, reply)];
    }
  }

  // What remains of a list evaluation once a prefix is done.
  function Prepended<T>(done: seq<T>, rest: Eval<seq<T>>): Eval<seq<T>> {
    match rest.res
    case Err(_) => rest
    case Ok(xs) => Eval(Ok(done + xs), rest.w)
  }

  lemma PrependingNothing<T>(rest: Eval<seq<T>>, done: seq<T>)
    ensures Prepended([], rest) == rest
    ensures rest.res == Ok([]) ==> Prepended(done, rest) == Eval(Ok(done), rest.w)
  {
    if rest.res.Ok? {
      assert [] + rest.res.value == rest.res.value;
      assert done + [] == done;
    }
  }

  lemma PrependingOne<T>(done: seq<T>, next: T, rest: Eval<seq<T>>)
    ensures Prepended(done, Prepended([next], rest)) == Prepended(done + [next], rest)
  {
    if rest.res.Ok? {
      assert done + ([next] + rest.res.value) == done + [next] + rest.res.value;
    }
  }

  class RuntimeEngine {
    const outputs: seq<OutputField>
    const tools: map<ToolRef, Contract>
    const authorized: set<ToolRef>

    constructor (outputs: seq<OutputField>, tools: map<ToolRef, Contract>, authorized: set<ToolRef>)
      ensures this.outputs == outputs && this.tools == tools && this.authorized == authorized
    {
      this.outputs, this.tools, this.authorized := outputs, tools, authorized;
    }

    function EnvOf(ctx: ExecutionContext, port: ToolPort): Env {
      Env(ctx.resourceGuard.limits, outputs, tools, authorized, port.answer)
    }

    method Evaluate(ctx: ExecutionContext, e: Expr, port: ToolPort) returns (r: Result<Envelope, Failure>)
      requires ctx.Valid()
      modifies ctx`dataCompleteness, ctx`invocationCounter, ctx.resources, port`trace
      ensures Eval(r, ctx.Spent(port.trace)) == old(EvalExpr(EnvOf(ctx, port), ctx.Bound(), e, ctx.Spent(port.trace)))
      decreases e, 3
    {
      if e.Write? {
        return Err(RawError);
      }
      r := EvaluateNode(ctx, e, port);
      match r {
        case Err(f) =>
          return Err(if f == RawError && !e.Read? then EvaluationError else f);
        case Ok(x) =>
          if x.ty != e.ty {
            return Err(TypeMismatch);
          }
          ctx.ObserveCompleteness(x.completeness);
          if x.value.VList? {
            var error := ctx.resourceGuard.CheckCollection(|x.value.items|);
            if error.Some? {
              return Err(error.value);
            }
          }
      }
    }

    method EvaluateNode(ctx: ExecutionContext, e: Expr, port: ToolPort) returns (r: Result<Envelope, Failure>)
      requires ctx.Valid() && !e.Write?
      modifies ctx`dataCompleteness, ctx`invocationCounter, ctx.resources, port`trace
      ensures Eval(r, ctx.Spent(port.trace)) == old(EvalNode(EnvOf(ctx, port), ctx.Bound(), e, ctx.Spent(port.trace)))
      decreases e, 2
    {
      match e {
        case Literal(_, v, ty) =>
          r := Ok(CompleteEnvelope(v, ty, PUBLIC, []));
        case SymbolRef(_, symbol, _) =>
          var found := ctx.ResolveSymbol(symbol);
          r := match found case Some(x) => Ok(x) case None => Err(UnknownSymbol);
        case Field(_, source, field, ty) =>
          var x := Evaluate(ctx, source, port);
          r := match x case Ok(v) => GetField(v, field, ty) case Err(f) => x;
        case Projection(_, source, field, ty) =>
          var x := Evaluate(ctx, source, port);
          r := match x case Ok(v) => Project(v, field, ty) case Err(f) => x;
        case Call(_, f, operands, ty) =>
          var xs := EvaluateOperands(ctx, e, port);
          r := match xs case Ok(vs) => ApplyCall(f, vs, ty) case Err(g) => Err(g);
        case Binary(_, op, left, right, ty) =>
          var x := Evaluate(ctx, left, port);
          if x.Err? {
            return x;
          }
          var y := Evaluate(ctx, right, port);
          r := match y case Ok(v) => CombineBinary(op, x.value, v, ty) case Err(f) => y;
        case Read(_, tool, arguments, _, policy) =>
          r := ExecuteRead(ctx, e, port);
      }
    }

    method EvaluateOperands(ctx: ExecutionContext, e: Expr, port: ToolPort) returns (r: Result<seq<Envelope>, Failure>)
      requires ctx.Valid() && e.Call?
      modifies ctx`dataCompleteness, ctx`invocationCounter, ctx.resources, port`trace
      ensures Eval(r, ctx.Spent(port.trace)) == old(EvalOperands(EnvOf(ctx, port), ctx.Bound(), e.operands, ctx.Spent(port.trace)))
      decreases e, 1
    {
      var es := e.operands;
      var values: seq<Envelope> := [];
      ghost var env, b, spent := EnvOf(ctx, port), ctx.Bound(), ctx.Spent(port.trace);
      assert es[0..] == es;
      PrependingNothing(EvalOperands(env, b, es, spent), []);
      ghost var w := spent;
      for i := 0 to |es|
        invariant ctx.Bound() == b && w == ctx.Spent(port.trace)
        invariant EvalOperands(env, b, es, spent) == Prepended(values, EvalOperands(env, b, es[i..], w))
      {
        assert es[i..][0] == es[i] && es[i..][1..] == es[i + 1..];
        OperandsUnfold(env, b, es[i..], w);
        hide EvalExpr, EvalOperands;
        var x := Evaluate(ctx, es[i], port);
        if x.Err? {
          return Err(x.error);
        }
        w := ctx.Spent(port.trace);
        ghost var rest := EvalOperands(env, b, es[i + 1..], w);
        assert rest.res.Ok? ==> values + ([x.value] + rest.res.value) == values + [x.value] + rest.res.value;
        values := values + [x.value];
      }
      PrependingNothing(EvalOperands(env, b, es[|es|..], w), values);
      return Ok(values);
    }

    method EvaluateArguments(ctx: ExecutionContext, e: Expr, port: ToolPort) returns (r: Result<seq<NamedEnvelope>, Failure>)
      requires ctx.Valid() && e.Read?
      modifies ctx`dataCompleteness, ctx`invocationCounter, ctx.resources, port`trace
      ensures Eval(r, ctx.Spent(port.trace)) == old(EvalArguments(EnvOf(ctx, port), ctx.Bound(), e.arguments, ctx.Spent(port.trace)))
      decreases e, 0
    {
      var args := e.arguments;
      var values: seq<NamedEnvelope> := [];
      ghost var env, b, spent := EnvOf(ctx, port), ctx.Bound(), ctx.Spent(port.trace);
      assert args[0..] == args;
      PrependingNothing(EvalArguments(env, b, args, spent), []);
      ghost var w := spent;
      for i := 0 to |args|
        invariant ctx.Bound() == b && w == ctx.Spent(port.trace)
        invariant EvalArguments(env, b, args, spent) == Prepended(values, EvalArguments(env, b, args[i..], w))
      {
        assert args[i..][0] == args[i] && args[i..][1..] == args[i + 1..];
        ArgumentsUnfold(env, b, args[i..], w);
        hide EvalExpr, EvalArguments;
        var x := Evaluate(ctx, args[i].value, port);
        if x.Err? {
          return Err(x.error);
        }
        w := ctx.Spent(port.trace);
        var named := NamedEnvelope(args[i].name, x.value);
        PrependingOne(values, named, EvalArguments(env, b, args[i + 1..], w));
        values := values + [named];
      }
      PrependingNothing(EvalArguments(env, b, args[|args|..], w), values);
      return Ok(values);
    }

    method ExecuteRead(ctx: ExecutionContext, e: Expr, port: ToolPort) returns (r: Result<Envelope, Failure>)
      requires ctx.Valid() && e.Read?
      modifies ctx`dataCompleteness, ctx`invocationCounter, ctx.resources, port`trace
      ensures Eval(r, ctx.Spent(port.trace)) == old(EvalNode(EnvOf(ctx, port), ctx.Bound(), e, ctx.Spent(port.trace)))
      decreases e, 1
    {
      if e.tool !in tools {
        return Err(UnregisteredTool);
      }
      var contract := tools[e.tool];
      if !NamesMatch(ArgumentNames(e.arguments), FieldNames(contract.inputs)) {
        return Err(Tool(ArgumentMismatch));
      }
      if e.tool !in authorized {
        return Err(Unauthorized);
      }
      var args := EvaluateArguments(ctx, e, port);
      if args.Err? {
        return Err(args.error);
      }
      r := InvokeTool(ctx, contract, args.value, e.policy, port);
    }

    method InvokeTool(ctx: ExecutionContext, contract: Contract, args: seq<NamedEnvelope>, policy: ResultPolicy, port: ToolPort)
      returns (r: Result<Envelope, Failure>)
      requires ctx.Valid()
      modifies ctx`invocationCounter, ctx.resources, port`trace
      ensures Eval(r, ctx.Spent(port.trace)) == old(CallTool(EnvOf(ctx, port), contract, args, policy, ctx.Spent(port.trace)))
    {
      var limit := ctx.resourceGuard.BeforeToolCall();
      if limit.Some? {
        return Err(limit.value);
      }
      ctx.invocationCounter := ctx.invocationCounter + 1;
      if !ArgumentsConform(contract, args) {
        return Err(Tool(ArgumentTypeMismatch));
      }
      var request := ToolRequest(ctx.invocationCounter, contract.toolId, contract.version, args);
      var reply := port.Execute(request);
      match ValidateReply(contract, request, policy, reply) {
        case Err(f) =>
          return Err(f);
        case Ok(t) =>
          if t.value.VList? {
            var error := ctx.resourceGuard.ObserveCollection(|t.value.items|);
            if error.Some? {
              return Err(error.value);
            }
          }
          return Ok(Envelope(t.value, t.ty, t.presence, t.completeness, t.cls, [Provenance(request.invocation, t.digest)]));
      }
    }

    method ExecuteBlock(ctx: ExecutionContext, stmts: seq<Stmt>, port: ToolPort) returns (error: Option<Failure>)
      requires ctx.Valid()
      modifies ctx, ctx.resources, port`trace
      ensures ctx.Valid() && ctx.controls == old(ctx.controls)
      ensures Exec(error, ctx.RunState(port.trace)) == old(ExecBlock(EnvOf(ctx, port), stmts, ctx.RunState(port.trace)))
      decreases stmts, 3, 0
    {
      ghost var env, start := EnvOf(ctx, port), ctx.RunState(port.trace);
      assert stmts[0..] == stmts;
      for i := 0 to |stmts|
        invariant ctx.Valid() && ctx.controls == old(ctx.controls)
        invariant ExecBlock(env, stmts, start) == ExecBlock(env, stmts[i..], ctx.RunState(port.trace))
      {
        assert stmts[i..][0] == stmts[i] && stmts[i..][1..] == stmts[i + 1..];
        hide ExecStmt;
        error := ExecuteStmt(ctx, stmts[i], port);
        if error.Some? {
          return;
        }
      }
      return None;
    }

    method ExecuteStmt(ctx: ExecutionContext, stmt: Stmt, port: ToolPort) returns (error: Option<Failure>)
      requires ctx.Valid()
      modifies ctx, ctx.resources, port`trace
      ensures ctx.Valid() && ctx.controls == old(ctx.controls)
      ensures Exec(error, ctx.RunState(port.trace)) == old(ExecStmt(EnvOf(ctx, port), stmt, ctx.RunState(port.trace)))
      decreases stmt, 2, 0
    {
      match stmt {
        case Let(_, target, value) =>
          var x := Evaluate(ctx, value, port);
          if x.Err? {
            return Some(x.error);
          }
          var ok := ctx.BindValue(target, x.value);
          error := if ok then None else Some(ImmutableBinding);
        case Check(_, _, _, _, _, _, _) =>
          error := ExecuteCheck(ctx, stmt, port);
        case Emit(_, _) =>
          error := ExecuteEmit(ctx, stmt, port);
        case Foreach(_, _, _, _, _) =>
          error := ExecuteForeach(ctx, stmt, port);
        case Approval(_, _, _, _) =>
          error := Some(RawError);
      }
    }

    method ExecuteCheck(ctx: ExecutionContext, stmt: Stmt, port: ToolPort) returns (error: Option<Failure>)
      requires ctx.Valid() && stmt.Check?
      modifies ctx, ctx.resources, port`trace
      ensures ctx.Valid() && ctx.controls == old(ctx.controls)
      ensures Exec(error, ctx.RunState(port.trace)) == old(ExecCheck(EnvOf(ctx, port), stmt, ctx.RunState(port.trace)))
    {
      var x := Evaluate(ctx, stmt.condition, port);
      if x.Err? {
        return Some(x.error);
      }
      var judged := JudgeCheck(stmt.checkId, stmt.severity, stmt.message, x.value);
      if judged.Err? {
        return Some(judged.error);
      }
      ctx.checks := ctx.checks + [judged.value];
      var ok := ctx.BindCheckResult(stmt.result, CheckEnvelope(judged.value));
      error := if ok then None else Some(ImmutableBinding);
    }

    method ExecuteEmit(ctx: ExecutionContext, stmt: Stmt, port: ToolPort) returns (error: Option<Failure>)
      requires ctx.Valid() && stmt.Emit?
      modifies ctx, ctx.resources, port`trace
      ensures ctx.Valid() && ctx.controls == old(ctx.controls)
      ensures Exec(error, ctx.RunState(port.trace)) == old(ExecStmt(EnvOf(ctx, port), stmt, ctx.RunState(port.trace)))
    {
      hide EmitFields, RowOf, ExecLet, ExecCheck, ExecForeach;
      error := ctx.resourceGuard.BeforeEmit();
      if error.Some? {
        return;
      }
      if !EmitSchemaOk(outputs, stmt.fields) {
        return Some(EmitSchema);
      }
      SchemaNamesKnown(outputs, stmt.fields);
      var evaluated := EvaluateFields(ctx, stmt, port);
      if evaluated.Err? {
        return Some(evaluated.error);
      }
      var row := GatherRow(evaluated.value);
      ctx.outputs := ctx.outputs + [row];
      ctx.resourceGuard.RecordEmit();
      return None;
    }

    // The fields in the order the statement lists them, checked one by one.
    method EvaluateFields(ctx: ExecutionContext, stmt: Stmt, port: ToolPort) returns (r: Result<seq<NamedEnvelope>, Failure>)
      requires ctx.Valid() && stmt.Emit?
      requires forall i | 0 <= i < |stmt.fields| :: stmt.fields[i].name in OutputNames(outputs)
      modifies ctx`dataCompleteness, ctx`invocationCounter, ctx.resources, port`trace
      ensures Eval(r, ctx.Spent(port.trace)) == old(EmitFields(EnvOf(ctx, port), ctx.Bound(), stmt.fields, ctx.Spent(port.trace)))
    {
      var fields := stmt.fields;
      var values: seq<NamedEnvelope> := [];
      ghost var env, b, spent := EnvOf(ctx, port), ctx.Bound(), ctx.Spent(port.trace);
      assert fields[0..] == fields;
      PrependingNothing(EmitFields(env, b, fields, spent), []);
      ghost var w := spent;
      for i := 0 to |fields|
        invariant ctx.Bound() == b && w == ctx.Spent(port.trace)
        invariant EmitFields(env, b, fields, spent) == Prepended(values, EmitFields(env, b, fields[i..], w))
      {
        assert fields[i..][0] == fields[i] && fields[i..][1..] == fields[i + 1..];
        FieldsUnfold(env, b, fields[i..], w);
        hide EmitFields, FieldStep;
        var x := EvaluateField(ctx, fields[i], port);
        if x.Err? {
          return Err(x.error);
        }
        w := ctx.Spent(port.trace);
        var named := NamedEnvelope(fields[i].name, x.value);
        PrependingOne(values, named, EmitFields(env, b, fields[i + 1..], w));
        values := values + [named];
      }
      PrependingNothing(EmitFields(env, b, fields[|fields|..], w), values);
      return Ok(values);
    }

    method EvaluateField(ctx: ExecutionContext, field: Argument, port: ToolPort) returns (r: Result<Envelope, Failure>)
      requires ctx.Valid() && field.name in OutputNames(outputs)
      modifies ctx`dataCompleteness, ctx`invocationCounter, ctx.resources, port`trace
      ensures Eval(r, ctx.Spent(port.trace)) == old(FieldStep(EnvOf(ctx, port), ctx.Bound(), field, ctx.Spent(port.trace)))
    {
      var output := LookupOutput(outputs, field.name);
      if field.value.ty != output.ty {
        return Err(EmitType);
      }
      r := Evaluate(ctx, field.value, port);
      if r.Ok? {
        if !RuntimeTypeOk(r.value.value, output.ty) {
          return Err(EmitValue);
        }
        if !Allows(r.value.cls, output.cls) {
          return Err(EmitClassification);
        }
      }
    }

    // The nesting counter comes back down on every path.
    method ExecuteForeach(ctx: ExecutionContext, stmt: Stmt, port: ToolPort) returns (error: Option<Failure>)
      requires ctx.Valid() && stmt.Foreach?
      modifies ctx, ctx.resources, port`trace
      ensures ctx.Valid() && ctx.controls == old(ctx.controls)
      ensures Exec(error, ctx.RunState(port.trace)) == old(ExecForeach(EnvOf(ctx, port), stmt, ctx.RunState(port.trace)))
      decreases stmt, 1, 0
    {
      if ctx.foreachDepth >= MAX_FOREACH_NESTING_DEPTH {
        return Some(LimitExceeded(ForeachNesting));
      }
      ctx.foreachDepth := ctx.foreachDepth + 1;
      error := ExecuteForeachBody(ctx, stmt, port);
      ctx.foreachDepth := ctx.foreachDepth - 1;
    }

    method ExecuteForeachBody(ctx: ExecutionContext, stmt: Stmt, port: ToolPort) returns (error: Option<Failure>)
      requires ctx.Valid() && stmt.Foreach? && 1 <= ctx.foreachDepth <= MAX_FOREACH_NESTING_DEPTH
      modifies ctx, ctx.resources, port`trace
      ensures ctx.Valid() && ctx.controls == old(ctx.controls)
      ensures ctx.foreachDepth == old(ctx.foreachDepth)
      ensures Exec(error, ctx.RunState(port.trace).(depth := ctx.foreachDepth - 1))
        == old(ExecForeach(EnvOf(ctx, port), stmt, ctx.RunState(port.trace).(depth := ctx.foreachDepth - 1)))
      decreases stmt, 0, 2
    {
      hide EvalExpr, ExecLoop;
      var collection := Evaluate(ctx, stmt.collection, port);
      if collection.Err? {
        return Some(collection.error);
      }
      var elements := Elements(collection.value.value);
      if elements.None? {
        return Some(RawError);
      }
      var items := elements.value;
      if |items| > stmt.maxIterations {
        return Some(LimitExceeded(ForeachMax));
      }
      error := ExecuteIterations(ctx, stmt, collection.value, items, port);
    }

    method ExecuteIterations(ctx: ExecutionContext, stmt: Stmt, collection: Envelope, items: seq<Value>, port: ToolPort)
      returns (error: Option<Failure>)
      requires ctx.Valid() && stmt.Foreach?
      modifies ctx, ctx.resources, port`trace
      ensures ctx.Valid() && ctx.controls == old(ctx.controls)
      ensures Exec(error, ctx.RunState(port.trace)) == old(ExecLoop(EnvOf(ctx, port), stmt, collection, items, ctx.RunState(port.trace)))
      decreases stmt, 0, 1
    {
      ghost var env, start := EnvOf(ctx, port), ctx.RunState(port.trace);
      ghost var s := start;
      hide ExecLoop, Iteration, ItemEnvelope;
      assert items[0..] == items;
      for i := 0 to |items|
        invariant ctx.Valid() && ctx.controls == old(ctx.controls)
        invariant s == ctx.RunState(port.trace) && Framed(s.b)
        invariant ExecLoop(env, stmt, collection, items, start) == ExecLoop(env, stmt, collection, items[i..], s)
      {
        assert items[i..][0] == items[i] && items[i..][1..] == items[i + 1..];
        LoopUnfolds(env, stmt, collection, items[i..], s);
        error := ctx.resourceGuard.BeforeLoopIteration();
        if error.Some? {
          return;
        }
        ghost var counted := s.(w := s.w.(meter := s.w.meter.(loopIterations := s.w.meter.loopIterations + 1)));
        assert ctx.RunState(port.trace) == counted;
        hide Iteration, ItemEnvelope, ExecLoop, ctx.Bound, ctx.Spent, ctx.RunState, Framed;
        error := ExecuteIteration(ctx, stmt, ItemEnvelope(collection, items[i]), port);
        s := Iteration(env, stmt, ItemEnvelope(collection, items[i]), counted).s;
        if error.Some? {
          return;
        }
      }
      LoopEnds(env, stmt, collection, s);
      assert items[|items|..] == [];
      return None;
    }

    // One iteration, in a frame of its own that is popped on every path.
    method ExecuteIteration(ctx: ExecutionContext, stmt: Stmt, item: Envelope, port: ToolPort) returns (error: Option<Failure>)
      requires ctx.Valid() && stmt.Foreach?
      modifies ctx, ctx.resources, port`trace
      ensures ctx.Valid() && ctx.controls == old(ctx.controls)
      ensures Exec(error, ctx.RunState(port.trace)) == old(Iteration(EnvOf(ctx, port), stmt, item, ctx.RunState(port.trace)))
      decreases stmt, 0, 0
    {
      hide ExecBlock, BindTop;
      ghost var b := ctx.Bound();
      ctx.PushFrame();
      assert Pop(ctx.Bound()) == b;
      var bound := ctx.BindValue(stmt.loopVariable, item);
      if bound {
        error := ExecuteBlock(ctx, stmt.body, port);
      } else {
        error := Some(ImmutableBinding);
      }
      var popped := ctx.PopFrame();
    }

    // Every declared value is checked before any is bound; sizes are observed as they are checked.
    method ValidateInputs(ctx: ExecutionContext, fields: seq<AstField>, inputs: map<string, Value>) returns (r: Result<seq<Envelope>, BindFailure>)
      requires ctx.Valid()
      modifies ctx.resources
      ensures ctx.Valid()
      ensures match old(AdmitInputs(ctx.resourceGuard.limits, fields, inputs, ctx.resources.maxCollectionSeen))
        case Err(f) => r == Err(f)
        case Ok(a) => r == Ok(a.values) && ctx.resources.Usage() == old(ctx.resources.Usage()).(maxCollectionSeen := a.seen)
    {
      var values: seq<Envelope> := [];
      var limits := ctx.resourceGuard.limits;
      ghost var seen := ctx.resources.maxCollectionSeen;
      assert fields[0..] == fields;
      AdmittingEnds([], AdmitInputs(limits, fields, inputs, seen));
      for i := 0 to |fields|
        invariant ctx.resources.Usage() == old(ctx.resources.Usage()).(maxCollectionSeen := ctx.resources.maxCollectionSeen)
        invariant AdmitInputs(limits, fields, inputs, seen) == AdmittedAfter(values, AdmitInputs(limits, fields[i..], inputs, ctx.resources.maxCollectionSeen))
      {
        assert fields[i..][0] == fields[i] && fields[i..][1..] == fields[i + 1..];
        if fields[i].name !in inputs {
          return Err(MissingInput);
        }
        ghost var was := ctx.resources.maxCollectionSeen;
        var x := ValidateValue(ctx, fields[i], inputs[fields[i].name]);
        if x.Err? {
          return Err(x.error);
        }
        ghost var now := ctx.resources.maxCollectionSeen;
        ghost var before := AdmitInputs(limits, fields[i..], inputs, was);
        AdmittingMore(values, x.value, AdmitInputs(limits, fields[i + 1..], inputs, now), before);
        values := values + [x.value];
      }
      AdmittingEnds(values, AdmitInputs(limits, fields[|fields|..], inputs, ctx.resources.maxCollectionSeen));
      return Ok(values);
    }

    method ValidateContexts(ctx: ExecutionContext, fields: seq<AstField>, context: Value) returns (r: Result<seq<Envelope>, BindFailure>)
      requires ctx.Valid()
      modifies ctx.resources
      ensures ctx.Valid()
      ensures match old(AdmitContexts(ctx.resourceGuard.limits, fields, context, ctx.resources.maxCollectionSeen))
        case Err(f) => r == Err(f)
        case Ok(a) => r == Ok(a.values) && ctx.resources.Usage() == old(ctx.resources.Usage()).(maxCollectionSeen := a.seen)
    {
      var values: seq<Envelope> := [];
      var limits := ctx.resourceGuard.limits;
      ghost var seen := ctx.resources.maxCollectionSeen;
      assert fields[0..] == fields;
      AdmittingEnds([], AdmitContexts(limits, fields, context, seen));
      for i := 0 to |fields|
        invariant ctx.resources.Usage() == old(ctx.resources.Usage()).(maxCollectionSeen := ctx.resources.maxCollectionSeen)
        invariant AdmitContexts(limits, fields, context, seen) == AdmittedAfter(values, AdmitContexts(limits, fields[i..], context, ctx.resources.maxCollectionSeen))
      {
        assert fields[i..][0] == fields[i] && fields[i..][1..] == fields[i + 1..];
        var found := FollowPath(context, fields[i].path);
        if found.None? {
          return Err(MissingContext);
        }
        ghost var was := ctx.resources.maxCollectionSeen;
        var x := ValidateValue(ctx, fields[i], found.value);
        if x.Err? {
          return Err(x.error);
        }
        ghost var now := ctx.resources.maxCollectionSeen;
        ghost var before := AdmitContexts(limits, fields[i..], context, was);
        AdmittingMore(values, x.value, AdmitContexts(limits, fields[i + 1..], context, now), before);
        values := values + [x.value];
      }
      AdmittingEnds(values, AdmitContexts(limits, fields[|fields|..], context, ctx.resources.maxCollectionSeen));
      return Ok(values);
    }

    method FollowPath(context: Value, path: seq<string>) returns (r: Option<Value>)
      ensures r == ValueAt(context, path)
    {
      var value := context;
      assert path[0..] == path;
      for i := 0 to |path|
        invariant ValueAt(context, path) == ValueAt(value, path[i..])
      {
        assert path[i..][0] == path[i] && path[i..][1..] == path[i + 1..];
        if !value.VRecord? || path[i] !in value.fields {
          return None;
        }
        value := value.fields[path[i]];
      }
      return Some(value);
    }

    method ValidateValue(ctx: ExecutionContext, field: AstField, v: Value) returns (r: Result<Envelope, BindFailure>)
      requires ctx.Valid()
      modifies ctx.resources
      ensures match Admit(ctx.resourceGuard.limits, field, v, old(ctx.resources.maxCollectionSeen))
        case Err(f) => r == Err(f)
        case Ok((x, seen)) => r == Ok(x) && ctx.resources.Usage() == old(ctx.resources.Usage()).(maxCollectionSeen := seen)
    {
      if !RuntimeTypeOk(v, field.ty) {
        return Err(InputTypeMismatch);
      }
      if v.VList? {
        var error := ctx.resourceGuard.ObserveCollection(|v.items|);
        if error.Some? {
          return Err(InputTooLarge);
        }
      }
      return Ok(CompleteEnvelope(v, field.ty, field.cls, []));
    }

    method BindDeclared(ctx: ExecutionContext, skill: Skill, request: Request) returns (error: Option<BindFailure>)
      requires ctx.Valid() && ctx.resourceGuard.limits == skill.limits
      requires ctx.Bound() == Bindings(map[], map[], [map[]], [map[]])
      requires ctx.Spent([]) == FRESH_LEDGER && ctx.foreachDepth == 0
      modifies ctx`inputValues, ctx`contextValues, ctx.resources
      ensures ctx.Valid()
      ensures match Start(skill, request)
        case Err(f) => error == Some(f)
        case Ok(s) => error == None && ctx.RunState([]) == s
    {
      var inputs := ValidateInputs(ctx, Fields(skill.inputs), request.inputs);
      if inputs.Err? {
        return Some(inputs.error);
      }
      var contexts := ValidateContexts(ctx, Fields(skill.contexts), request.context);
      if contexts.Err? {
        return Some(contexts.error);
      }
      var ok := BindValues(ctx, skill, inputs.value, contexts.value);
      error := if ok then None else Some(SymbolBoundTwice);
    }

    method BindValues(ctx: ExecutionContext, skill: Skill, inputs: seq<Envelope>, contexts: seq<Envelope>) returns (ok: bool)
      requires ctx.Valid() && |inputs| == |skill.inputs| && |contexts| == |skill.contexts|
      requires ctx.Bound() == Bindings(map[], map[], [map[]], [map[]])
      modifies ctx`inputValues, ctx`contextValues
      ensures ok == SymbolsDistinct(skill.inputs + skill.contexts)
      ensures ok ==> ctx.inputValues == BindAll(skill.inputs, inputs, map[]) && ctx.contextValues == BindAll(skill.contexts, contexts, map[])
    {
      ghost var all := skill.inputs + skill.contexts;
      var n := |skill.inputs|;
      assert all[..n] == skill.inputs && all[n..] == skill.contexts && all[..|all|] == all;
      ok := BindInputs(ctx, skill.inputs, inputs);
      if !ok {
        DistinctPrefix(all, n);
        return;
      }
      ok := BindContexts(ctx, all, skill.contexts, contexts);
    }

    method BindInputs(ctx: ExecutionContext, specs: seq<Spec>, values: seq<Envelope>) returns (ok: bool)
      requires |values| == |specs| && ctx.Bound() == Bindings(map[], map[], [map[]], [map[]])
      modifies ctx`inputValues
      ensures ok == SymbolsDistinct(specs)
      ensures ok ==> ctx.inputValues == BindAll(specs, values, map[])
      ensures ok ==> forall id :: id in ctx.inputValues <==> Uses(specs, id)
    {
      assert specs[0..] == specs && values[0..] == values;
      for i := 0 to |specs|
        invariant ctx.contextValues == map[] && ctx.frames == ctx.checkFrames == [map[]]
        invariant SymbolsDistinct(specs[..i])
        invariant forall id :: id in ctx.inputValues <==> Uses(specs[..i], id)
        invariant BindAll(specs, values, map[]) == BindAll(specs[i..], values[i..], ctx.inputValues)
      {
        assert specs[i..][0] == specs[i] && specs[i..][1..] == specs[i + 1..] && values[i..][0] == values[i] && values[i..][1..] == values[i + 1..];
        OneMoreSymbol(specs, i);
        hide BindAll, SymbolsDistinct, Uses;
        ok := ctx.BindInput(specs[i].symbol, values[i]);
        if !ok {
          return;
        }
      }
      assert specs[..|specs|] == specs;
      return true;
    }

    method BindContexts(ctx: ExecutionContext, ghost all: seq<Spec>, specs: seq<Spec>, values: seq<Envelope>) returns (ok: bool)
      requires |values| == |specs| <= |all| && all[|all| - |specs|..] == specs && SymbolsDistinct(all[..|all| - |specs|])
      requires ctx.contextValues == map[] && ctx.frames == ctx.checkFrames == [map[]]
      requires forall id :: id in ctx.inputValues <==> Uses(all[..|all| - |specs|], id)
      modifies ctx`contextValues
      ensures ok == SymbolsDistinct(all)
      ensures ok ==> ctx.contextValues == BindAll(specs, values, map[])
    {
      ghost var n := |all| - |specs|;
      assert specs[0..] == specs && values[0..] == values;
      for i := 0 to |specs|
        invariant ctx.frames == ctx.checkFrames == [map[]]
        invariant SymbolsDistinct(all[..n + i])
        invariant forall id :: id in ctx.inputValues || id in ctx.contextValues <==> Uses(all[..n + i], id)
        invariant BindAll(specs, values, map[]) == BindAll(specs[i..], values[i..], ctx.contextValues)
      {
        assert specs[i..][0] == specs[i] && specs[i..][1..] == specs[i + 1..] && values[i..][0] == values[i] && values[i..][1..] == values[i + 1..];
        assert all[n + i] == specs[i];
        OneMoreSymbol(all, n + i);
        hide BindAll, SymbolsDistinct, Uses;
        ok := ctx.BindContext(specs[i].symbol, values[i]);
        if !ok {
          return;
        }
      }
      assert all[..n + |specs|] == all;
      return true;
    }

    // A whole run of a skill in a fresh context: what the reference interpreter says.
    method ExecuteSkill(ctx: ExecutionContext, skill: Skill, request: Request, port: ToolPort) returns (r: Result<Option<Failure>, BindFailure>)
      requires ctx.Valid() && ctx.resourceGuard.limits == skill.limits && outputs == skill.outputs && tools == skill.tools
      requires ctx.Bound() == Bindings(map[], map[], [map[]], [map[]])
      requires ctx.Spent([]) == FRESH_LEDGER && ctx.foreachDepth == 0 && port.trace == []
      modifies ctx, ctx.resources, port`trace
      ensures ctx.Valid()
      ensures match Execute(skill, request, authorized, port.answer)
        case Err(f) => r == Err(f)
        case Ok(run) => r == Ok(run.error) && ctx.RunState(port.trace) == run.s
    {
      var refused := BindDeclared(ctx, skill, request);
      if refused.Some? {
        return Err(refused.value);
      }
      var error := ExecuteBlock(ctx, skill.body, port);
      return Ok(error);
    }
  }

  predicate Uses(specs: seq<Spec>, id: SymbolId) {
    exists i :: 0 <= i < |specs| && specs[i].symbol == id
  }

  lemma {:induction false} OneMoreSymbol(all: seq<Spec>, i: nat)
    requires i < |all|
    ensures forall id :: Uses(all[..i + 1], id) <==> Uses(all[..i], id) || all[i].symbol == id
    ensures SymbolsDistinct(all[..i + 1]) <==> SymbolsDistinct(all[..i]) && !Uses(all[..i], all[i].symbol)
    ensures SymbolsDistinct(all) ==> SymbolsDistinct(all[..i + 1])
  {
    var longer := all[..i + 1];
    forall id | Uses(all[..i], id) ensures Uses(longer, id) {
      var k :| 0 <= k < i && all[..i][k].symbol == id;
      assert longer[k].symbol == id;
    }
    assert longer[i].symbol == all[i].symbol;
    forall id | Uses(longer, id) ensures Uses(all[..i], id) || all[i].symbol == id {
      var k :| 0 <= k < |longer| && longer[k].symbol == id;
      assert k < i ==> all[..i][k].symbol == id;
    }
    if SymbolsDistinct(all[..i]) && !Uses(all[..i], all[i].symbol) {
      forall a, b | 0 <= a < b < |longer| ensures longer[a].symbol != longer[b].symbol {
        assert all[..i][a].symbol == longer[a].symbol;
        assert b < i ==> all[..i][b].symbol == longer[b].symbol;
      }
    }
    if SymbolsDistinct(longer) {
      forall a, b | 0 <= a < b < i ensures all[..i][a].symbol != all[..i][b].symbol {
        assert longer[a].symbol != longer[b].symbol;
      }
      forall k | 0 <= k < i ensures all[..i][k].symbol != all[i].symbol {
        assert longer[k].symbol != longer[i].symbol;
      }
    }
  }

  lemma DistinctPrefix(all: seq<Spec>, n: nat)
    requires n <= |all| && !SymbolsDistinct(all[..n])
    ensures !SymbolsDistinct(all)
  {
    var i, j :| 0 <= i < j < n && all[..n][i].symbol == all[..n][j].symbol;
    assert all[i].symbol == all[j].symbol;
  }

  // What remains of an admission once a prefix is done.
  function AdmittedAfter(done: seq<Envelope>, rest: Result<Admitted, BindFailure>): Result<Admitted, BindFailure> {
    match rest
    case Err(f) => rest
    case Ok(a) => Ok(a.(values := done + a.values))
  }

  lemma AdmittingMore(done: seq<Envelope>, x: Envelope, rest: Result<Admitted, BindFailure>, whole: Result<Admitted, BindFailure>)
    requires whole == if rest.Err? then rest else Ok(Admitted([x] + rest.value.values, rest.value.seen))
    ensures AdmittedAfter(done, whole) == AdmittedAfter(done + [x], rest)
  {
    if rest.Ok? {
      assert done + ([x] + rest.value.values) == done + [x] + rest.value.values;
    }
  }

  lemma AdmittingEnds(done: seq<Envelope>, r: Result<Admitted, BindFailure>)
    ensures AdmittedAfter([], r) == r
    ensures r.Ok? && r.value.values == [] ==> AdmittedAfter(done, r) == Ok(Admitted(done, r.value.seen))
  {
    if r.Ok? {
      assert [] + r.value.values == r.value.values && done + [] == done;
    }
  }

  // Evaluating one emitted field against its declared output.
  function FieldStep(env: Env, b: Bindings, field: Argument, w: Ledger): Eval<Envelope>
    requires field.name in OutputNames(env.outputs)
  {
    var output := LookupOutput(env.outputs, field.name);
    if field.value.ty != output.ty then Eval(Err(EmitType), w)
    else
      var x := EvalExpr(env, b, field.value, w);
      if x.res.Err? then x
      else if !RuntimeTypeOk(x.res.value.value, output.ty) then Eval(Err(EmitValue), x.w)
      else if !Allows(x.res.value.cls, output.cls) then Eval(Err(EmitClassification), x.w)
      else x
  }

  lemma OperandsUnfold(env: Env, b: Bindings, es: seq<Expr>, w: Ledger)
    requires es != []
    ensures var first := EvalExpr(env, b, es[0], w);
      EvalOperands(env, b, es, w) ==
        if first.res.Err? then Eval(Err(first.res.error), first.w)
        else
          var rest := EvalOperands(env, b, es[1..], first.w);
          if rest.res.Err? then rest else Eval(Ok([first.res.value] + rest.res.value), rest.w)
  {
    hide EvalExpr;
  }

  lemma ArgumentsUnfold(env: Env, b: Bindings, args: seq<Argument>, w: Ledger)
    requires args != []
    ensures var first := EvalExpr(env, b, args[0].value, w);
      EvalArguments(env, b, args, w) ==
        if first.res.Err? then Eval(Err(first.res.error), first.w)
        else
          var rest := EvalArguments(env, b, args[1..], first.w);
          if rest.res.Err? then rest
          else Eval(Ok([NamedEnvelope(args[0].name, first.res.value)] + rest.res.value), rest.w)
  {
    hide EvalExpr;
  }

  lemma FieldsUnfold(env: Env, b: Bindings, fields: seq<Argument>, w: Ledger)
    requires forall i | 0 <= i < |fields| :: fields[i].name in OutputNames(env.outputs)
    requires fields != []
    ensures var first := FieldStep(env, b, fields[0], w);
      EmitFields(env, b, fields, w) ==
        if first.res.Err? then Eval(Err(first.res.error), first.w)
        else
          var rest := EmitFields(env, b, fields[1..], first.w);
          if rest.res.Err? then rest
          else Eval(Ok([NamedEnvelope(fields[0].name, first.res.value)] + rest.res.value), rest.w)
  {
    hide EvalExpr;
  }

  // What one iteration does to the state it starts in.
  function Iteration(env: Env, stmt: Stmt, item: Envelope, s: State): Exec
    requires stmt.Foreach? && Framed(s.b)
  {
    var pushed := Push(s.b);
    if IsBound(pushed, stmt.loopVariable) then Exec(Some(ImmutableBinding), s)
    else
      var body := ExecBlock(env, stmt.body, s.(b := Bind(pushed, stmt.loopVariable, item)));
      Exec(body.error, State(Pop(body.s.b), body.s.w, s.depth))
  }

  lemma LoopEnds(env: Env, stmt: Stmt, collection: Envelope, s: State)
    requires stmt.Foreach? && Framed(s.b)
    ensures ExecLoop(env, stmt, collection, [], s) == Exec(None, s)
  {
  }

  // A loop counts an iteration, runs it, and goes on unless it failed.
  lemma LoopUnfolds(env: Env, stmt: Stmt, collection: Envelope, items: seq<Value>, s: State)
    requires stmt.Foreach? && Framed(s.b) && items != []
    ensures var spent := s.w.meter.loopIterations;
      var loop := ExecLoop(env, stmt, collection, items, s);
      if spent >= env.limits.loopIterations then loop == Exec(Some(LimitExceeded(LoopIterations)), s)
      else
        var counted := s.(w := s.w.(meter := s.w.meter.(loopIterations := spent + 1)));
        var it := Iteration(env, stmt, ItemEnvelope(collection, items[0]), counted);
        it.s.b == s.b && loop == if it.error.Some? then it else ExecLoop(env, stmt, collection, items[1..], it.s)
  {
    assert Pop(Push(s.b)) == s.b;
  }

  // The evaluated fields, gathered by name.
  method GatherRow(xs: seq<NamedEnvelope>) returns (row: Row)
    ensures row == RowOf(xs)
  {
    row := map[];
    for i := 0 to |xs|
      invariant row == RowOf(xs[..i])
    {
      assert xs[..i + 1][..i] == xs[..i];
      row := row[xs[i].name := xs[i].value];
    }
    assert xs[..|xs|] == xs;
  }
}
