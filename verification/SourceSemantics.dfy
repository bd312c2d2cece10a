// What a skill means to its author: names in lexical scopes, no symbol numbers, no static types.
// Types are only the tags values carry; every field, operator and built-in is resolved on them.

module SourceSemantics {
  import opened Wrappers
  import opened Core
  import opened Failures
  import opened Operators
  import opened Ir
  import opened Semantics
  import opened Ast

  // Names visible in one lexical scope.
  type Scope = map<string, Envelope>

  datatype SourceEnv = SourceEnv(
    limits: Limits,
    outputs: seq<OutputField>,
    tools: map<string, Contract>,
    authorized: set<string>,
    port: Port)

  function Lookup(scopes: seq<Scope>, name: string): Option<Envelope> {
    if scopes == [] then None
    else if name in scopes[|scopes| - 1] then Some(scopes[|scopes| - 1][name])
    else Lookup(scopes[..|scopes| - 1], name)
  }

  function Define(scopes: seq<Scope>, name: string, x: Envelope): seq<Scope>
    requires scopes != []
  {
    scopes[|scopes| - 1 := scopes[|scopes| - 1][name := x]]
  }

  // What every evaluated expression is subject to: its completeness is observed and a list may
  // not exceed the collection limit.
  function Absorb(limits: Limits, r: Eval<Envelope>, isRead: bool): Eval<Envelope> {
    match r.res
    case Err(f) => Eval(Err(if f == RawError && !isRead then EvaluationError else f), r.w)
    case Ok(x) =>
      var seen := r.w.(completeness := Observe(r.w.completeness, x.completeness));
      if Oversized(x.value, limits) then Eval(Err(LimitExceeded(CollectionSize)), seen) else Eval(Ok(x), seen)
  }

  function Run(env: SourceEnv, scopes: seq<Scope>, e: AstExpr, w: Ledger): Eval<Envelope>
    decreases e, 1
  {
    match e
    case ALiteral(v, ty) => Absorb(env.limits, Eval(Ok(CompleteEnvelope(v, ty, PUBLIC, [])), w), false)
    case APath(root, parts) =>
      var x := match Lookup(scopes, root) case Some(x) => Ok(x) case None => Err(UnknownSymbol);
      RunPath(env.limits, Absorb(env.limits, Eval(x, w), false), parts)
    case ACall(name, operands) => Absorb(env.limits, RunCall(env, scopes, e, w), false)
    case ABinary(op, left, right) => Absorb(env.limits, RunBinary(env, scopes, e, w), false)
    case ARead(tool, arguments) => Absorb(env.limits, RunRead(env, scopes, e, w), true)
    case AWrite(_, _, _) => Eval(Err(RawError), w)
  }

  function RunPath(limits: Limits, r: Eval<Envelope>, parts: seq<string>): Eval<Envelope>
    decreases |parts|
  {
    if parts == [] || r.res.Err? then r
    else RunPath(limits, Absorb(limits, Eval(Member(r.res.value, parts[0]), r.w), false), parts[1..])
  }

  // `x.part`: a field of a record, or of every record in a list.
  function Member(x: Envelope, part: string): Result<Envelope, Failure> {
    match FieldResult(x.ty, part)
    case None => Err(RawError)
    case Some((ty, projected)) => if projected then Project(x, part, ty) else GetField(x, part, ty)
  }

  function RunCall(env: SourceEnv, scopes: seq<Scope>, e: AstExpr, w: Ledger): Eval<Envelope>
    requires e.ACall?
    decreases e, 0
  {
    var r := RunOperands(env, scopes, e.operands, w);
    match r.res
    case Err(f) => Eval(Err(f), r.w)
    case Ok(xs) =>
      match BuiltinNamed(e.name)
      case None => Eval(Err(BuiltinFailure), r.w)
      case Some(f) =>
        match BuiltinResult(f, seq(|xs|, i requires 0 <= i < |xs| => xs[i].ty))
        case None => Eval(Err(BuiltinFailure), r.w)
        case Some(ty) => Eval(ApplyCall(f, xs, ty), r.w)
  }

  function RunBinary(env: SourceEnv, scopes: seq<Scope>, e: AstExpr, w: Ledger): Eval<Envelope>
    requires e.ABinary?
    decreases e, 0
  {
    var l := Run(env, scopes, e.left, w);
    if l.res.Err? then l
    else
      var r := Run(env, scopes, e.right, l.w);
      if r.res.Err? then r
      else match BinaryResult(e.op, l.res.value.ty, r.res.value.ty)
        case None => Eval(Err(RawError), r.w)
        case Some(ty) => Eval(CombineBinary(e.op, l.res.value, r.res.value, ty), r.w)
  }

  function RunRead(env: SourceEnv, scopes: seq<Scope>, e: AstExpr, w: Ledger): Eval<Envelope>
    requires e.ARead?
    decreases e, 0
  {
    if e.tool !in env.tools then Eval(Err(UnregisteredTool), w)
    else if e.tool !in env.authorized then Eval(Err(Unauthorized), w)
    else
      var contract := env.tools[e.tool];
      var r := RunArguments(env, scopes, e.arguments, w);
      match r.res
      case Err(f) => Eval(Err(f), r.w)
      case Ok(args) => CallTool(ToolSide(env), contract, args, ResultPolicy(true, false, contract.emptyIsValid), r.w)
  }

  // The limits and the port are all a tool call needs of its surroundings.
  function ToolSide(env: SourceEnv): Env {
    Env(env.limits, env.outputs, map[], {}, env.port)
  }

  function RunOperands(env: SourceEnv, scopes: seq<Scope>, es: seq<AstExpr>, w: Ledger): Eval<seq<Envelope>>
    decreases es, 0
  {
    if es == [] then Eval(Ok([]), w)
    else
      var first := Run(env, scopes, es[0], w);
      match first.res
      case Err(f) => Eval(Err(f), first.w)
      case Ok(x) =>
        var rest := RunOperands(env, scopes, es[1..], first.w);
        match rest.res
        case Err(f) => rest
        case Ok(xs) => Eval(Ok([x] + xs), rest.w)
  }

  function RunArguments(env: SourceEnv, scopes: seq<Scope>, args: seq<AstArgument>, w: Ledger): Eval<seq<NamedEnvelope>>
    decreases args, 0
  {
    if args == [] then Eval(Ok([]), w)
    else
      var first := Run(env, scopes, args[0].value, w);
      match first.res
      case Err(f) => Eval(Err(f), first.w)
      case Ok(x) =>
        var rest := RunArguments(env, scopes, args[1..], first.w);
        match rest.res
        case Err(f) => rest
        case Ok(xs) => Eval(Ok([NamedEnvelope(args[0].name, x)] + xs), rest.w)
  }

  // ---------- statements ----------

  datatype SourceState = SourceState(scopes: seq<Scope>, w: Ledger, depth: nat)

  datatype SourceExec = SourceExec(error: Option<Failure>, s: SourceState)

  // An emitted field only has to look like its declared type.
  function RunFields(env: SourceEnv, scopes: seq<Scope>, fields: seq<AstArgument>, w: Ledger): Eval<seq<NamedEnvelope>>
    decreases |fields|
  {
    if fields == [] then Eval(Ok([]), w)
    else
      var first := Run(env, scopes, fields[0].value, w);
      match first.res
      case Err(f) => Eval(Err(f), first.w)
      case Ok(x) =>
        if !RuntimeTypeOk(x.value, x.ty) then Eval(Err(EmitValue), first.w)
        else
          var rest := RunFields(env, scopes, fields[1..], first.w);
          match rest.res
          case Err(f) => rest
          case Ok(xs) => Eval(Ok([NamedEnvelope(fields[0].name, x)] + xs), rest.w)
  }

  function RunBlock(env: SourceEnv, stmts: seq<AstStmt>, s: SourceState): (r: SourceExec)
    requires s.scopes != []
    ensures |r.s.scopes| == |s.scopes|
    decreases stmts, 3, 0
  {
    if stmts == [] then SourceExec(None, s)
    else
      var first := RunStmt(env, stmts[0], s);
      if first.error.Some? then first else RunBlock(env, stmts[1..], first.s)
  }

  function RunStmt(env: SourceEnv, stmt: AstStmt, s: SourceState): (r: SourceExec)
    requires s.scopes != []
    ensures |r.s.scopes| == |s.scopes|
    decreases stmt, 2, 0
  {
    match stmt
    case ALet(name, value) =>
      var r := Run(env, s.scopes, value, s.w);
      (match r.res
       case Err(f) => SourceExec(Some(f), s.(w := r.w))
       case Ok(x) => SourceExec(None, s.(w := r.w, scopes := Define(s.scopes, name, x))))
    case ACheck(checkId, condition, severity, _, message) =>
      var r := Run(env, s.scopes, condition, s.w);
      (match r.res
       case Err(f) => SourceExec(Some(f), s.(w := r.w))
       case Ok(x) =>
         match JudgeCheck(checkId, severity, message, x)
         case Err(f) => SourceExec(Some(f), s.(w := r.w))
         case Ok(c) => SourceExec(None, s.(w := r.w.(checks := r.w.checks + [c]), scopes := Define(s.scopes, checkId, CheckEnvelope(c)))))
    case AEmit(fields) =>
      if s.w.meter.emittedRows >= env.limits.emittedRows then SourceExec(Some(LimitExceeded(EmittedRows)), s)
      else
        var r := RunFields(env, s.scopes, fields, s.w);
        (match r.res
         case Err(f) => SourceExec(Some(f), s.(w := r.w))
         case Ok(xs) =>
           SourceExec(None, s.(w := r.w.(outputs := r.w.outputs + [RowOf(xs)],
                                         meter := r.w.meter.(emittedRows := r.w.meter.emittedRows + 1)))))
    case AForeach(_, _, _, _) => RunForeach(env, stmt, s)
    case AApprove(_, _) => SourceExec(Some(RawError), s)
  }

  function RunForeach(env: SourceEnv, stmt: AstStmt, s: SourceState): (r: SourceExec)
    requires stmt.AForeach? && s.scopes != []
    ensures r.s.scopes == s.scopes
    decreases stmt, 1, 0
  {
    if s.depth >= MAX_FOREACH_NESTING_DEPTH then SourceExec(Some(LimitExceeded(ForeachNesting)), s)
    else
      var r := Run(env, s.scopes, stmt.collection, s.w);
      match r.res
      case Err(f) => SourceExec(Some(f), s.(w := r.w))
      case Ok(x) =>
        match Elements(x.value)
        case None => SourceExec(Some(RawError), s.(w := r.w))
        case Some(items) =>
          if |items| > stmt.maxIterations then SourceExec(Some(LimitExceeded(ForeachMax)), s.(w := r.w))
          else
            var loop := RunLoop(env, stmt, x, items, SourceState(s.scopes, r.w, s.depth + 1));
            SourceExec(loop.error, s.(w := loop.s.w))
  }

  // Each iteration runs in its own scope, which ends with it.
  function RunLoop(env: SourceEnv, stmt: AstStmt, collection: Envelope, items: seq<Value>, s: SourceState): (r: SourceExec)
    requires stmt.AForeach? && s.scopes != []
    ensures r.s.scopes == s.scopes
    decreases stmt, 0, |items|
  {
    if items == [] then SourceExec(None, s)
    else if s.w.meter.loopIterations >= env.limits.loopIterations then SourceExec(Some(LimitExceeded(LoopIterations)), s)
    else
      var w := s.w.(meter := s.w.meter.(loopIterations := s.w.meter.loopIterations + 1));
      var inner := s.scopes + [map[stmt.loopName := ItemEnvelope(collection, items[0])]];
      var body := RunBlock(env, stmt.body, SourceState(inner, w, s.depth));
      var after := SourceState(s.scopes, body.s.w, s.depth);
      if body.error.Some? then SourceExec(body.error, after)
      else RunLoop(env, stmt, collection, items[1..], after)
  }
}
