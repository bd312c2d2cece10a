// Executing a whole skill: binding its inputs and contexts, running its body, and the result.

module Execution {
  import opened Wrappers
  import opened Core
  import opened Failures
  import opened Operators
  import opened Ir
  import opened Semantics
  import opened Ast
  import opened Compiler

  datatype Request = Request(inputs: map<string, Value>, context: Value)

  datatype BindFailure =
    | MissingInput
    | MissingContext
    | InputTypeMismatch
    | InputTooLarge
    | SymbolBoundTwice

  datatype Admitted = Admitted(values: seq<Envelope>, seen: nat)

  // The value a runtime context holds at a path.
  function ValueAt(context: Value, path: seq<string>): Option<Value>
    decreases |path|
  {
    if path == [] then Some(context)
    else if context.VRecord? && path[0] in context.fields then ValueAt(context.fields[path[0]], path[1..])
    else None
  }

  // One declared value: checked, its size observed, and wrapped as complete.
  function Admit(limits: Limits, f: AstField, v: Value, seen: nat): Result<(Envelope, nat), BindFailure> {
    if !RuntimeTypeOk(v, f.ty) then Err(InputTypeMismatch)
    else if Oversized(v, limits) then Err(InputTooLarge)
    else Ok((CompleteEnvelope(v, f.ty, f.cls, []), if v.VList? then MaxNat(seen, |v.items|) else seen))
  }

  function AdmitInputs(limits: Limits, fields: seq<AstField>, inputs: map<string, Value>, seen: nat): (r: Result<Admitted, BindFailure>)
    ensures r.Ok? ==> |r.value.values| == |fields|
    decreases |fields|
  {
    if fields == [] then Ok(Admitted([], seen))
    else if fields[0].name !in inputs then Err(MissingInput)
    else
      var first :- Admit(limits, fields[0], inputs[fields[0].name], seen);
      var rest :- AdmitInputs(limits, fields[1..], inputs, first.1);
      Ok(Admitted([first.0] + rest.values, rest.seen))
  }

  function AdmitContexts(limits: Limits, fields: seq<AstField>, context: Value, seen: nat): (r: Result<Admitted, BindFailure>)
    ensures r.Ok? ==> |r.value.values| == |fields|
    decreases |fields|
  {
    if fields == [] then Ok(Admitted([], seen))
    else match ValueAt(context, fields[0].path)
      case None => Err(MissingContext)
      case Some(v) =>
        var first :- Admit(limits, fields[0], v, seen);
        var rest :- AdmitContexts(limits, fields[1..], context, first.1);
        Ok(Admitted([first.0] + rest.values, rest.seen))
  }

  function Fields(specs: seq<Spec>): seq<AstField> {
    seq(|specs|, i requires 0 <= i < |specs| => specs[i].field)
  }

  function BindAll(specs: seq<Spec>, values: seq<Envelope>, frame: SymbolFrame): SymbolFrame
    requires |specs| == |values|
  {
    if specs == [] then frame else BindAll(specs[1..], values[1..], frame[specs[0].symbol := values[0]])
  }

  predicate SymbolsDistinct(specs: seq<Spec>) {
    forall i, j | 0 <= i < j < |specs| :: specs[i].symbol != specs[j].symbol
  }

  type SymbolFrame = Semantics.Frame

  const FRESH_LEDGER := Ledger([], [], Meter(0, 0, 0, 0), COMPLETE, 0, [])

  // The state a run starts from, or why it cannot start.
  function Start(skill: Skill, request: Request): (r: Result<State, BindFailure>)
    ensures r.Ok? ==> Framed(r.value.b)
  {
    var inputs :- AdmitInputs(skill.limits, Fields(skill.inputs), request.inputs, 0);
    var contexts :- AdmitContexts(skill.limits, Fields(skill.contexts), request.context, inputs.seen);
    if !SymbolsDistinct(skill.inputs + skill.contexts) then Err(SymbolBoundTwice)
    else Ok(State(Bindings(BindAll(skill.inputs, inputs.values, map[]), BindAll(skill.contexts, contexts.values, map[]), [map[]], [map[]]),
             FRESH_LEDGER.(meter := Meter(0, 0, 0, contexts.seen)), 0))
  }

  function EnvOf(skill: Skill, authorized: set<ToolRef>, port: Port): Env {
    Env(skill.limits, skill.outputs, skill.tools, authorized, port)
  }

  // A whole run of a compiled skill.
  function Execute(skill: Skill, request: Request, authorized: set<ToolRef>, port: Port): Result<Exec, BindFailure> {
    var s :- Start(skill, request);
    Ok(ExecBlock(EnvOf(skill, authorized, port), skill.body, s))
  }

  // ---------- the result a caller sees ----------

  datatype Status = COMPLETED | FAILED | TOOL_ERROR | LIMIT_EXCEEDED

  function StatusOf(r: Exec): Status {
    match r.error
    case None => COMPLETED
    case Some(LimitExceeded(_)) => LIMIT_EXCEEDED
    case Some(Tool(_)) => TOOL_ERROR
    case Some(_) => FAILED
  }

  function ResultCompleteness(r: Exec): Completeness {
    if r.error.None? then r.s.w.completeness
    else if r.s.w.checks != [] || r.s.w.outputs != [] then PARTIAL
    else UNKNOWN
  }

  datatype CheckView = CheckView(checkId: string, status: CheckStatus, severity: string, message: string, presence: Presence, completeness: Completeness)

  // Everything of a result that does not name the execution that produced it.
  datatype SemanticView = SemanticView(
    status: Status,
    completeness: Completeness,
    checks: seq<CheckView>,
    outputs: seq<map<string, Value>>,
    meter: Meter,
    error: Option<Failure>)

  function ViewCheck(c: CheckResult): CheckView {
    CheckView(c.checkId, c.status, c.severity, c.message, c.presence, c.completeness)
  }

  function ViewRow(row: Row): map<string, Value> {
    map name | name in row :: row[name].value
  }

  function View(r: Exec): SemanticView {
    var w := r.s.w;
    SemanticView(
      StatusOf(r),
      ResultCompleteness(r),
      seq(|w.checks|, i requires 0 <= i < |w.checks| => ViewCheck(w.checks[i])),
      seq(|w.outputs|, i requires 0 <= i < |w.outputs| => ViewRow(w.outputs[i])),
      w.meter,
      r.error)
  }
}
