// Recording a run's tool calls and replaying them.

module Projection {
  import opened Wrappers
  import opened Core
  import opened Ast
  import opened Execution

  // The inputs kept are the declared ones that were given, as they were given.
  lemma InputsAreKept(fields: seq<AstField>, inputs: map<string, Value>)
    ensures forall name :: name in ProjectInputs(fields, inputs) <==> name in inputs && exists i :: 0 <= i < |fields| && fields[i].name == name
    ensures forall name | name in ProjectInputs(fields, inputs) :: ProjectInputs(fields, inputs)[name] == inputs[name]
  {
  }

  // Writes a value at a path, creating the records on the way.
  function Insert(m: map<string, Value>, path: seq<string>, v: Value): map<string, Value>
    requires path != []
    decreases |path|
  {
    if |path| == 1 then m[path[0] := v]
    else
      var child := if path[0] in m && m[path[0]].VRecord? then m[path[0]].fields else map[];
      m[path[0] := VRecord(Insert(child, path[1..], v))]
  }

  predicate PathsGiven(fields: seq<AstField>) {
    forall i | 0 <= i < |fields| :: fields[i].path != []
  }

  // The part of a runtime context a skill declares.
  function ProjectContext(fields: seq<AstField>, context: Value): map<string, Value>
    requires PathsGiven(fields)
  {
    if fields == [] then map[]
    else
      var n := |fields| - 1;
      var front := ProjectContext(fields[..n], context);
      match ValueAt(context, fields[n].path)
      case Some(v) => Insert(front, fields[n].path, v)
      case None => front
  }

  function ProjectInputs(fields: seq<AstField>, inputs: map<string, Value>): map<string, Value> {
    map i | 0 <= i < |fields| && fields[i].name in inputs :: fields[i].name := inputs[fields[i].name]
  }

  method ProjectDeclaredContext(fields: seq<AstField>, context: Value) returns (projected: map<string, Value>)
    requires PathsGiven(fields)
    ensures projected == ProjectContext(fields, context)
  {
    projected := map[];
    for i := 0 to |fields|
      invariant projected == ProjectContext(fields[..i], context)
    {
      assert fields[..i + 1][..i] == fields[..i];
      var v := ValueAt(context, fields[i].path);
      if v.Some? {
        projected := Insert(projected, fields[i].path, v.value);
      }
    }
    assert fields[..|fields|] == fields;
  }

  // A projection holds parts of the original, each in its place.
  predicate PartOf(p: Value, o: Value) {
    p == o || (p.VRecord? && o.VRecord? && forall k | k in p.fields :: k in o.fields && PartOf(p.fields[k], o.fields[k]))
  }

  // The projection agrees with the original at this path.
  predicate AgreesAt(p: Value, o: Value, path: seq<string>) {
    ValueAt(p, path).Some? && ValueAt(p, path) == ValueAt(o, path)
  }

  lemma {:induction false} InsertExisting(m: map<string, Value>, path: seq<string>, v: Value)
    requires path != [] && ValueAt(VRecord(m), path) == Some(v)
    ensures Insert(m, path, v) == m
    decreases |path|
  {
    if |path| == 1 {
      assert ValueAt(m[path[0]], path[1..]) == Some(v);
    } else {
      InsertExisting(m[path[0]].fields, path[1..], v);
    }
  }

  lemma {:induction false} InsertStaysPart(m: map<string, Value>, o: Value, path: seq<string>, v: Value)
    requires path != [] && PartOf(VRecord(m), o) && ValueAt(o, path) == Some(v)
    ensures PartOf(VRecord(Insert(m, path, v)), o) && AgreesAt(VRecord(Insert(m, path, v)), o, path)
    decreases |path|
  {
    if VRecord(m) == o {
      InsertExisting(m, path, v);
    } else {
      var k := path[0];
      var result := Insert(m, path, v);
      if |path| == 1 {
        assert ValueAt(o.fields[k], path[1..]) == Some(v) && o.fields[k] == v;
        assert ValueAt(v, path[1..]) == Some(v);
      } else {
        var child := if k in m && m[k].VRecord? then m[k].fields else map[];
        InsertStaysPart(child, o.fields[k], path[1..], v);
      }
      forall j | j in result ensures j in o.fields && PartOf(result[j], o.fields[j]) {
      }
    }
  }

  // Inserting a declared value never disturbs what already agreed.
  lemma {:induction false} InsertKeepsAgreement(m: map<string, Value>, o: Value, path: seq<string>, v: Value, other: seq<string>)
    requires path != [] && PartOf(VRecord(m), o) && ValueAt(o, path) == Some(v)
    requires AgreesAt(VRecord(m), o, other)
    ensures AgreesAt(VRecord(Insert(m, path, v)), o, other)
    decreases |path|
  {
    if VRecord(m) == o {
      InsertExisting(m, path, v);
    } else {
      var k := path[0];
      if other != [] && other[0] == k {
        if |path| == 1 {
          assert ValueAt(o.fields[k], path[1..]) == Some(v) && o.fields[k] == v;
        } else {
          assert PartOf(m[k], o.fields[k]);
          InsertKeepsAgreement(m[k].fields, o.fields[k], path[1..], v, other[1..]);
        }
      }
    }
  }

  // A projection resolves every declared path to the original's value.
  lemma {:induction false} ProjectionAgrees(fields: seq<AstField>, context: Value)
    requires PathsGiven(fields) && context.VRecord?
    ensures PartOf(VRecord(ProjectContext(fields, context)), context)
    ensures forall i | 0 <= i < |fields| && ValueAt(context, fields[i].path).Some? ::
      AgreesAt(VRecord(ProjectContext(fields, context)), context, fields[i].path)
  {
    if fields != [] {
      var n := |fields| - 1;
      ProjectionAgrees(fields[..n], context);
      var front := ProjectContext(fields[..n], context);
      var v := ValueAt(context, fields[n].path);
      if v.Some? {
        InsertStaysPart(front, context, fields[n].path, v.value);
      }
      forall i | 0 <= i < |fields| && ValueAt(context, fields[i].path).Some?
        ensures AgreesAt(VRecord(ProjectContext(fields, context)), context, fields[i].path)
      {
        if i < n {
          assert fields[..n][i] == fields[i];
          if v.Some? {
            InsertKeepsAgreement(front, context, fields[n].path, v.value, fields[i].path);
          }
        }
      }
    }
  }

  lemma {:induction false} PartResolvesInOriginal(p: Value, o: Value, path: seq<string>)
    requires PartOf(p, o) && ValueAt(p, path).Some?
    ensures ValueAt(o, path).Some?
    decreases |path|
  {
    if path != [] && p != o {
      PartResolvesInOriginal(p.fields[path[0]], o.fields[path[0]], path[1..]);
    }
  }

  // Declared paths resolve in the projection exactly as in the original.
  lemma {:induction false} ProjectionIsFaithful(fields: seq<AstField>, context: Value, i: nat)
    requires PathsGiven(fields) && context.VRecord? && i < |fields|
    ensures ValueAt(VRecord(ProjectContext(fields, context)), fields[i].path) == ValueAt(context, fields[i].path)
  {
    ProjectionAgrees(fields, context);
    var p := VRecord(ProjectContext(fields, context));
    if ValueAt(context, fields[i].path).None? && ValueAt(p, fields[i].path).Some? {
      PartResolvesInOriginal(p, context, fields[i].path);
    }
  }
}

module Replay {
  import opened Wrappers
  import opened Core
  import opened Failures
  import opened Operators
  import opened Ir
  import opened Semantics
  import opened Effects
  import opened Ast
  import opened Compiler
  import opened Execution
  import opened Projection

  // ---------- recording and replaying one call ----------

  // The digest of the argument values, by name; a digest determines what it digests.
  function ArgumentDigest(args: seq<NamedEnvelope>): map<string, Value> {
    if args == [] then map[]
    else ArgumentDigest(args[..|args| - 1])[args[|args| - 1].name := args[|args| - 1].value.value]
  }

  function NamesOf(args: seq<NamedEnvelope>): (r: seq<string>)
    ensures |r| == |args| && forall i | 0 <= i < |r| :: r[i] == args[i].name
  {
    seq(|args|, i requires 0 <= i < |args| => args[i].name)
  }

  // Every argument of the one is an argument of the other, with the same value.
  ghost predicate HoldsAll(a: seq<NamedEnvelope>, b: seq<NamedEnvelope>) {
    forall i | 0 <= i < |a| :: Holds(b, a[i].name, a[i].value.value)
  }

  predicate Holds(args: seq<NamedEnvelope>, name: string, v: Value) {
    exists j :: 0 <= j < |args| && args[j].name == name && args[j].value.value == v
  }

  // With one value for every name, requests have the same digest exactly when they have the same names and values.
  lemma DigestsTellArgumentsApart(a: seq<NamedEnvelope>, b: seq<NamedEnvelope>)
    requires Distinct(NamesOf(a)) && Distinct(NamesOf(b))
    ensures ArgumentDigest(a) == ArgumentDigest(b) <==> HoldsAll(a, b) && HoldsAll(b, a)
  {
    if ArgumentDigest(a) == ArgumentDigest(b) {
      SameDigestHolds(a, b);
      SameDigestHolds(b, a);
    }
    if HoldsAll(a, b) && HoldsAll(b, a) {
      DigestWithin(a, b);
      DigestWithin(b, a);
      assert ArgumentDigest(a).Keys == ArgumentDigest(b).Keys;
    }
    hide ArgumentDigest, Distinct, HoldsAll;
  }

  lemma SameDigestHolds(a: seq<NamedEnvelope>, b: seq<NamedEnvelope>)
    requires Distinct(NamesOf(a)) && Distinct(NamesOf(b)) && ArgumentDigest(a) == ArgumentDigest(b)
    ensures HoldsAll(a, b)
  {
    ValuesUnder(a);
    ValuesUnder(b);
    hide ArgumentDigest, Distinct;
    forall i | 0 <= i < |a| ensures Holds(b, a[i].name, a[i].value.value) {
      assert Holds(a, a[i].name, a[i].value.value);
    }
  }

  lemma DigestWithin(a: seq<NamedEnvelope>, b: seq<NamedEnvelope>)
    requires Distinct(NamesOf(a)) && Distinct(NamesOf(b)) && HoldsAll(a, b)
    ensures forall name | name in ArgumentDigest(a) :: name in ArgumentDigest(b) && ArgumentDigest(b)[name] == ArgumentDigest(a)[name]
  {
    ValuesUnder(a);
    ValuesUnder(b);
    hide ArgumentDigest, Distinct;
    forall name | name in ArgumentDigest(a) ensures name in ArgumentDigest(b) && ArgumentDigest(b)[name] == ArgumentDigest(a)[name] {
      assert Holds(a, name, ArgumentDigest(a)[name]);
      var i :| 0 <= i < |a| && a[i].name == name && a[i].value.value == ArgumentDigest(a)[name];
      assert Holds(b, a[i].name, a[i].value.value);
    }
  }

  lemma {:induction false} ValuesUnder(args: seq<NamedEnvelope>)
    requires Distinct(NamesOf(args))
    ensures forall name, v :: Holds(args, name, v) <==> name in ArgumentDigest(args) && ArgumentDigest(args)[name] == v
    decreases |args|
  {
    if args != [] {
      var n := |args| - 1;
      var front := args[..n];
      assert forall i | 0 <= i < n :: NamesOf(front)[i] == NamesOf(args)[i];
      ValuesUnder(front);
      forall name, v ensures Holds(args, name, v) <==> if name == args[n].name then v == args[n].value.value else Holds(front, name, v) {
        LastHolds(args, name, v);
      }
      hide Holds;
    }
  }

  lemma LastHolds(args: seq<NamedEnvelope>, name: string, v: Value)
    requires args != [] && Distinct(NamesOf(args))
    ensures var n := |args| - 1; Holds(args, name, v) <==> if name == args[n].name then v == args[n].value.value else Holds(args[..n], name, v)
  {
    var n := |args| - 1;
    var front := args[..n];
    if j :| 0 <= j < |args| && args[j].name == name && args[j].value.value == v {
      if j < n {
        assert NamesOf(args)[j] != NamesOf(args)[n] && front[j] == args[j];
      }
    }
    if Holds(front, name, v) {
      var j :| 0 <= j < |front| && front[j].name == name && front[j].value.value == v;
      assert NamesOf(args)[j] != NamesOf(args)[n] && args[j] == front[j];
    }
  }

  datatype RecordedCall = RecordedCall(toolId: string, version: string, digest: map<string, Value>, result: ToolResult)

  // What the recorder lets through: an answer that is no envelope breaks the recorder itself.
  function Recorded(reply: Reply): Reply {
    if reply.NotAnEnvelope? then RaisedOther else reply
  }

  function RecordingPort(delegate: Port): Port {
    (trace, request) => Recorded(delegate(trace, request))
  }

  // The calls kept of a trace: those that returned.
  function RecordedCalls(trace: seq<ToolEvent>): seq<RecordedCall> {
    if trace == [] then []
    else
      var e := trace[|trace| - 1];
      var front := RecordedCalls(trace[..|trace| - 1]);
      if e.reply.Returned? then front + [RecordedCall(e.request.toolId, e.request.version, ArgumentDigest(e.request.arguments), e.reply.result)]
      else front
  }

  predicate MatchesCall(call: RecordedCall, request: ToolRequest) {
    call.toolId == request.toolId && call.version == request.version && call.digest == ArgumentDigest(request.arguments)
  }

  // The k-th call of a replay.
  function ReplayReply(calls: seq<RecordedCall>, k: nat, request: ToolRequest): Reply {
    if k >= |calls| then RaisedOther
    else if !MatchesCall(calls[k], request) then RaisedOther
    else Returned(calls[k].result.(invocation := request.invocation))
  }

  function ReplayPort(calls: seq<RecordedCall>): Port {
    (trace, request) => ReplayReply(calls, |trace|, request)
  }

  // The recorder, as the object the runtime talks to.
  class RecordingToolExecutor {
    const delegate: Port
    var seen: seq<ToolEvent>
    var calls: seq<RecordedCall>

    constructor (delegate: Port)
      ensures this.delegate == delegate && seen == [] && calls == RecordedCalls(seen)
    {
      this.delegate := delegate;
      seen, calls := [], [];
    }

    method Execute(request: ToolRequest) returns (reply: Reply)
      requires calls == RecordedCalls(seen)
      modifies this
      ensures reply == RecordingPort(delegate)(old(seen), request)
      ensures seen == old(seen) + [ToolEvent(request, reply)]
      ensures calls == RecordedCalls(seen)
    {
      reply := delegate(seen, request);
      if reply.NotAnEnvelope? {
        reply := RaisedOther;
      } else if reply.Returned? {
        calls := calls + [RecordedCall(request.toolId, request.version, ArgumentDigest(request.arguments), reply.result)];
      }
      assert (seen + [ToolEvent(request, reply)])[..|seen|] == seen;
      seen := seen + [ToolEvent(request, reply)];
    }
  }

  // The replayer: a cursor over the recorded calls.
  class ReplayToolExecutor {
    const calls: seq<RecordedCall>
    var index: nat
    var callCount: nat

    constructor (calls: seq<RecordedCall>)
      ensures this.calls == calls && index == callCount == 0
    {
      this.calls := calls;
      index, callCount := 0, 0;
    }

    // Either the recording covers every request so far, or it is used up.
    predicate Valid()
      reads this
    {
      index <= |calls| && (index == callCount || (index == |calls| && callCount > |calls|))
    }

    method Execute(request: ToolRequest) returns (reply: Reply)
      requires Valid()
      modifies this
      ensures Valid() && callCount == old(callCount) + 1
      ensures reply == ReplayReply(calls, old(callCount), request)
      ensures index == if old(index) < |calls| then old(index) + 1 else old(index)
    {
      callCount := callCount + 1;
      if index >= |calls| {
        return RaisedOther;
      }
      var expected := calls[index];
      index := index + 1;
      if expected.toolId != request.toolId || expected.version != request.version || expected.digest != ArgumentDigest(request.arguments) {
        return RaisedOther;
      }
      return Returned(expected.result.(invocation := request.invocation));
    }

    // Whether every recorded call was requested.
    method AssertConsumed() returns (consumed: bool)
      requires Valid()
      ensures consumed <==> callCount >= |calls|
    {
      consumed := index == |calls|;
    }
  }

  // ---------- a port is only what it answers along a trace ----------

  // Along this trace, from position `start` on, the port answers what the trace records.
  ghost predicate AnswersAlong(port: Port, trace: seq<ToolEvent>, start: nat) {
    forall i | start <= i < |trace| :: port(trace[..i], trace[i].request) == trace[i].reply
  }

  // Every event is an answer to its own request.
  predicate Answered(trace: seq<ToolEvent>) {
    forall i | 0 <= i < |trace| :: trace[i].reply.Returned? && trace[i].reply.result.invocation == trace[i].request.invocation
  }

  // The same environment but for the port.
  function WithPort(env: Env, port: Port): Env {
    env.(port := port)
  }

  // What one evaluation shows: success means every call was answered, and any port that answers
  // alike along its trace gives the same evaluation.
  ghost predicate PortOnly<T(!new)>(own: Port, port: Port, w: Ledger, r: Eval<T>, q: Eval<T>) {
    && w.trace <= r.w.trace
    && AnswersAlong(own, r.w.trace, |w.trace|)
    && (r.res.Ok? && Answered(w.trace) ==> Answered(r.w.trace))
    && (AnswersAlong(port, r.w.trace, |w.trace|) ==> q == r)
  }

  lemma NothingToAnswer(port: Port, trace: seq<ToolEvent>)
    ensures AnswersAlong(port, trace, |trace|)
  {
  }

  lemma PrefixAnswers(port: Port, short: seq<ToolEvent>, long: seq<ToolEvent>, start: nat)
    requires short <= long && AnswersAlong(port, long, start)
    ensures AnswersAlong(port, short, start)
  {
    forall i | start <= i < |short| ensures port(short[..i], short[i].request) == short[i].reply {
      assert short[..i] == long[..i] && short[i] == long[i];
    }
  }

  lemma {:induction false} EvalIsPortOnly(env: Env, port: Port, b: Bindings, e: Expr, w: Ledger)
    ensures PortOnly(env.port, port, w, EvalExpr(env, b, e, w), EvalExpr(WithPort(env, port), b, e, w))
    decreases e, 2
  {
    hide EvalNode, AnswersAlong, Answered;
    NothingToAnswer(env.port, w.trace);
    if !e.Write? {
      NodeIsPortOnly(env, port, b, e, w);
    }
  }

  lemma {:induction false} NodeIsPortOnly(env: Env, port: Port, b: Bindings, e: Expr, w: Ledger)
    requires !e.Write?
    ensures PortOnly(env.port, port, w, EvalNode(env, b, e, w), EvalNode(WithPort(env, port), b, e, w))
    decreases e, 1
  {
    hide EvalExpr, CallTool, Answered, AnswersAlong;
    NothingToAnswer(env.port, w.trace);
    match e
    case Literal(_, _, _) =>
    case SymbolRef(_, _, _) =>
    case Field(_, source, _, _) => EvalIsPortOnly(env, port, b, source, w);
    case Projection(_, source, _, _) => EvalIsPortOnly(env, port, b, source, w);
    case Call(_, _, operands, _) => OperandsArePortOnly(env, port, b, operands, w);
    case Binary(_, _, _, _, _) => BinaryIsPortOnly(env, port, b, e, w);
    case Read(_, _, _, _, _) => ReadIsPortOnly(env, port, b, e, w);
  }

  lemma {:induction false} BinaryIsPortOnly(env: Env, port: Port, b: Bindings, e: Expr, w: Ledger)
    requires e.Binary?
    ensures PortOnly(env.port, port, w, EvalNode(env, b, e, w), EvalNode(WithPort(env, port), b, e, w))
    decreases e, 0
  {
    hide EvalExpr, Answered, AnswersAlong, CombineBinary;
    NothingToAnswer(env.port, w.trace);
    EvalIsPortOnly(env, port, b, e.left, w);
    var l := EvalExpr(env, b, e.left, w);
    if l.res.Ok? {
      EvalIsPortOnly(env, port, b, e.right, l.w);
      var r := EvalExpr(env, b, e.right, l.w);
      Continue(env.port, port, w.trace, l.w.trace, r.w.trace);
    }
  }

  lemma {:induction false} ReadIsPortOnly(env: Env, port: Port, b: Bindings, e: Expr, w: Ledger)
    requires e.Read?
    ensures PortOnly(env.port, port, w, EvalNode(env, b, e, w), EvalNode(WithPort(env, port), b, e, w))
    decreases e, 0
  {
    hide EvalExpr, CallTool, Answered, AnswersAlong, EvalArguments;
    NothingToAnswer(env.port, w.trace);
    ArgumentsArePortOnly(env, port, b, e.arguments, w);
    var r := EvalArguments(env, b, e.arguments, w);
    if e.tool in env.tools && r.res.Ok? {
      ToolCallIsPortOnly(env, port, env.tools[e.tool], r.res.value, e.policy, r.w);
      Continue(env.port, port, w.trace, r.w.trace, CallTool(env, env.tools[e.tool], r.res.value, e.policy, r.w).w.trace);
    }
  }

  // Answers along the whole split into answers along its two parts, and the parts join.
  lemma Continue(own: Port, port: Port, first: seq<ToolEvent>, middle: seq<ToolEvent>, last: seq<ToolEvent>)
    requires first <= middle <= last
    ensures AnswersAlong(port, last, |first|) ==> AnswersAlong(port, middle, |first|) && AnswersAlong(port, last, |middle|)
    ensures AnswersAlong(own, middle, |first|) && AnswersAlong(own, last, |middle|) ==> AnswersAlong(own, last, |first|)
  {
    if AnswersAlong(own, middle, |first|) && AnswersAlong(own, last, |middle|) {
      forall i | |first| <= i < |last| ensures own(last[..i], last[i].request) == last[i].reply {
        if i < |middle| {
          assert last[..i] == middle[..i] && last[i] == middle[i];
        }
      }
    }
    if AnswersAlong(port, last, |first|) {
      PrefixAnswers(port, middle, last, |first|);
    }
  }

  lemma ToolCallIsPortOnly(env: Env, port: Port, contract: Contract, args: seq<NamedEnvelope>, policy: ResultPolicy, w: Ledger)
    ensures PortOnly(env.port, port, w, CallTool(env, contract, args, policy, w), CallTool(WithPort(env, port), contract, args, policy, w))
  {
    var r := CallTool(env, contract, args, policy, w);
    assert |r.w.trace| == |w.trace| + 1 ==> r.w.trace[..|w.trace|] == w.trace;
    if |r.w.trace| == |w.trace| + 1 && AnswersAlong(port, r.w.trace, |w.trace|) {
      assert r.w.trace[..|w.trace|] == w.trace;
      assert port(r.w.trace[..|w.trace|], r.w.trace[|w.trace|].request) == r.w.trace[|w.trace|].reply;
    }
  }

  lemma {:induction false} OperandsArePortOnly(env: Env, port: Port, b: Bindings, es: seq<Expr>, w: Ledger)
    ensures PortOnly(env.port, port, w, EvalOperands(env, b, es, w), EvalOperands(WithPort(env, port), b, es, w))
    decreases es, 0
  {
    hide EvalExpr, Answered, AnswersAlong;
    NothingToAnswer(env.port, w.trace);
    if es != [] {
      EvalIsPortOnly(env, port, b, es[0], w);
      var first := EvalExpr(env, b, es[0], w);
      if first.res.Ok? {
        OperandsArePortOnly(env, port, b, es[1..], first.w);
        Continue(env.port, port, w.trace, first.w.trace, EvalOperands(env, b, es[1..], first.w).w.trace);
      }
    }
  }

  lemma {:induction false} ArgumentsArePortOnly(env: Env, port: Port, b: Bindings, args: seq<Argument>, w: Ledger)
    ensures PortOnly(env.port, port, w, EvalArguments(env, b, args, w), EvalArguments(WithPort(env, port), b, args, w))
    decreases args, 0
  {
    hide EvalExpr, Answered, AnswersAlong;
    NothingToAnswer(env.port, w.trace);
    if args != [] {
      EvalIsPortOnly(env, port, b, args[0].value, w);
      var first := EvalExpr(env, b, args[0].value, w);
      if first.res.Ok? {
        ArgumentsArePortOnly(env, port, b, args[1..], first.w);
        Continue(env.port, port, w.trace, first.w.trace, EvalArguments(env, b, args[1..], first.w).w.trace);
      }
    }
  }

  lemma {:induction false} FieldsArePortOnly(env: Env, port: Port, b: Bindings, fields: seq<Argument>, w: Ledger)
    requires forall i | 0 <= i < |fields| :: fields[i].name in OutputNames(env.outputs)
    ensures PortOnly(env.port, port, w, EmitFields(env, b, fields, w), EmitFields(WithPort(env, port), b, fields, w))
    decreases |fields|
  {
    hide EvalExpr, Answered, AnswersAlong;
    NothingToAnswer(env.port, w.trace);
    if fields != [] {
      EvalIsPortOnly(env, port, b, fields[0].value, w);
      var first := EvalExpr(env, b, fields[0].value, w);
      if first.res.Ok? {
        FieldsArePortOnly(env, port, b, fields[1..], first.w);
        Continue(env.port, port, w.trace, first.w.trace, EmitFields(env, b, fields[1..], first.w).w.trace);
      }
    }
  }

  // ---------- blocks ----------

  ghost predicate ExecPortOnly(own: Port, port: Port, s: State, r: Exec, q: Exec) {
    && s.w.trace <= r.s.w.trace
    && AnswersAlong(own, r.s.w.trace, |s.w.trace|)
    && (r.error.None? && Answered(s.w.trace) ==> Answered(r.s.w.trace))
    && (AnswersAlong(port, r.s.w.trace, |s.w.trace|) ==> q == r)
  }

  lemma {:induction false} BlockIsPortOnly(env: Env, port: Port, stmts: seq<Stmt>, s: State)
    requires Framed(s.b)
    ensures ExecPortOnly(env.port, port, s, ExecBlock(env, stmts, s), ExecBlock(WithPort(env, port), stmts, s))
    decreases stmts, 3, 0
  {
    hide ExecStmt, Answered, AnswersAlong;
    NothingToAnswer(env.port, s.w.trace);
    if stmts != [] {
      StmtIsPortOnly(env, port, stmts[0], s);
      var first := ExecStmt(env, stmts[0], s);
      if first.error.None? {
        BlockIsPortOnly(env, port, stmts[1..], first.s);
        Continue(env.port, port, s.w.trace, first.s.w.trace, ExecBlock(env, stmts[1..], first.s).s.w.trace);
      }
    }
  }

  lemma {:induction false} StmtIsPortOnly(env: Env, port: Port, stmt: Stmt, s: State)
    requires Framed(s.b)
    ensures ExecPortOnly(env.port, port, s, ExecStmt(env, stmt, s), ExecStmt(WithPort(env, port), stmt, s))
    decreases stmt, 2, 0
  {
    hide EvalExpr, ExecForeach, EmitFields, Answered, AnswersAlong;
    NothingToAnswer(env.port, s.w.trace);
    match stmt
    case Let(_, _, value) => EvalIsPortOnly(env, port, s.b, value, s.w);
    case Check(_, _, condition, _, _, _, _) => EvalIsPortOnly(env, port, s.b, condition, s.w);
    case Emit(_, fields) =>
      if EmitSchemaOk(env.outputs, fields) {
        SchemaNamesKnown(env.outputs, fields);
        FieldsArePortOnly(env, port, s.b, fields, s.w);
      }
    case Foreach(_, _, _, _, _) => ForeachIsPortOnly(env, port, stmt, s);
    case Approval(_, _, _, _) =>
  }

  lemma {:induction false} ForeachIsPortOnly(env: Env, port: Port, stmt: Stmt, s: State)
    requires stmt.Foreach? && Framed(s.b)
    ensures ExecPortOnly(env.port, port, s, ExecForeach(env, stmt, s), ExecForeach(WithPort(env, port), stmt, s))
    decreases stmt, 1, 0
  {
    hide EvalExpr, ExecLoop, Answered, AnswersAlong;
    NothingToAnswer(env.port, s.w.trace);
    EvalIsPortOnly(env, port, s.b, stmt.collection, s.w);
    var r := EvalExpr(env, s.b, stmt.collection, s.w);
    if r.res.Ok? && Elements(r.res.value.value).Some? {
      var items := Elements(r.res.value.value).value;
      var start := State(s.b, r.w, s.depth + 1);
      LoopIsPortOnly(env, port, stmt, r.res.value, items, start);
      Continue(env.port, port, s.w.trace, r.w.trace, ExecLoop(env, stmt, r.res.value, items, start).s.w.trace);
    }
  }

  lemma {:induction false} LoopIsPortOnly(env: Env, port: Port, stmt: Stmt, collection: Envelope, items: seq<Value>, s: State)
    requires stmt.Foreach? && Framed(s.b)
    ensures ExecPortOnly(env.port, port, s, ExecLoop(env, stmt, collection, items, s), ExecLoop(WithPort(env, port), stmt, collection, items, s))
    decreases stmt, 0, |items|
  {
    hide ExecBlock, IsBound, Answered, AnswersAlong;
    NothingToAnswer(env.port, s.w.trace);
    if items != [] && s.w.meter.loopIterations < env.limits.loopIterations && !IsBound(Push(s.b), stmt.loopVariable) {
      LoopStep(env, stmt, collection, items, s);
      LoopStep(WithPort(env, port), stmt, collection, items, s);
      var entry := LoopEntry(stmt, collection, items, s);
      BlockIsPortOnly(env, port, stmt.body, entry);
      var body := ExecBlock(env, stmt.body, entry);
      if body.error.None? {
        var next := State(s.b, body.s.w, s.depth);
        LoopIsPortOnly(env, port, stmt, collection, items[1..], next);
        Continue(env.port, port, s.w.trace, body.s.w.trace, ExecLoop(env, stmt, collection, items[1..], next).s.w.trace);
      }
    }
  }

  // ---------- replaying a recording ----------

  lemma {:induction false} RecordingKeepsAnsweredCalls(trace: seq<ToolEvent>)
    requires Answered(trace)
    ensures |RecordedCalls(trace)| == |trace|
    ensures forall i | 0 <= i < |trace| :: MatchesCall(RecordedCalls(trace)[i], trace[i].request) && RecordedCalls(trace)[i].result == trace[i].reply.result
  {
    if trace != [] {
      var front := trace[..|trace| - 1];
      RecordingKeepsAnsweredCalls(front);
      assert forall i | 0 <= i < |front| :: front[i] == trace[i];
    }
  }

  lemma {:induction false} ReplayAnswersTheRecording(trace: seq<ToolEvent>)
    requires Answered(trace)
    ensures AnswersAlong(ReplayPort(RecordedCalls(trace)), trace, 0)
  {
    RecordingKeepsAnsweredCalls(trace);
    forall i | 0 <= i < |trace| ensures ReplayPort(RecordedCalls(trace))(trace[..i], trace[i].request) == trace[i].reply {
      assert MatchesCall(RecordedCalls(trace)[i], trace[i].request);
    }
  }

  function ProjectedRequest(ast: AstSkill, request: Request): Request
    requires PathsGiven(ast.contexts)
  {
    Request(ProjectInputs(ast.inputs, request.inputs), VRecord(ProjectContext(ast.contexts, request.context)))
  }

  lemma {:induction false} InputsFollowNames(limits: Limits, fields: seq<AstField>, inputs: map<string, Value>, others: map<string, Value>, seen: nat)
    requires forall i | 0 <= i < |fields| :: (fields[i].name in inputs <==> fields[i].name in others) && (fields[i].name in inputs ==> inputs[fields[i].name] == others[fields[i].name])
    ensures AdmitInputs(limits, fields, inputs, seen) == AdmitInputs(limits, fields, others, seen)
    decreases |fields|
  {
    if fields != [] && fields[0].name in inputs {
      var first := Admit(limits, fields[0], inputs[fields[0].name], seen);
      if first.Ok? {
        assert forall i | 0 <= i < |fields[1..]| :: fields[1..][i] == fields[i + 1];
        InputsFollowNames(limits, fields[1..], inputs, others, first.value.1);
      }
    }
  }

  lemma {:induction false} ContextsFollowPaths(limits: Limits, fields: seq<AstField>, context: Value, other: Value, seen: nat)
    requires forall i | 0 <= i < |fields| :: ValueAt(context, fields[i].path) == ValueAt(other, fields[i].path)
    ensures AdmitContexts(limits, fields, context, seen) == AdmitContexts(limits, fields, other, seen)
    decreases |fields|
  {
    if fields != [] && ValueAt(context, fields[0].path).Some? {
      var first := Admit(limits, fields[0], ValueAt(context, fields[0].path).value, seen);
      if first.Ok? {
        assert forall i | 0 <= i < |fields[1..]| :: fields[1..][i] == fields[i + 1];
        ContextsFollowPaths(limits, fields[1..], context, other, first.value.1);
      }
    }
  }

  // A run starts from its declared inputs and context alone.
  lemma {:induction false} StartNeedsOnlyDeclaredValues(skill: Skill, ast: AstSkill, request: Request)
    requires Fields(skill.inputs) == ast.inputs && Fields(skill.contexts) == ast.contexts
    requires PathsGiven(ast.contexts) && request.context.VRecord?
    ensures Start(skill, ProjectedRequest(ast, request)) == Start(skill, request)
  {
    var projected := ProjectedRequest(ast, request);
    forall i | 0 <= i < |ast.inputs|
      ensures ast.inputs[i].name in request.inputs <==> ast.inputs[i].name in projected.inputs
      ensures ast.inputs[i].name in request.inputs ==> request.inputs[ast.inputs[i].name] == projected.inputs[ast.inputs[i].name]
    {
    }
    InputsFollowNames(skill.limits, ast.inputs, request.inputs, projected.inputs, 0);
    forall i | 0 <= i < |ast.contexts| ensures ValueAt(request.context, ast.contexts[i].path) == ValueAt(projected.context, ast.contexts[i].path) {
      ProjectionIsFaithful(ast.contexts, request.context, i);
    }
    var inputs := AdmitInputs(skill.limits, ast.inputs, request.inputs, 0);
    if inputs.Ok? {
      ContextsFollowPaths(skill.limits, ast.contexts, request.context, projected.context, inputs.value.seen);
    }
  }

  // Replay determinism: replaying a completed recorded run, on its projected inputs and context and
  // against nothing but its recorded calls, is the same run: the same calls in the same order, all
  // of them consumed, and the same result.
  lemma {:induction false} ReplayReproducesTheRun(skill: Skill, ast: AstSkill, request: Request, refs: set<ToolRef>, delegate: Port)
    requires Fields(skill.inputs) == ast.inputs && Fields(skill.contexts) == ast.contexts
    requires PathsGiven(ast.contexts) && request.context.VRecord?
    requires Execute(skill, request, refs, RecordingPort(delegate)).Ok?
    requires Execute(skill, request, refs, RecordingPort(delegate)).value.error.None?
    ensures var run := Execute(skill, request, refs, RecordingPort(delegate)).value;
      var calls := RecordedCalls(run.s.w.trace);
      var replay := Execute(skill, ProjectedRequest(ast, request), refs, ReplayPort(calls));
      && replay == Ok(run)
      && View(replay.value) == View(run)
      && |replay.value.s.w.trace| == |calls|
  {
    StartNeedsOnlyDeclaredValues(skill, ast, request);
    var s := Start(skill, request).value;
    var env := EnvOf(skill, refs, RecordingPort(delegate));
    var run := ExecBlock(env, skill.body, s);
    assert s.w.trace == [];
    var port := ReplayPort(RecordedCalls(run.s.w.trace));
    BlockIsPortOnly(env, port, skill.body, s);
    ReplayAnswersTheRecording(run.s.w.trace);
    RecordingKeepsAnsweredCalls(run.s.w.trace);
    assert WithPort(env, port) == EnvOf(skill, refs, port);
  }

  // Conversely, a replay that completes has requested recorded calls only, each at its own place.
  lemma {:induction false} CompletedReplayFollowsTheRecording(skill: Skill, request: Request, refs: set<ToolRef>, calls: seq<RecordedCall>)
    requires Execute(skill, request, refs, ReplayPort(calls)).Ok?
    requires Execute(skill, request, refs, ReplayPort(calls)).value.error.None?
    ensures var trace := Execute(skill, request, refs, ReplayPort(calls)).value.s.w.trace;
      |trace| <= |calls| && forall i | 0 <= i < |trace| :: Follows(calls, trace, i)
  {
    var s := Start(skill, request).value;
    var env := EnvOf(skill, refs, ReplayPort(calls));
    BlockIsPortOnly(env, env.port, skill.body, s);
    var trace := ExecBlock(env, skill.body, s).s.w.trace;
    assert Answered(trace);
    forall i | 0 <= i < |trace| ensures Follows(calls, trace, i) {
      assert env.port(trace[..i], trace[i].request) == trace[i].reply;
    }
    assert trace != [] ==> Follows(calls, trace, |trace| - 1);
  }

  predicate Follows(calls: seq<RecordedCall>, trace: seq<ToolEvent>, i: nat)
    requires i < |trace|
  {
    i < |calls| && MatchesCall(calls[i], trace[i].request)
  }
}
