// Where the values of a whole run come from: every reference a value carries names an answer that was
// really given, and no more classified than the value, except behind a check.

module ProvenanceFlow {
  import opened Wrappers
  import opened Core
  import opened Failures
  import opened Operators
  import opened Ir
  import opened Semantics
  import opened Effects
  import opened Execution
  import opened Compiler
  import opened ClassificationFlow
  import opened CompiledSkills
  import opened RunLimits

  type Trace = seq<ToolEvent>

  type Checks = seq<CheckResult>

  // ---------- what backs a reference ----------

  // The event gave the answer the reference names.
  predicate Gave(e: ToolEvent, p: Provenance) {
    e.reply.Returned? && p == Provenance(e.reply.result.invocation, e.reply.result.digest)
  }

  ghost predicate Answered(trace: Trace, p: Provenance) {
    exists i :: 0 <= i < |trace| && Gave(trace[i], p)
  }

  // The answer was no more classified than this.
  ghost predicate AnsweredWithin(trace: Trace, p: Provenance, cls: Classification) {
    exists i :: 0 <= i < |trace| && Gave(trace[i], p) && NoMoreThan(trace[i].reply.result.cls, cls)
  }

  ghost predicate Checked(checks: Checks, p: Provenance) {
    exists k :: 0 <= k < |checks| && p in checks[k].prov
  }

  // Either the answer itself may have that classification, or a check has looked at it.
  ghost predicate Backed(trace: Trace, checks: Checks, p: Provenance, cls: Classification) {
    AnsweredWithin(trace, p, cls) || (NoMoreThan(INTERNAL, cls) && Checked(checks, p))
  }

  ghost predicate Traced(trace: Trace, checks: Checks, x: Envelope) {
    forall p | p in x.prov :: Backed(trace, checks, p, x.cls)
  }

  ghost predicate AllTraced(trace: Trace, checks: Checks, b: Bindings) {
    forall id | IsBound(b, id) :: Traced(trace, checks, Resolve(b, id).value)
  }

  ghost predicate RowsTraced(trace: Trace, checks: Checks, rows: seq<Row>) {
    forall k, name | 0 <= k < |rows| && name in rows[k] :: Traced(trace, checks, rows[k][name])
  }

  // What a check looked at was answered.
  ghost predicate ChecksAnswered(trace: Trace, checks: Checks) {
    forall k | 0 <= k < |checks| :: CheckAnswered(trace, checks[k])
  }

  ghost predicate CheckAnswered(trace: Trace, c: CheckResult) {
    forall p | p in c.prov :: Answered(trace, p)
  }

  // ---------- nothing that backs a reference goes away ----------

  lemma BackedLater(trace: Trace, checks: Checks, more: Trace, others: Checks, p: Provenance, low: Classification, high: Classification)
    requires Backed(trace, checks, p, low) && trace <= more && checks <= others && NoMoreThan(low, high)
    ensures Backed(more, others, p, high)
  {
    if AnsweredWithin(trace, p, low) {
      var i :| 0 <= i < |trace| && Gave(trace[i], p) && NoMoreThan(trace[i].reply.result.cls, low);
      assert more[i] == trace[i];
    } else {
      var k :| 0 <= k < |checks| && p in checks[k].prov;
      assert others[k] == checks[k];
    }
  }

  lemma TracedLater(trace: Trace, checks: Checks, more: Trace, others: Checks, x: Envelope)
    requires Traced(trace, checks, x) && trace <= more && checks <= others
    ensures Traced(more, others, x)
  {
    forall p | p in x.prov ensures Backed(more, others, p, x.cls) {
      BackedLater(trace, checks, more, others, p, x.cls, x.cls);
    }
  }

  lemma AllTracedLater(trace: Trace, checks: Checks, more: Trace, others: Checks, b: Bindings)
    requires AllTraced(trace, checks, b) && trace <= more && checks <= others
    ensures AllTraced(more, others, b)
  {
    forall id | IsBound(b, id) ensures Traced(more, others, Resolve(b, id).value) {
      TracedLater(trace, checks, more, others, Resolve(b, id).value);
    }
  }

  lemma RowsTracedLater(trace: Trace, checks: Checks, more: Trace, others: Checks, rows: seq<Row>)
    requires RowsTraced(trace, checks, rows) && trace <= more && checks <= others
    ensures RowsTraced(more, others, rows)
  {
    forall k, name | 0 <= k < |rows| && name in rows[k] ensures Traced(more, others, rows[k][name]) {
      TracedLater(trace, checks, more, others, rows[k][name]);
    }
  }

  lemma ChecksAnsweredLater(trace: Trace, checks: Checks, more: Trace)
    requires ChecksAnswered(trace, checks) && trace <= more
    ensures ChecksAnswered(more, checks)
  {
    forall k | 0 <= k < |checks| ensures CheckAnswered(more, checks[k]) {
      assert CheckAnswered(trace, checks[k]);
      forall p | p in checks[k].prov ensures Answered(more, p) {
        var i :| 0 <= i < |trace| && Gave(trace[i], p);
        assert more[i] == trace[i];
      }
    }
  }

  // ---------- expressions ----------

  lemma {:induction false} ExprIsTraced(env: Env, b: Bindings, e: Expr, w: Ledger)
    requires AllTraced(w.trace, w.checks, b)
    ensures var r := EvalExpr(env, b, e, w); r.res.Ok? ==> Traced(r.w.trace, w.checks, r.res.value)
    decreases e, 1
  {
    hide Traced, CallTool, EvaluateBuiltin, ApplyBinary, IsBound, Resolve, Elements, Dedup;
    if EvalExpr(env, b, e, w).res.Ok? {
      match e
      case Literal(_, _, _) => LiteralIsTraced(env, b, e, w);
      case SymbolRef(_, _, _) =>
      case Field(_, _, _, _) => SourceIsTraced(env, b, e, w);
      case Projection(_, _, _, _) => SourceIsTraced(env, b, e, w);
      case Call(_, _, _, _) => CallIsTraced(env, b, e, w);
      case Binary(_, _, _, _, _) => BinaryIsTraced(env, b, e, w);
      case Read(_, _, _, _, _) => ReadIsTraced(env, b, e, w);
    }
  }

  lemma LiteralIsTraced(env: Env, b: Bindings, e: Expr, w: Ledger)
    requires e.Literal? && EvalExpr(env, b, e, w).res.Ok?
    ensures var r := EvalExpr(env, b, e, w); Traced(r.w.trace, w.checks, r.res.value)
  {
    assert EvalExpr(env, b, e, w).res.value.prov == [];
  }

  lemma {:induction false} SourceIsTraced(env: Env, b: Bindings, e: Expr, w: Ledger)
    requires (e.Field? || e.Projection?) && AllTraced(w.trace, w.checks, b) && EvalExpr(env, b, e, w).res.Ok?
    ensures var r := EvalExpr(env, b, e, w); Traced(r.w.trace, w.checks, r.res.value)
    decreases e, 0
  {
    hide Traced, AllTraced;
    var x, y := EvalExpr(env, b, e.source, w), EvalExpr(env, b, e, w);
    assert x.res.Ok? && x.w.trace == y.w.trace;
    assert x.res.value.cls == y.res.value.cls && x.res.value.prov == y.res.value.prov;
    ExprIsTraced(env, b, e.source, w);
    SameReferences(w.checks, x, y);
  }

  lemma SameReferences(checks: Checks, r: Eval<Envelope>, q: Eval<Envelope>)
    requires r.res.Ok? && q.res.Ok? && r.w.trace == q.w.trace && Traced(r.w.trace, checks, r.res.value)
    requires q.res.value.prov == r.res.value.prov && q.res.value.cls == r.res.value.cls
    ensures Traced(q.w.trace, checks, q.res.value)
  {
  }

  lemma {:induction false} CallIsTraced(env: Env, b: Bindings, e: Expr, w: Ledger)
    requires e.Call? && AllTraced(w.trace, w.checks, b) && EvalExpr(env, b, e, w).res.Ok?
    ensures var r := EvalExpr(env, b, e, w); Traced(r.w.trace, w.checks, r.res.value)
    decreases e, 0
  {
    hide EvaluateBuiltin, Traced, AllTraced;
    var xs := EvalOperands(env, b, e.operands, w);
    OnlyOperand(e.function_, xs.res.value, e.ty);
    assert e.operands[1..] == [];
    var x := EvalExpr(env, b, e.operands[0], w);
    assert EvalOperands(env, b, e.operands[1..], x.w).w == x.w;
    assert xs.res.value[0] == x.res.value && xs.w == x.w;
    ExprIsTraced(env, b, e.operands[0], w);
    SameReferences(w.checks, x, EvalExpr(env, b, e, w));
  }

  lemma {:induction false} BinaryIsTraced(env: Env, b: Bindings, e: Expr, w: Ledger)
    requires e.Binary? && AllTraced(w.trace, w.checks, b) && EvalExpr(env, b, e, w).res.Ok?
    ensures var r := EvalExpr(env, b, e, w); Traced(r.w.trace, w.checks, r.res.value)
    decreases e, 0
  {
    hide ApplyBinary, Traced, AllTraced;
    var l := EvalExpr(env, b, e.left, w);
    ExprIsTraced(env, b, e.left, w);
    EvalOnlyCalls(env, b, e.left, w);
    AllTracedLater(w.trace, w.checks, l.w.trace, w.checks, b);
    var r := EvalExpr(env, b, e.right, l.w);
    ExprIsTraced(env, b, e.right, l.w);
    EvalOnlyCalls(env, b, e.right, l.w);
    TracedLater(l.w.trace, w.checks, r.w.trace, w.checks, l.res.value);
    BothAreTraced(r.w.trace, w.checks, l.res.value, r.res.value, EvalExpr(env, b, e, w).res.value);
  }

  lemma BothAreTraced(trace: Trace, checks: Checks, x: Envelope, y: Envelope, z: Envelope)
    requires Traced(trace, checks, x) && Traced(trace, checks, y)
    requires z.cls == Highest(x.cls, y.cls) && z.prov == Dedup(x.prov + y.prov)
    ensures Traced(trace, checks, z)
  {
    DedupKeeps(x.prov + y.prov);
    assert NoMoreThan(x.cls, z.cls) && NoMoreThan(y.cls, z.cls);
    hide Backed, Dedup, Highest;
    forall p | p in z.prov ensures Backed(trace, checks, p, z.cls) {
      BackedLater(trace, checks, trace, checks, p, if p in x.prov then x.cls else y.cls, z.cls);
    }
  }

  lemma {:induction false} ReadIsTraced(env: Env, b: Bindings, e: Expr, w: Ledger)
    requires e.Read? && EvalExpr(env, b, e, w).res.Ok?
    ensures var r := EvalExpr(env, b, e, w); Traced(r.w.trace, w.checks, r.res.value)
  {
    var args := EvalArguments(env, b, e.arguments, w);
    hide EvalArguments, CallTool, AnsweredWithin;
    ReplyIsTraced(env, env.tools[e.tool], args.res.value, e.policy, args.w, w.checks);
  }

  lemma ReplyIsTraced(env: Env, contract: Contract, args: seq<NamedEnvelope>, policy: ResultPolicy, w: Ledger, checks: Checks)
    ensures var r := CallTool(env, contract, args, policy, w); r.res.Ok? ==> Traced(r.w.trace, checks, r.res.value)
  {
    var r := CallTool(env, contract, args, policy, w);
    if r.res.Ok? {
      var n := |r.w.trace| - 1;
      var x := r.res.value;
      assert Gave(r.w.trace[n], x.prov[0]) && r.w.trace[n].reply.result.cls == x.cls;
      assert AnsweredWithin(r.w.trace, x.prov[0], x.cls);
    }
  }

  lemma {:induction false} FieldsAreTraced(env: Env, b: Bindings, fields: seq<Argument>, w: Ledger)
    requires AllTraced(w.trace, w.checks, b) && forall i | 0 <= i < |fields| :: fields[i].name in OutputNames(env.outputs)
    ensures var r := EmitFields(env, b, fields, w);
      r.res.Ok? ==> forall i | 0 <= i < |fields| :: Traced(r.w.trace, w.checks, r.res.value[i].value)
    decreases |fields|
  {
    hide EvalExpr, Traced, AllTraced, RuntimeTypeOk;
    if fields != [] {
      var first := EvalExpr(env, b, fields[0].value, w);
      ExprIsTraced(env, b, fields[0].value, w);
      EvalOnlyCalls(env, b, fields[0].value, w);
      AllTracedLater(w.trace, w.checks, first.w.trace, w.checks, b);
      FieldsAreTraced(env, b, fields[1..], first.w);
      EmitFieldsOnlyCalls(env, b, fields[1..], first.w);
      var rest := EmitFields(env, b, fields[1..], first.w);
      if first.res.Ok? {
        TracedLater(first.w.trace, w.checks, rest.w.trace, w.checks, first.res.value);
      }
    }
  }

  // ---------- statements ----------

  ghost predicate Accounted(s: State) {
    && AllTraced(s.w.trace, s.w.checks, s.b) && RowsTraced(s.w.trace, s.w.checks, s.w.outputs)
    && ChecksAnswered(s.w.trace, s.w.checks)
  }

  // The run goes on from a prefix of what it has.
  ghost predicate Continues(w: Ledger, v: Ledger) {
    w.trace <= v.trace && w.checks <= v.checks
  }

  lemma CallingKeepsAccounts(s: State, w: Ledger)
    requires Accounted(s) && OnlyCalls(s.w, w)
    ensures Accounted(s.(w := w)) && Continues(s.w, w)
  {
    AllTracedLater(s.w.trace, s.w.checks, w.trace, w.checks, s.b);
    RowsTracedLater(s.w.trace, s.w.checks, w.trace, w.checks, s.w.outputs);
    ChecksAnsweredLater(s.w.trace, s.w.checks, w.trace);
  }

  lemma {:induction false} BindingKeepsTraced(trace: Trace, checks: Checks, b: Bindings, id: SymbolId, x: Envelope)
    requires Framed(b) && AllTraced(trace, checks, b) && !IsBound(b, id) && Traced(trace, checks, x)
    ensures AllTraced(trace, checks, Bind(b, id, x)) && AllTraced(trace, checks, BindCheck(b, id, x))
  {
    hide Traced;
    forall other
      ensures Resolve(Bind(b, id, x), other) == if other == id then Some(x) else Resolve(b, other)
      ensures Resolve(BindCheck(b, id, x), other) == if other == id then Some(x) else Resolve(b, other)
    {
      BindResolves(b, id, x, other);
    }
  }

  lemma {:induction false} PushKeepsTraced(trace: Trace, checks: Checks, b: Bindings)
    requires AllTraced(trace, checks, b)
    ensures AllTraced(trace, checks, Push(b))
  {
    hide Traced;
    forall id ensures Resolve(Push(b), id) == Resolve(b, id) {
      PushResolves(b, id);
    }
  }

  // In every run, from accounts in order, all accounts stay in order: on completion and on failure.
  lemma {:induction false} BlockIsAccounted(env: Env, stmts: seq<Stmt>, s: State)
    requires Framed(s.b) && Accounted(s)
    ensures var r := ExecBlock(env, stmts, s); Continues(s.w, r.s.w) && Accounted(r.s)
    decreases stmts, 3, 0
  {
    hide ExecStmt, Accounted;
    if stmts != [] {
      StmtIsAccounted(env, stmts[0], s);
      var first := ExecStmt(env, stmts[0], s);
      if first.error.None? {
        BlockIsAccounted(env, stmts[1..], first.s);
      }
    }
  }

  lemma {:induction false} StmtIsAccounted(env: Env, stmt: Stmt, s: State)
    requires Framed(s.b) && Accounted(s)
    ensures var r := ExecStmt(env, stmt, s); Continues(s.w, r.s.w) && Accounted(r.s)
    decreases stmt, 2, 0
  {
    match stmt
    case Let(_, _, _) => LetIsAccounted(env, stmt, s);
    case Check(_, _, _, _, _, _, _) => CheckIsAccounted(env, stmt, s);
    case Emit(_, _) => EmitIsAccounted(env, stmt, s);
    case Foreach(_, _, _, _, _) => ForeachIsAccounted(env, stmt, s);
    case Approval(_, _, _, _) =>
  }

  lemma LetIsAccounted(env: Env, stmt: Stmt, s: State)
    requires stmt.Let? && Framed(s.b) && Accounted(s)
    ensures var r := ExecStmt(env, stmt, s); Continues(s.w, r.s.w) && Accounted(r.s)
  {
    hide EvalExpr, AllTraced, RowsTraced, ChecksAnswered, Traced;
    ExprIsTraced(env, s.b, stmt.value, s.w);
    EvalOnlyCalls(env, s.b, stmt.value, s.w);
    var r := EvalExpr(env, s.b, stmt.value, s.w);
    CallingKeepsAccounts(s, r.w);
    if r.res.Ok? && !IsBound(s.b, stmt.target) {
      BindingKeepsTraced(r.w.trace, r.w.checks, s.b, stmt.target, r.res.value);
    }
  }

  lemma CheckIsAccounted(env: Env, stmt: Stmt, s: State)
    requires stmt.Check? && Framed(s.b) && Accounted(s)
    ensures var r := ExecStmt(env, stmt, s); Continues(s.w, r.s.w) && Accounted(r.s)
  {
    hide EvalExpr, AllTraced, RowsTraced, ChecksAnswered, Traced;
    ExprIsTraced(env, s.b, stmt.condition, s.w);
    EvalOnlyCalls(env, s.b, stmt.condition, s.w);
    var r := EvalExpr(env, s.b, stmt.condition, s.w);
    CallingKeepsAccounts(s, r.w);
    if r.res.Ok? {
      var j := JudgeCheck(stmt.checkId, stmt.severity, stmt.message, r.res.value);
      if j.Ok? {
        RecordingKeepsAccounts(s.(w := r.w), r.res.value, j.value);
        var w := r.w.(checks := r.w.checks + [j.value]);
        if !IsBound(s.b, stmt.result) {
          BindingKeepsTraced(w.trace, w.checks, s.b, stmt.result, CheckEnvelope(j.value));
        }
      }
    }
  }

  lemma RecordingKeepsAccounts(s: State, x: Envelope, c: CheckResult)
    requires Accounted(s) && Traced(s.w.trace, s.w.checks, x) && c.prov == x.prov
    ensures var w := s.w.(checks := s.w.checks + [c]); Accounted(s.(w := w)) && Traced(w.trace, w.checks, CheckEnvelope(c))
  {
    var checks := s.w.checks + [c];
    AllTracedLater(s.w.trace, s.w.checks, s.w.trace, checks, s.b);
    RowsTracedLater(s.w.trace, s.w.checks, s.w.trace, checks, s.w.outputs);
    SeenWasAnswered(s.w.trace, s.w.checks, x);
    assert CheckAnswered(s.w.trace, c);
    forall p | p in c.prov ensures Checked(checks, p) {
      assert checks[|s.w.checks|] == c;
    }
    hide AllTraced, RowsTraced, AnsweredWithin, CheckAnswered;
  }

  lemma SeenWasAnswered(trace: Trace, checks: Checks, x: Envelope)
    requires Traced(trace, checks, x) && ChecksAnswered(trace, checks)
    ensures forall p | p in x.prov :: Answered(trace, p)
  {
    forall p | p in x.prov ensures Answered(trace, p) {
      assert Backed(trace, checks, p, x.cls);
      if !AnsweredWithin(trace, p, x.cls) {
        var k :| 0 <= k < |checks| && p in checks[k].prov;
        assert CheckAnswered(trace, checks[k]);
      }
    }
  }

  lemma EmitIsAccounted(env: Env, stmt: Stmt, s: State)
    requires stmt.Emit? && Framed(s.b) && Accounted(s)
    ensures var r := ExecStmt(env, stmt, s); Continues(s.w, r.s.w) && Accounted(r.s)
  {
    hide EmitFields, EmitSchemaOk, AllTraced, RowsTraced, ChecksAnswered, Traced;
    if EmitSchemaOk(env.outputs, stmt.fields) {
      SchemaIsKnown(env, stmt);
      FieldsAreTraced(env, s.b, stmt.fields, s.w);
      EmitFieldsOnlyCalls(env, s.b, stmt.fields, s.w);
      var r := EmitFields(env, s.b, stmt.fields, s.w);
      CallingKeepsAccounts(s, r.w);
      if r.res.Ok? {
        RowIsTraced(r.w.trace, s.w.checks, r.w.outputs, r.res.value);
      }
    }
  }

  lemma SchemaIsKnown(env: Env, stmt: Stmt)
    requires stmt.Emit? && EmitSchemaOk(env.outputs, stmt.fields)
    ensures forall i | 0 <= i < |stmt.fields| :: stmt.fields[i].name in OutputNames(env.outputs)
  {
    SchemaNamesKnown(env.outputs, stmt.fields);
  }

  lemma RowIsTraced(trace: Trace, checks: Checks, rows: seq<Row>, xs: seq<NamedEnvelope>)
    requires RowsTraced(trace, checks, rows) && forall i | 0 <= i < |xs| :: Traced(trace, checks, xs[i].value)
    ensures RowsTraced(trace, checks, rows + [RowOf(xs)])
  {
    hide Traced, RowOf;
    var row: Row := RowOf(xs);
    var all: seq<Row> := rows + [row];
    forall k, name | 0 <= k < |all| && name in all[k] ensures Traced(trace, checks, all[k][name]) {
      if k == |rows| {
        assert NamedEnvelope(name, row[name]) in xs;
      }
    }
  }

  lemma {:induction false} ForeachIsAccounted(env: Env, stmt: Stmt, s: State)
    requires stmt.Foreach? && Framed(s.b) && Accounted(s)
    ensures var r := ExecForeach(env, stmt, s); Continues(s.w, r.s.w) && Accounted(r.s)
    decreases stmt, 1, 0
  {
    hide EvalExpr, Elements, ExecLoop, AllTraced, RowsTraced, ChecksAnswered, Traced;
    ExprIsTraced(env, s.b, stmt.collection, s.w);
    EvalOnlyCalls(env, s.b, stmt.collection, s.w);
    var r := EvalExpr(env, s.b, stmt.collection, s.w);
    CallingKeepsAccounts(s, r.w);
    if s.depth < MAX_FOREACH_NESTING_DEPTH && r.res.Ok? && Elements(r.res.value.value).Some? {
      var items := Elements(r.res.value.value).value;
      if |items| <= stmt.maxIterations {
        LoopIsAccounted(env, stmt, r.res.value, items, State(s.b, r.w, s.depth + 1));
      }
    }
  }

  lemma {:induction false} LoopIsAccounted(env: Env, stmt: Stmt, collection: Envelope, items: seq<Value>, s: State)
    requires stmt.Foreach? && Framed(s.b) && Accounted(s) && Traced(s.w.trace, s.w.checks, collection)
    ensures var r := ExecLoop(env, stmt, collection, items, s); Continues(s.w, r.s.w) && Accounted(r.s)
    decreases stmt, 0, |items|
  {
    hide ExecBlock, AllTraced, RowsTraced, ChecksAnswered, IsBound, Backed;
    if items != [] && s.w.meter.loopIterations < env.limits.loopIterations && !IsBound(Push(s.b), stmt.loopVariable) {
      LoopStep(env, stmt, collection, items, s);
      var entry := LoopEntry(stmt, collection, items, s);
      PushKeepsTraced(s.w.trace, s.w.checks, s.b);
      BindingKeepsTraced(s.w.trace, s.w.checks, Push(s.b), stmt.loopVariable, ItemEnvelope(collection, items[0]));
      BlockIsAccounted(env, stmt.body, entry);
      var body := ExecBlock(env, stmt.body, entry);
      AllTracedLater(s.w.trace, s.w.checks, body.s.w.trace, body.s.w.checks, s.b);
      if body.error.None? {
        TracedLater(s.w.trace, s.w.checks, body.s.w.trace, body.s.w.checks, collection);
        LoopIsAccounted(env, stmt, collection, items[1..], State(s.b, body.s.w, s.depth));
      }
    }
  }

  // ---------- whole runs ----------

  // In any run of any skill, every reference in an emitted value names an answer of the run, which is no
  // more classified than the value; or the value is INTERNAL at least, and a check has looked at it.
  lemma {:induction false} EmittedReferencesAreBacked(skill: Skill, request: Request, refs: set<ToolRef>, port: Port)
    requires Execute(skill, request, refs, port).Ok?
    ensures var w := Execute(skill, request, refs, port).value.s.w;
      forall k, name, p | 0 <= k < |w.outputs| && name in w.outputs[k] && p in w.outputs[k][name].prov ::
        && Answered(w.trace, p)
        && (AnsweredWithin(w.trace, p, w.outputs[k][name].cls) || (w.outputs[k][name].cls != PUBLIC && Checked(w.checks, p)))
  {
    var s := Start(skill, request).value;
    NothingToAccount(skill, request);
    BlockIsAccounted(EnvOf(skill, refs, port), skill.body, s);
    hide ExecBlock, Start, Answered, AnsweredWithin, Checked, AllTraced;
    var w := Execute(skill, request, refs, port).value.s.w;
    forall k, name | 0 <= k < |w.outputs| && name in w.outputs[k] ensures forall p | p in w.outputs[k][name].prov :: Answered(w.trace, p) {
      SeenWasAnswered(w.trace, w.checks, w.outputs[k][name]);
    }
  }

  lemma NothingToAccount(skill: Skill, request: Request)
    requires Start(skill, request).Ok?
    ensures Accounted(Start(skill, request).value) && Framed(Start(skill, request).value.b)
  {
    hide AdmitInputs, AdmitContexts, BindAll, SymbolsDistinct, InputGiven, ContextGiven, ValueAt;
    var s := Start(skill, request).value;
    var inputs := AdmitInputs(skill.limits, Fields(skill.inputs), request.inputs, 0).value;
    var contexts := AdmitContexts(skill.limits, Fields(skill.contexts), request.context, inputs.seen).value;
    InputsAreExact(skill.limits, Fields(skill.inputs), request.inputs, 0);
    ContextsAreExact(skill.limits, Fields(skill.contexts), request.context, inputs.seen);
    SymbolsOfBoth(skill);
    GivenNamesNothing(skill.inputs, inputs.values);
    GivenNamesNothing(skill.contexts, contexts.values);
    forall id | IsBound(s.b, id) ensures Resolve(s.b, id).value.prov == [] {
      EmptyFramesResolve(s.b, id);
    }
  }

  lemma GivenNamesNothing(specs: seq<Spec>, values: seq<Envelope>)
    requires |values| == |specs| && SymbolsDistinct(specs) && forall i | 0 <= i < |values| :: values[i].prov == []
    ensures forall id | id in BindAll(specs, values, map[]) :: BindAll(specs, values, map[])[id].prov == []
  {
    AllAreBound(specs, values, map[]);
    hide BindAll, SymbolsDistinct;
  }

  // A check lowers the classification of what it looked at exactly when that is above INTERNAL: its record
  // is INTERNAL, whatever the condition was, and names the condition's own references.
  lemma VerdictsAreInternal(env: Env, stmt: Stmt, s: State)
    requires stmt.Check? && Framed(s.b) && ExecStmt(env, stmt, s).error.None?
    ensures var x := EvalExpr(env, s.b, stmt.condition, s.w).res; var record := Resolve(ExecStmt(env, stmt, s).s.b, stmt.result);
      && x.Ok? && record.Some? && record.value.prov == x.value.prov
      && (NoMoreThan(x.value.cls, record.value.cls) <==> x.value.cls == PUBLIC || x.value.cls == INTERNAL)
  {
    hide EvalExpr;
    var r := EvalExpr(env, s.b, stmt.condition, s.w);
    var c := JudgeCheck(stmt.checkId, stmt.severity, stmt.message, r.res.value).value;
    BindResolves(s.b, stmt.result, CheckEnvelope(c), stmt.result);
    hide Resolve, BindCheck, IsBound;
  }
}
