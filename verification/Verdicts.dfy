// Where the verdicts of a run come from: every recorded check judges what its condition evaluated to,
// and the record its symbol is bound to says the same.

module Verdicts {
  import opened Wrappers
  import opened Core
  import opened Failures
  import opened Operators
  import opened Ir
  import opened Semantics
  import opened Effects

  // The verdict on a value: PASS on complete truth, FAIL on complete falsehood, UNKNOWN on any truth
  // value whose data is not complete.
  predicate Verdict(c: CheckResult, x: Envelope) {
    && (c.status == PASS <==> x.value == VBool(true) && x.completeness == COMPLETE)
    && (c.status == FAIL <==> x.value == VBool(false) && x.completeness == COMPLETE)
    && (c.status == UNDECIDED <==> x.completeness != COMPLETE)
    && c.completeness == x.completeness && c.presence == x.presence && c.prov == x.prov
  }

  // The check was recorded by this statement, on what its condition evaluated to in some state.
  ghost predicate JudgedBy(env: Env, stmt: Stmt, b: Bindings, w: Ledger, c: CheckResult) {
    && stmt.Check? && c.checkId == stmt.checkId && c.severity == stmt.severity && c.message == stmt.message
    && EvalExpr(env, b, stmt.condition, w).res.Ok? && Verdict(c, EvalExpr(env, b, stmt.condition, w).res.value)
  }

  // All CHECKs of the statements, inside loops too.
  function ChecksIn(stmts: seq<Stmt>): set<Stmt>
    decreases stmts, 1
  {
    if stmts == [] then {} else ChecksOf(stmts[0]) + ChecksIn(stmts[1..])
  }

  function ChecksOf(stmt: Stmt): set<Stmt>
    decreases stmt, 0
  {
    if stmt.Check? then {stmt} else if stmt.Foreach? then ChecksIn(stmt.body) else {}
  }

  // The i-th check was recorded by one of the statements, on what its condition evaluated to when the
  // checks before it, and no others, had been recorded, and the calls so far had been made.
  ghost predicate Justified(env: Env, sources: set<Stmt>, v: Ledger, i: nat)
    requires i < |v.checks|
  {
    exists stmt, b, w: Ledger :: stmt in sources && w.checks == v.checks[..i] && w.trace <= v.trace && JudgedBy(env, stmt, b, w, v.checks[i])
  }

  ghost predicate AllJustified(env: Env, sources: set<Stmt>, v: Ledger) {
    forall i | 0 <= i < |v.checks| :: Justified(env, sources, v, i)
  }

  lemma JustifiedLater(env: Env, sources: set<Stmt>, v: Ledger, u: Ledger, i: nat)
    requires i < |v.checks| && Justified(env, sources, v, i) && v.checks <= u.checks && v.trace <= u.trace
    ensures Justified(env, sources, u, i)
  {
    hide JudgedBy;
    var stmt, b, w: Ledger :| stmt in sources && w.checks == v.checks[..i] && w.trace <= v.trace && JudgedBy(env, stmt, b, w, v.checks[i]);
    assert u.checks[..i] == v.checks[..i] && u.checks[i] == v.checks[i];
  }

  // Calls keep every verdict justified.
  lemma CallsKeepJustified(env: Env, sources: set<Stmt>, v: Ledger, u: Ledger)
    requires AllJustified(env, sources, v) && u.checks == v.checks && v.trace <= u.trace
    ensures AllJustified(env, sources, u)
  {
    hide Justified;
    forall i | 0 <= i < |u.checks| ensures Justified(env, sources, u, i) {
      JustifiedLater(env, sources, v, u, i);
    }
  }

  // The record a check's symbol is bound to: one field, with the status spelled out.
  predicate RecordSays(x: Envelope, c: CheckResult) {
    && x.value == VRecord(map["status" := VString(match c.status case PASS => "PASS" case FAIL => "FAIL" case UNDECIDED => "UNKNOWN")])
    && x.ty == CHECK_RESULT && x.cls == INTERNAL && x.completeness == COMPLETE && x.prov == c.prov
  }

  // A CHECK whose condition evaluates to a truth value records one verdict on it, and binds its symbol to
  // that verdict, unless the symbol is bound already.
  lemma CheckJudgesItsCondition(env: Env, stmt: Stmt, s: State)
    requires stmt.Check? && Framed(s.b)
    ensures var r := EvalExpr(env, s.b, stmt.condition, s.w); var after := ExecStmt(env, stmt, s);
      && (after.s.w.checks != s.w.checks ==>
        && |after.s.w.checks| == |s.w.checks| + 1 && after.s.w.checks[..|s.w.checks|] == s.w.checks
        && JudgedBy(env, stmt, s.b, s.w, after.s.w.checks[|s.w.checks|]))
      && (after.error.None? ==>
        && |after.s.w.checks| == |s.w.checks| + 1
        && Resolve(after.s.b, stmt.result).Some?
        && RecordSays(Resolve(after.s.b, stmt.result).value, after.s.w.checks[|s.w.checks|]))
      && (r.res.Ok? && r.res.value.ty.TBool? && r.res.value.value.VBool? ==> |after.s.w.checks| == |s.w.checks| + 1)
  {
    hide EvalExpr;
    EvalOnlyCalls(env, s.b, stmt.condition, s.w);
    var r := EvalExpr(env, s.b, stmt.condition, s.w);
    if r.res.Ok? && JudgeCheck(stmt.checkId, stmt.severity, stmt.message, r.res.value).Ok? {
      var c := JudgeCheck(stmt.checkId, stmt.severity, stmt.message, r.res.value).value;
      assert Verdict(c, r.res.value) && RecordSays(CheckEnvelope(c), c);
      if !IsBound(s.b, stmt.result) {
        BindResolves(s.b, stmt.result, CheckEnvelope(c), stmt.result);
      }
    }
    hide Resolve, IsBound, BindCheck, CheckEnvelope;
  }

  // Whatever a block runs into, it leaves only justified verdicts, and goes on from those there were.
  lemma {:induction false} BlockJustifies(env: Env, stmts: seq<Stmt>, s: State, sources: set<Stmt>)
    requires Framed(s.b) && ChecksIn(stmts) <= sources && AllJustified(env, sources, s.w)
    ensures AllJustified(env, sources, ExecBlock(env, stmts, s).s.w)
    decreases stmts, 2, 0
  {
    hide ExecStmt, ChecksOf, AllJustified;
    if stmts != [] {
      StmtJustifies(env, stmts[0], s, sources);
      var first := ExecStmt(env, stmts[0], s);
      if first.error.None? {
        BlockJustifies(env, stmts[1..], first.s, sources);
      }
    }
  }

  lemma {:induction false} StmtJustifies(env: Env, stmt: Stmt, s: State, sources: set<Stmt>)
    requires Framed(s.b) && ChecksOf(stmt) <= sources && AllJustified(env, sources, s.w)
    ensures AllJustified(env, sources, ExecStmt(env, stmt, s).s.w)
    decreases stmt, 1, 0
  {
    hide EvalExpr, EmitFields, ExecLoop, AllJustified;
    match stmt
    case Let(_, _, value) =>
      EvalOnlyCalls(env, s.b, value, s.w);
      CallsKeepJustified(env, sources, s.w, EvalExpr(env, s.b, value, s.w).w);
    case Check(_, _, _, _, _, _, _) => VerdictIsJustified(env, stmt, s, sources);
    case Emit(_, fields) =>
      if EmitSchemaOk(env.outputs, fields) {
        SchemaNamesKnown(env.outputs, fields);
        EmitFieldsOnlyCalls(env, s.b, fields, s.w);
        CallsKeepJustified(env, sources, s.w, ExecStmt(env, stmt, s).s.w);
      }
    case Foreach(_, _, collection, _, _) =>
      EvalOnlyCalls(env, s.b, collection, s.w);
      var r := EvalExpr(env, s.b, collection, s.w);
      CallsKeepJustified(env, sources, s.w, r.w);
      if r.res.Ok? && Elements(r.res.value.value).Some? {
        LoopJustifies(env, stmt, r.res.value, Elements(r.res.value.value).value, State(s.b, r.w, s.depth + 1), sources);
      }
    case Approval(_, _, _, _) =>
  }

  lemma VerdictIsJustified(env: Env, stmt: Stmt, s: State, sources: set<Stmt>)
    requires stmt.Check? && Framed(s.b) && stmt in sources && AllJustified(env, sources, s.w)
    ensures AllJustified(env, sources, ExecStmt(env, stmt, s).s.w)
  {
    CheckJudgesItsCondition(env, stmt, s);
    var v := ExecStmt(env, stmt, s).s.w;
    var n := |s.w.checks|;
    assert s.w.trace <= v.trace && (v.checks == s.w.checks || (|v.checks| == n + 1 && v.checks[..n] == s.w.checks)) by {
      EvalOnlyCalls(env, s.b, stmt.condition, s.w);
      hide EvalExpr;
    }
    hide ExecStmt, JudgedBy;
    forall i | 0 <= i < |v.checks| ensures Justified(env, sources, v, i) {
      if i < n {
        JustifiedLater(env, sources, s.w, v, i);
      }
    }
  }

  lemma {:induction false} LoopJustifies(env: Env, stmt: Stmt, collection: Envelope, items: seq<Value>, s: State, sources: set<Stmt>)
    requires stmt.Foreach? && Framed(s.b) && ChecksIn(stmt.body) <= sources && AllJustified(env, sources, s.w)
    ensures AllJustified(env, sources, ExecLoop(env, stmt, collection, items, s).s.w)
    decreases stmt, 0, |items|
  {
    hide ExecBlock, AllJustified;
    if items != [] && s.w.meter.loopIterations < env.limits.loopIterations {
      var counted := s.w.(meter := s.w.meter.(loopIterations := s.w.meter.loopIterations + 1));
      CallsKeepJustified(env, sources, s.w, counted);
      if !IsBound(Push(s.b), stmt.loopVariable) {
        LoopStep(env, stmt, collection, items, s);
        var entry := LoopEntry(stmt, collection, items, s);
        BlockJustifies(env, stmt.body, entry, sources);
        var body := ExecBlock(env, stmt.body, entry);
        if body.error.None? {
          LoopJustifies(env, stmt, collection, items[1..], State(s.b, body.s.w, s.depth), sources);
        }
      }
    }
  }
}
