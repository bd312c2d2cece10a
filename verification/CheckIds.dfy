// The ids of a run's checks: when a result of language version 0.2 can be built from them.

module CheckIds {
  import opened Wrappers
  import opened Core
  import opened Failures
  import opened Operators
  import opened Ir
  import opened Semantics
  import opened Effects
  import opened Symbols
  import opened Ast
  import opened Compiler
  import opened Execution
  import opened CompiledSkills

  // ---------- the summary ----------

  datatype SummaryStatus = ALL_PASS | HAS_FAIL | HAS_UNKNOWN | HAS_FAIL_AND_UNKNOWN | NO_CHECK

  datatype Summary = Summary(status: SummaryStatus, total: nat, failed: set<string>, unknown: set<string>)

  function IdsOf(checks: seq<CheckResult>): (ids: seq<string>)
    ensures |ids| == |checks| && forall i | 0 <= i < |ids| :: ids[i] == checks[i].checkId
  {
    seq(|checks|, i requires 0 <= i < |checks| => checks[i].checkId)
  }

  function IdsWith(checks: seq<CheckResult>, status: CheckStatus): set<string> {
    set i | 0 <= i < |checks| && checks[i].status == status :: checks[i].checkId
  }

  // The summary every result of version 0.2 carries; without one there is no result at all.
  function Summarize(checks: seq<CheckResult>): Option<Summary> {
    if !Distinct(IdsOf(checks)) || exists i :: 0 <= i < |checks| && Blank(checks[i].checkId) then None
    else
      var failed, unknown := IdsWith(checks, FAIL), IdsWith(checks, UNDECIDED);
      var status :=
        if checks == [] then NO_CHECK
        else if failed != {} && unknown != {} then HAS_FAIL_AND_UNKNOWN
        else if failed != {} then HAS_FAIL
        else if unknown != {} then HAS_UNKNOWN
        else ALL_PASS;
      Some(Summary(status, |checks|, failed, unknown))
  }

  // ---------- checks of a body ----------

  function CheckIdsOf(stmts: seq<Stmt>): seq<string> {
    if stmts == [] then []
    else (if stmts[0].Check? then [stmts[0].checkId] else []) + CheckIdsOf(stmts[1..])
  }

  predicate NoChecks(stmt: Stmt)
    decreases stmt
  {
    !stmt.Check? && (stmt.Foreach? ==> forall i | 0 <= i < |stmt.body| :: NoChecks(stmt.body[i]))
  }

  // Every CHECK stands outside loops.
  predicate ChecksOutside(stmts: seq<Stmt>) {
    forall i | 0 <= i < |stmts| && !stmts[i].Check? :: NoChecks(stmts[i])
  }

  // ---------- the compiler gives no id twice ----------

  // Outer scopes are as they were, and nothing visible is lost.
  predicate Grows(t: Table, u: Table) {
    && t.frames != [] && |u.frames| == |t.frames|
    && u.frames[..|t.frames| - 1] == t.frames[..|t.frames| - 1]
    && t.frames[|t.frames| - 1].names.Keys <= u.frames[|t.frames| - 1].names.Keys
  }

  lemma GrowingKeepsNames(t: Table, u: Table, name: string)
    requires Grows(t, u) && Visible(t.frames, name)
    ensures Visible(u.frames, name)
  {
    var i :| 0 <= i < |t.frames| && name in t.frames[i].names;
    if i < |t.frames| - 1 {
      assert u.frames[..|t.frames| - 1][i] == t.frames[..|t.frames| - 1][i];
    }
    assert name in u.frames[i].names;
  }

  lemma GrowingTwice(t: Table, u: Table, v: Table)
    requires Grows(t, u) && Grows(u, v)
    ensures Grows(t, v)
  {
  }

  lemma DeclaringGrows(t: Table, name: string, namespace: Namespace, ty: Type, cls: Classification)
    requires t.frames != []
    ensures var d := Declared(t, name, namespace, ty, cls); Grows(t, d) && Visible(d.frames, name)
  {
    var d := Declared(t, name, namespace, ty, cls);
    assert name in d.frames[|t.frames| - 1].names;
  }

  lemma {:induction false} StmtGrows(tools: Tools, outputs: seq<OutputField>, stmt: AstStmt, s: LState)
    requires s.table.frames != [] && LowerStmt(tools, outputs, stmt, s).Ok?
    ensures Grows(s.table, LowerStmt(tools, outputs, stmt, s).value.state.table)
    decreases stmt, 1
  {
    hide LowerExpr, LowerFields, LowerBlock, Declared, NamesMatch;
    match stmt
    case ALet(name, value) =>
      var l := LowerExpr(tools, s.table, value, s.nodes).value;
      DeclaringGrows(s.table, name, VALUE, l.expr.ty, l.cls);
    case ACheck(checkId, _, _, _, _) => DeclaringGrows(s.table, checkId, CHECKS, CHECK_RESULT, INTERNAL);
    case AEmit(_) =>
    case AApprove(_, _) =>
    case AForeach(_, _, _, _) => ForeachGrows(tools, outputs, stmt, s);
  }

  lemma {:induction false} ForeachGrows(tools: Tools, outputs: seq<OutputField>, stmt: AstStmt, s: LState)
    requires stmt.AForeach? && s.table.frames != [] && LowerStmt(tools, outputs, stmt, s).Ok?
    ensures LowerStmt(tools, outputs, stmt, s).value.state.table.frames == s.table.frames
    decreases stmt, 0
  {
    hide LowerExpr, LowerBlock, Declared;
    var c := LowerExpr(tools, s.table, stmt.collection, s.nodes).value;
    var entered := Enter(s.table);
    var inner := DeclareIn(LState(entered, c.nodes), stmt.loopName, VALUE, c.expr.ty.item, c.cls).value;
    DeclaringGrows(entered, stmt.loopName, VALUE, c.expr.ty.item, c.cls);
    BlockGrows(tools, outputs, stmt.body, inner);
    var left := LowerBlock(tools, outputs, stmt.body, inner).value.state.table;
    GrowingTwice(entered, inner.table, left);
    assert entered.frames[..|s.table.frames|] == s.table.frames;
  }

  lemma {:induction false} BlockGrows(tools: Tools, outputs: seq<OutputField>, stmts: seq<AstStmt>, s: LState)
    requires s.table.frames != [] && LowerBlock(tools, outputs, stmts, s).Ok?
    ensures Grows(s.table, LowerBlock(tools, outputs, stmts, s).value.state.table)
    decreases stmts, 1
  {
    hide LowerStmt;
    if stmts != [] {
      StmtGrows(tools, outputs, stmts[0], s);
      var first := LowerStmt(tools, outputs, stmts[0], s).value;
      BlockGrows(tools, outputs, stmts[1..], first.state);
      GrowingTwice(s.table, first.state.table, LowerBlock(tools, outputs, stmts[1..], first.state).value.state.table);
    }
  }

  lemma LoweredCheckIsNew(tools: Tools, outputs: seq<OutputField>, stmt: AstStmt, s: LState)
    requires s.table.frames != [] && LowerStmt(tools, outputs, stmt, s).Ok? && LowerStmt(tools, outputs, stmt, s).value.stmt.Check?
    ensures var l := LowerStmt(tools, outputs, stmt, s).value;
      !Visible(s.table.frames, l.stmt.checkId) && Visible(l.state.table.frames, l.stmt.checkId)
  {
    hide LowerExpr, LowerFields, LowerBlock, Declared, NamesMatch, Visible;
    DeclaringGrows(s.table, stmt.checkId, CHECKS, CHECK_RESULT, INTERNAL);
  }

  // A block's checks have distinct ids, none of which was in use before.
  lemma {:induction false} LoweredIdsAreDistinct(tools: Tools, outputs: seq<OutputField>, stmts: seq<AstStmt>, s: LState)
    requires s.table.frames != [] && LowerBlock(tools, outputs, stmts, s).Ok?
    ensures var ids := CheckIdsOf(LowerBlock(tools, outputs, stmts, s).value.stmts);
      Distinct(ids) && forall i | 0 <= i < |ids| :: !Visible(s.table.frames, ids[i])
    decreases |stmts|
  {
    hide LowerStmt, Visible, Grows;
    if stmts != [] {
      var first := LowerStmt(tools, outputs, stmts[0], s).value;
      var rest := LowerBlock(tools, outputs, stmts[1..], first.state).value;
      StmtGrows(tools, outputs, stmts[0], s);
      LoweredIdsAreDistinct(tools, outputs, stmts[1..], first.state);
      var ids := CheckIdsOf(rest.stmts);
      assert ([first.stmt] + rest.stmts)[1..] == rest.stmts;
      forall i | 0 <= i < |ids| ensures !Visible(s.table.frames, ids[i]) {
        if Visible(s.table.frames, ids[i]) {
          GrowingKeepsNames(s.table, first.state.table, ids[i]);
        }
      }
      if first.stmt.Check? {
        LoweredCheckIsNew(tools, outputs, stmts[0], s);
      }
    }
  }

  // ---------- what a run records ----------

  lemma {:induction false} NothingChecked(env: Env, stmt: Stmt, s: State)
    requires Framed(s.b) && NoChecks(stmt)
    ensures ExecStmt(env, stmt, s).s.w.checks == s.w.checks
    decreases stmt, 1, 0
  {
    hide EvalExpr, EmitFields, ExecLoop;
    match stmt
    case Let(_, _, value) => EvalOnlyCalls(env, s.b, value, s.w);
    case Emit(_, fields) =>
      if EmitSchemaOk(env.outputs, fields) {
        SchemaNamesKnown(env.outputs, fields);
        EmitFieldsOnlyCalls(env, s.b, fields, s.w);
      }
    case Foreach(_, _, collection, _, _) =>
      EvalOnlyCalls(env, s.b, collection, s.w);
      var r := EvalExpr(env, s.b, collection, s.w);
      if r.res.Ok? && Elements(r.res.value.value).Some? {
        NothingCheckedInLoop(env, stmt, r.res.value, Elements(r.res.value.value).value, State(s.b, r.w, s.depth + 1));
      }
    case Approval(_, _, _, _) =>
  }

  lemma {:induction false} NothingCheckedInLoop(env: Env, stmt: Stmt, collection: Envelope, items: seq<Value>, s: State)
    requires stmt.Foreach? && Framed(s.b) && NoChecks(stmt)
    ensures ExecLoop(env, stmt, collection, items, s).s.w.checks == s.w.checks
    decreases stmt, 0, |items|
  {
    hide ExecBlock, NoChecks;
    if items != [] && s.w.meter.loopIterations < env.limits.loopIterations && !IsBound(Push(s.b), stmt.loopVariable) {
      LoopStep(env, stmt, collection, items, s);
      var entry := LoopEntry(stmt, collection, items, s);
      InnerHasNoChecks(stmt);
      NothingCheckedInBlock(env, stmt.body, entry);
      var body := ExecBlock(env, stmt.body, entry);
      if body.error.None? {
        NothingCheckedInLoop(env, stmt, collection, items[1..], State(s.b, body.s.w, s.depth));
      }
    }
  }

  lemma InnerHasNoChecks(stmt: Stmt)
    requires stmt.Foreach? && NoChecks(stmt)
    ensures forall i | 0 <= i < |stmt.body| :: NoChecks(stmt.body[i])
  {
  }

  lemma {:induction false} NothingCheckedInBlock(env: Env, stmts: seq<Stmt>, s: State)
    requires Framed(s.b) && forall i | 0 <= i < |stmts| :: NoChecks(stmts[i])
    ensures ExecBlock(env, stmts, s).s.w.checks == s.w.checks
    decreases stmts, 2, 0
  {
    hide ExecStmt, NoChecks;
    if stmts != [] {
      NothingChecked(env, stmts[0], s);
      var first := ExecStmt(env, stmts[0], s);
      if first.error.None? {
        NothingCheckedInBlock(env, stmts[1..], first.s);
      }
    }
  }

  lemma OneCheck(env: Env, stmt: Stmt, s: State)
    requires Framed(s.b) && stmt.Check?
    ensures var after := ExecStmt(env, stmt, s).s.w.checks;
      after == s.w.checks || (|after| == |s.w.checks| + 1 && after[..|s.w.checks|] == s.w.checks && after[|s.w.checks|].checkId == stmt.checkId)
    ensures ExecStmt(env, stmt, s).error.None? ==> |ExecStmt(env, stmt, s).s.w.checks| == |s.w.checks| + 1
  {
    hide EvalExpr;
    EvalOnlyCalls(env, s.b, stmt.condition, s.w);
    var r := EvalExpr(env, s.b, stmt.condition, s.w);
    assert r.res.Ok? ==> JudgeCheck(stmt.checkId, stmt.severity, stmt.message, r.res.value).Ok? ==>
      JudgeCheck(stmt.checkId, stmt.severity, stmt.message, r.res.value).value.checkId == stmt.checkId;
  }

  // A run of such a body records the ids in order, up to where it stops.
  lemma {:induction false} ChecksInOrder(env: Env, stmts: seq<Stmt>, s: State)
    requires Framed(s.b) && ChecksOutside(stmts)
    ensures var after := ExecBlock(env, stmts, s).s.w.checks;
      && s.w.checks <= after
      && IdsOf(after[|s.w.checks|..]) <= CheckIdsOf(stmts)
    decreases |stmts|
  {
    hide ExecStmt, NoChecks;
    var n := |s.w.checks|;
    if stmts == [] {
      assert s.w.checks[n..] == [];
    } else {
      if stmts[0].Check? {
        OneCheck(env, stmts[0], s);
      } else {
        NothingChecked(env, stmts[0], s);
      }
      var first := ExecStmt(env, stmts[0], s);
      var done := first.s.w.checks;
      var own := if stmts[0].Check? then [stmts[0].checkId] else [];
      assert IdsOf(done[n..]) <= own;
      if first.error.None? {
        assert IdsOf(done[n..]) == own;
        ChecksInOrder(env, stmts[1..], first.s);
        var after := ExecBlock(env, stmts[1..], first.s).s.w.checks;
        assert after[n..] == done[n..] + after[|done|..];
        assert IdsOf(after[n..]) == own + IdsOf(after[|done|..]);
      }
    }
  }

  lemma PrefixIsDistinct(a: seq<string>, b: seq<string>)
    requires a <= b && Distinct(b)
    ensures Distinct(a)
  {
    forall i, j | 0 <= i < j < |a| ensures a[i] != a[j] {
      assert a[i] == b[i] && a[j] == b[j];
    }
  }

  // In every run of an accepted skill whose CHECKs stand outside loops, completed or not, the recorded
  // ids are distinct, so a result can be built as soon as no id is blank.
  lemma {:induction false} ResultsExist(catalog: Catalog, ast: AstSkill, request: Request, refs: set<ToolRef>, port: Port)
    requires Compile(catalog, ast).Ok? && Execute(Compile(catalog, ast).value, request, refs, port).Ok?
    requires ChecksOutside(Compile(catalog, ast).value.body)
    ensures var checks := Execute(Compile(catalog, ast).value, request, refs, port).value.s.w.checks;
      && Distinct(IdsOf(checks))
      && (Summarize(checks).Some? <==> forall i | 0 <= i < |checks| :: !Blank(checks[i].checkId))
  {
    var skill := Compile(catalog, ast).value;
    var p := PartsOf(catalog, ast);
    CompiledFromParts(catalog, ast);
    LoweredIdsAreDistinct(p.tools, ast.outputs, ast.body, LState(p.contexts.table, map[]));
    ExecuteRunsTheBody(skill, request, refs, port, false);
    StartsUnchecked(skill, request);
    var s := Start(skill, request).value;
    hide Compile, PartsOf, Execute, Start, LowerBlock, ExecBlock, ChecksOutside, CheckIdsOf, DeclareSpecs, ResolveTools;
    ChecksInOrder(EnvOf(skill, refs, port), skill.body, s);
    var checks := ExecBlock(EnvOf(skill, refs, port), skill.body, s).s.w.checks;
    assert checks[0..] == checks;
    PrefixIsDistinct(IdsOf(checks), CheckIdsOf(skill.body));
  }

  lemma StartsUnchecked(skill: Skill, request: Request)
    requires Start(skill, request).Ok?
    ensures Start(skill, request).value.w.checks == [] && Framed(Start(skill, request).value.b)
  {
  }

  // ---------- a check in a loop ----------

  function Times(checks: seq<CheckResult>, id: string): nat {
    if checks == [] then 0
    else Times(checks[..|checks| - 1], id) + if checks[|checks| - 1].checkId == id then 1 else 0
  }

  lemma {:induction false} TimesMore(a: seq<CheckResult>, b: seq<CheckResult>, id: string)
    requires a <= b
    ensures Times(a, id) <= Times(b, id)
    decreases |b|
  {
    if |a| < |b| {
      TimesMore(a, b[..|b| - 1], id);
    } else {
      assert a == b;
    }
  }

  lemma {:induction false} TwiceIsNotDistinct(checks: seq<CheckResult>, id: string)
    requires Times(checks, id) >= 2
    ensures !Distinct(IdsOf(checks))
    decreases |checks|
  {
    var front := checks[..|checks| - 1];
    if checks[|checks| - 1].checkId == id {
      OnceIsThere(front, id);
      var i :| 0 <= i < |front| && front[i].checkId == id;
      assert IdsOf(checks)[i] == IdsOf(checks)[|checks| - 1];
    } else {
      TwiceIsNotDistinct(front, id);
      var i, j :| 0 <= i < j < |front| && IdsOf(front)[i] == IdsOf(front)[j];
      assert IdsOf(checks)[i] == IdsOf(checks)[j];
    }
  }

  lemma {:induction false} OnceIsThere(checks: seq<CheckResult>, id: string)
    requires Times(checks, id) >= 1
    ensures exists i :: 0 <= i < |checks| && checks[i].checkId == id
  {
    if checks[|checks| - 1].checkId != id {
      OnceIsThere(checks[..|checks| - 1], id);
      var i :| 0 <= i < |checks| - 1 && checks[..|checks| - 1][i].checkId == id;
      assert checks[i].checkId == id;
    }
  }

  // Checks are only ever added.
  lemma {:induction false} ChecksGrow(env: Env, stmts: seq<Stmt>, s: State)
    requires Framed(s.b)
    ensures s.w.checks <= ExecBlock(env, stmts, s).s.w.checks
    decreases stmts, 2, 0
  {
    hide ExecStmt;
    if stmts != [] {
      StmtChecksGrow(env, stmts[0], s);
      var first := ExecStmt(env, stmts[0], s);
      if first.error.None? {
        ChecksGrow(env, stmts[1..], first.s);
      }
    }
  }

  lemma {:induction false} StmtChecksGrow(env: Env, stmt: Stmt, s: State)
    requires Framed(s.b)
    ensures s.w.checks <= ExecStmt(env, stmt, s).s.w.checks
    decreases stmt, 1, 0
  {
    if stmt.Foreach? {
      hide EvalExpr, ExecLoop;
      EvalOnlyCalls(env, s.b, stmt.collection, s.w);
      var r := EvalExpr(env, s.b, stmt.collection, s.w);
      if r.res.Ok? && Elements(r.res.value.value).Some? {
        LoopChecksGrow(env, stmt, r.res.value, Elements(r.res.value.value).value, State(s.b, r.w, s.depth + 1));
      }
    } else if stmt.Check? {
      OneCheck(env, stmt, s);
    } else {
      NothingChecked(env, stmt, s);
    }
  }

  lemma {:induction false} LoopChecksGrow(env: Env, stmt: Stmt, collection: Envelope, items: seq<Value>, s: State)
    requires stmt.Foreach? && Framed(s.b)
    ensures s.w.checks <= ExecLoop(env, stmt, collection, items, s).s.w.checks
    decreases stmt, 0, |items|
  {
    hide ExecBlock;
    if items != [] && s.w.meter.loopIterations < env.limits.loopIterations && !IsBound(Push(s.b), stmt.loopVariable) {
      LoopStep(env, stmt, collection, items, s);
      var entry := LoopEntry(stmt, collection, items, s);
      ChecksGrow(env, stmt.body, entry);
      var body := ExecBlock(env, stmt.body, entry);
      if body.error.None? {
        LoopChecksGrow(env, stmt, collection, items[1..], State(s.b, body.s.w, s.depth));
      }
    }
  }

  // A completed run of a block records each of its own checks.
  lemma {:induction false} BlockRecords(env: Env, stmts: seq<Stmt>, s: State, k: nat)
    requires Framed(s.b) && k < |stmts| && stmts[k].Check? && ExecBlock(env, stmts, s).error.None?
    ensures Times(ExecBlock(env, stmts, s).s.w.checks, stmts[k].checkId) > Times(s.w.checks, stmts[k].checkId)
    decreases |stmts|
  {
    hide ExecStmt, Times;
    var first := ExecStmt(env, stmts[0], s);
    var id := stmts[k].checkId;
    if k == 0 {
      OneCheck(env, stmts[0], s);
      RecordedOnce(s.w.checks, first.s.w.checks, id);
      ChecksGrow(env, stmts[1..], first.s);
      TimesMore(first.s.w.checks, ExecBlock(env, stmts[1..], first.s).s.w.checks, id);
    } else {
      StmtChecksGrow(env, stmts[0], s);
      TimesMore(s.w.checks, first.s.w.checks, id);
      assert stmts[1..][k - 1] == stmts[k];
      BlockRecords(env, stmts[1..], first.s, k - 1);
    }
  }

  lemma RecordedOnce(before: seq<CheckResult>, after: seq<CheckResult>, id: string)
    requires |after| == |before| + 1 && after[..|before|] == before && after[|before|].checkId == id
    ensures Times(after, id) == Times(before, id) + 1
  {
  }

  lemma {:induction false} LoopRecords(env: Env, stmt: Stmt, collection: Envelope, items: seq<Value>, s: State, k: nat)
    requires stmt.Foreach? && Framed(s.b) && k < |stmt.body| && stmt.body[k].Check?
    requires ExecLoop(env, stmt, collection, items, s).error.None?
    ensures Times(ExecLoop(env, stmt, collection, items, s).s.w.checks, stmt.body[k].checkId) >= Times(s.w.checks, stmt.body[k].checkId) + |items|
    decreases |items|
  {
    hide ExecBlock, Times;
    if items != [] {
      LoopStep(env, stmt, collection, items, s);
      var entry := LoopEntry(stmt, collection, items, s);
      var body := ExecBlock(env, stmt.body, entry);
      hide LoopEntry;
      assert entry.w.checks == s.w.checks;
      BlockRecords(env, stmt.body, entry, k);
      LoopRecords(env, stmt, collection, items[1..], State(s.b, body.s.w, s.depth), k);
    }
  }

  // A CHECK in a loop that completes two iterations or more leaves a run without a result.
  lemma {:induction false} CheckInALoopHasNoResult(env: Env, stmt: Stmt, collection: Envelope, items: seq<Value>, s: State, k: nat)
    requires stmt.Foreach? && Framed(s.b) && k < |stmt.body| && stmt.body[k].Check? && |items| >= 2
    requires ExecLoop(env, stmt, collection, items, s).error.None?
    ensures Summarize(ExecLoop(env, stmt, collection, items, s).s.w.checks).None?
  {
    LoopRecords(env, stmt, collection, items, s, k);
    hide ExecLoop, Times;
    TwiceIsNotDistinct(ExecLoop(env, stmt, collection, items, s).s.w.checks, stmt.body[k].checkId);
  }

  // ---------- checks at any depth ----------

  // The id of the CHECK that a path of statement numbers leads to, through the bodies of loops.
  function CheckAt(stmts: seq<Stmt>, path: seq<nat>): Option<string>
    decreases |path|, 0
  {
    if path == [] || path[0] >= |stmts| then None else CheckIn(stmts[path[0]], path[1..])
  }

  function CheckIn(stmt: Stmt, path: seq<nat>): Option<string>
    decreases |path|, 1
  {
    if path != [] then (if stmt.Foreach? then CheckAt(stmt.body, path) else None)
    else if stmt.Check? then Some(stmt.checkId)
    else None
  }

  // How often a completed run of the statements comes to that CHECK.
  function Rounds(env: Env, stmts: seq<Stmt>, s: State, path: seq<nat>): nat
    requires Framed(s.b) && CheckAt(stmts, path).Some?
    decreases |path|, 0, 0
  {
    StmtRounds(env, stmts[path[0]], ExecBlock(env, stmts[..path[0]], s).s, path[1..])
  }

  function StmtRounds(env: Env, stmt: Stmt, s: State, path: seq<nat>): nat
    requires Framed(s.b) && CheckIn(stmt, path).Some?
    decreases |path|, 2, 0
  {
    if path == [] then 1
    else
      var r := EvalExpr(env, s.b, stmt.collection, s.w);
      if r.res.Ok? && Elements(r.res.value.value).Some? then
        LoopRounds(env, stmt, r.res.value, Elements(r.res.value.value).value, State(s.b, r.w, s.depth + 1), path)
      else 0
  }

  function LoopRounds(env: Env, stmt: Stmt, collection: Envelope, items: seq<Value>, s: State, path: seq<nat>): nat
    requires stmt.Foreach? && Framed(s.b) && CheckAt(stmt.body, path).Some?
    decreases |path|, 1, |items|
  {
    if items == [] then 0
    else
      var entry := LoopEntry(stmt, collection, items, s);
      Rounds(env, stmt.body, entry, path)
        + LoopRounds(env, stmt, collection, items[1..], State(s.b, ExecBlock(env, stmt.body, entry).s.w, s.depth), path)
  }

  // Each time is recorded.
  lemma {:induction false} RoundsAreRecorded(env: Env, stmts: seq<Stmt>, s: State, path: seq<nat>)
    requires Framed(s.b) && CheckAt(stmts, path).Some? && ExecBlock(env, stmts, s).error.None?
    ensures var id := CheckAt(stmts, path).value;
      Times(ExecBlock(env, stmts, s).s.w.checks, id) >= Times(s.w.checks, id) + Rounds(env, stmts, s, path)
    decreases |path|, 0, 0
  {
    var k := path[0];
    var id := CheckAt(stmts, path).value;
    var stmt := stmts[k];
    ThroughStatement(env, stmts, s, k, id);
    var at := ExecBlock(env, stmts[..k], s).s;
    hide ExecBlock, Times, LoopRounds;
    if |path| == 1 {
      OneCheck(env, stmt, at);
      RecordedOnce(at.w.checks, ExecStmt(env, stmt, at).s.w.checks, id);
    } else {
      ForeachRoundsAreRecorded(env, stmt, at, path[1..]);
    }
    hide ExecStmt;
  }

  // A completed block completes each of its statements, and loses no record around it.
  lemma ThroughStatement(env: Env, stmts: seq<Stmt>, s: State, k: nat, id: string)
    requires Framed(s.b) && k < |stmts| && ExecBlock(env, stmts, s).error.None?
    ensures var at := ExecBlock(env, stmts[..k], s).s;
      var next := ExecStmt(env, stmts[k], at);
      && next.error.None?
      && Times(s.w.checks, id) <= Times(at.w.checks, id)
      && Times(next.s.w.checks, id) <= Times(ExecBlock(env, stmts, s).s.w.checks, id)
  {
    hide ExecStmt;
    assert stmts == stmts[..k] + stmts[k..] && stmts[k..][0] == stmts[k] && stmts[k..][1..] == stmts[k + 1..];
    BlockSplits(env, stmts[..k], stmts[k..], s);
    var at := ExecBlock(env, stmts[..k], s).s;
    ChecksGrow(env, stmts[..k], s);
    TimesMore(s.w.checks, at.w.checks, id);
    var next := ExecStmt(env, stmts[k], at);
    assert ExecBlock(env, stmts, s) == ExecBlock(env, stmts[k + 1..], next.s) && next.error.None?;
    ChecksGrow(env, stmts[k + 1..], next.s);
    TimesMore(next.s.w.checks, ExecBlock(env, stmts, s).s.w.checks, id);
  }

  lemma {:induction false} ForeachRoundsAreRecorded(env: Env, stmt: Stmt, s: State, path: seq<nat>)
    requires stmt.Foreach? && Framed(s.b) && CheckAt(stmt.body, path).Some? && ExecStmt(env, stmt, s).error.None?
    ensures var id := CheckAt(stmt.body, path).value;
      var r := EvalExpr(env, s.b, stmt.collection, s.w);
      && r.res.Ok? && Elements(r.res.value.value).Some?
      && Times(ExecStmt(env, stmt, s).s.w.checks, id) >= Times(s.w.checks, id)
           + LoopRounds(env, stmt, r.res.value, Elements(r.res.value.value).value, State(s.b, r.w, s.depth + 1), path)
    decreases |path|, 2, 0
  {
    hide Times, CheckAt;
    EvalOnlyCalls(env, s.b, stmt.collection, s.w);
    var r := EvalExpr(env, s.b, stmt.collection, s.w);
    LoopRoundsAreRecorded(env, stmt, r.res.value, Elements(r.res.value.value).value, State(s.b, r.w, s.depth + 1), path);
  }

  lemma {:induction false} LoopRoundsAreRecorded(env: Env, stmt: Stmt, collection: Envelope, items: seq<Value>, s: State, path: seq<nat>)
    requires stmt.Foreach? && Framed(s.b) && CheckAt(stmt.body, path).Some? && ExecLoop(env, stmt, collection, items, s).error.None?
    ensures var id := CheckAt(stmt.body, path).value;
      Times(ExecLoop(env, stmt, collection, items, s).s.w.checks, id) >= Times(s.w.checks, id) + LoopRounds(env, stmt, collection, items, s, path)
    decreases |path|, 1, |items|
  {
    hide ExecBlock, Times, Rounds, CheckAt;
    if items != [] {
      LoopStep(env, stmt, collection, items, s);
      var entry := LoopEntry(stmt, collection, items, s);
      assert entry.w.checks == s.w.checks;
      RoundsAreRecorded(env, stmt.body, entry, path);
      LoopRoundsAreRecorded(env, stmt, collection, items[1..], State(s.b, ExecBlock(env, stmt.body, entry).s.w, s.depth), path);
    }
  }

  // A completed run that comes twice to a CHECK at any depth, or to two CHECKs of one id in different
  // statements, say in sibling loops, has no result.
  lemma {:induction false} RepeatedCheckHasNoResult(env: Env, stmts: seq<Stmt>, s: State, p: seq<nat>, q: seq<nat>)
    requires Framed(s.b) && CheckAt(stmts, p).Some? && CheckAt(stmts, q) == CheckAt(stmts, p) && ExecBlock(env, stmts, s).error.None?
    requires Rounds(env, stmts, s, p) >= 2 || (p[0] < q[0] && Rounds(env, stmts, s, p) >= 1 && Rounds(env, stmts, s, q) >= 1)
    ensures Summarize(ExecBlock(env, stmts, s).s.w.checks).None?
  {
    assert p != [] && q != [];
    hide Times, ExecBlock, Rounds, CheckAt;
    if Rounds(env, stmts, s, p) >= 2 {
      RoundsAreRecorded(env, stmts, s, p);
    } else {
      BothAreRecorded(env, stmts, s, p, q);
    }
    TwiceIsNotDistinct(ExecBlock(env, stmts, s).s.w.checks, CheckAt(stmts, p).value);
  }

  lemma {:induction false} BothAreRecorded(env: Env, stmts: seq<Stmt>, s: State, p: seq<nat>, q: seq<nat>)
    requires Framed(s.b) && CheckAt(stmts, p).Some? && CheckAt(stmts, q) == CheckAt(stmts, p) && ExecBlock(env, stmts, s).error.None?
    requires p != [] && q != [] && p[0] < q[0]
    ensures Times(ExecBlock(env, stmts, s).s.w.checks, CheckAt(stmts, p).value) >= Rounds(env, stmts, s, p) + Rounds(env, stmts, s, q)
  {
    var k := q[0];
    var first, second, r := stmts[..k], stmts[k..], [0] + q[1..];
    assert stmts == first + second;
    BlockSplits(env, first, second, s);
    var mid := ExecBlock(env, first, s).s;
    RoundsOfPrefix(env, stmts, s, p, k);
    RoundsOfSuffix(env, stmts, s, q);
    hide ExecBlock, Rounds, CheckAt, Times;
    RoundsAreRecorded(env, first, s, p);
    RoundsAreRecorded(env, second, mid, r);
  }

  lemma RoundsOfPrefix(env: Env, stmts: seq<Stmt>, s: State, p: seq<nat>, k: nat)
    requires Framed(s.b) && CheckAt(stmts, p).Some? && p[0] < k <= |stmts|
    ensures CheckAt(stmts[..k], p) == CheckAt(stmts, p) && Rounds(env, stmts[..k], s, p) == Rounds(env, stmts, s, p)
  {
    assert stmts[..k][..p[0]] == stmts[..p[0]] && stmts[..k][p[0]] == stmts[p[0]];
    hide ExecBlock, StmtRounds, CheckIn;
  }

  lemma RoundsOfSuffix(env: Env, stmts: seq<Stmt>, s: State, q: seq<nat>)
    requires Framed(s.b) && CheckAt(stmts, q).Some?
    ensures var mid := ExecBlock(env, stmts[..q[0]], s).s;
      CheckAt(stmts[q[0]..], [0] + q[1..]) == CheckAt(stmts, q) && Rounds(env, stmts[q[0]..], mid, [0] + q[1..]) == Rounds(env, stmts, s, q)
  {
    var mid := ExecBlock(env, stmts[..q[0]], s).s;
    var r := [0] + q[1..];
    assert r[1..] == q[1..] && stmts[q[0]..][..0] == [] && stmts[q[0]..][0] == stmts[q[0]];
    assert ExecBlock(env, [], mid).s == mid;
    hide StmtRounds, CheckIn;
  }

  // What is repeated stays repeated: whatever runs after that, to its end or not, leaves no result.
  lemma RepetitionIsFinal(env: Env, stmts: seq<Stmt>, s: State)
    requires Framed(s.b) && !Distinct(IdsOf(s.w.checks))
    ensures Summarize(ExecBlock(env, stmts, s).s.w.checks).None?
  {
    ChecksGrow(env, stmts, s);
    hide ExecBlock;
    var after := ExecBlock(env, stmts, s).s.w.checks;
    var i, j :| 0 <= i < j < |s.w.checks| && IdsOf(s.w.checks)[i] == IdsOf(s.w.checks)[j];
    assert IdsOf(after)[i] == IdsOf(after)[j];
  }

  lemma LoopRepetitionIsFinal(env: Env, stmt: Stmt, collection: Envelope, items: seq<Value>, s: State)
    requires stmt.Foreach? && Framed(s.b) && !Distinct(IdsOf(s.w.checks))
    ensures Summarize(ExecLoop(env, stmt, collection, items, s).s.w.checks).None?
  {
    LoopChecksGrow(env, stmt, collection, items, s);
    hide ExecLoop;
    var after := ExecLoop(env, stmt, collection, items, s).s.w.checks;
    var i, j :| 0 <= i < j < |s.w.checks| && IdsOf(s.w.checks)[i] == IdsOf(s.w.checks)[j];
    assert IdsOf(after)[i] == IdsOf(after)[j];
  }
}
