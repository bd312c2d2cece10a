// How bindings and the ledger move: which parts an evaluation leaves alone, and how binding,
// pushing and popping frames change what symbols resolve to.

module Effects {
  import opened Wrappers
  import opened Core
  import opened Failures
  import opened Operators
  import opened Ir
  import opened Semantics

  // Evaluation appends to the trace and leaves checks and outputs alone.
  ghost predicate OnlyCalls(w: Ledger, v: Ledger) {
    v.checks == w.checks && v.outputs == w.outputs && w.trace <= v.trace
  }

  lemma {:induction false} EvalOnlyCalls(env: Env, b: Bindings, e: Expr, w: Ledger)
    ensures OnlyCalls(w, EvalExpr(env, b, e, w).w)
    decreases e, 2
  {
    if !e.Write? {
      NodeOnlyCalls(env, b, e, w);
    }
  }

  lemma {:induction false} NodeOnlyCalls(env: Env, b: Bindings, e: Expr, w: Ledger)
    requires !e.Write?
    ensures OnlyCalls(w, EvalNode(env, b, e, w).w)
    decreases e, 1
  {
    hide EvalExpr;
    match e
    case Literal(_, _, _) =>
    case SymbolRef(_, _, _) =>
    case Field(_, source, _, _) => EvalOnlyCalls(env, b, source, w);
    case Projection(_, source, _, _) => EvalOnlyCalls(env, b, source, w);
    case Call(_, _, operands, _) => OperandsOnlyCalls(env, b, operands, w);
    case Binary(_, _, left, right, _) =>
      EvalOnlyCalls(env, b, left, w);
      EvalOnlyCalls(env, b, right, EvalExpr(env, b, left, w).w);
    case Read(_, _, arguments, _, _) => ArgumentsOnlyCalls(env, b, arguments, w);
  }

  lemma {:induction false} OperandsOnlyCalls(env: Env, b: Bindings, es: seq<Expr>, w: Ledger)
    ensures OnlyCalls(w, EvalOperands(env, b, es, w).w)
    decreases es, 0
  {
    hide EvalExpr;
    if es != [] {
      EvalOnlyCalls(env, b, es[0], w);
      OperandsOnlyCalls(env, b, es[1..], EvalExpr(env, b, es[0], w).w);
    }
  }

  lemma {:induction false} ArgumentsOnlyCalls(env: Env, b: Bindings, args: seq<Argument>, w: Ledger)
    ensures OnlyCalls(w, EvalArguments(env, b, args, w).w)
    decreases args, 0
  {
    hide EvalExpr;
    if args != [] {
      EvalOnlyCalls(env, b, args[0].value, w);
      ArgumentsOnlyCalls(env, b, args[1..], EvalExpr(env, b, args[0].value, w).w);
    }
  }

  lemma {:induction false} EmitFieldsOnlyCalls(env: Env, b: Bindings, fields: seq<Argument>, w: Ledger)
    requires forall i | 0 <= i < |fields| :: fields[i].name in OutputNames(env.outputs)
    ensures OnlyCalls(w, EmitFields(env, b, fields, w).w)
    decreases |fields|
  {
    hide EvalExpr;
    if fields != [] {
      EvalOnlyCalls(env, b, fields[0].value, w);
      EmitFieldsOnlyCalls(env, b, fields[1..], EvalExpr(env, b, fields[0].value, w).w);
    }
  }

  // ---------- what symbols resolve to ----------

  lemma {:induction false} InnermostTop(frames: seq<Frame>, top: Frame, id: SymbolId)
    ensures Innermost(frames + [top], id) == if id in top then Some(top[id]) else Innermost(frames, id)
  {
    assert (frames + [top])[..|frames|] == frames;
  }

  lemma {:induction false} BindTopInnermost(frames: seq<Frame>, id: SymbolId, x: Envelope, other: SymbolId)
    requires frames != []
    ensures Innermost(BindTop(frames, id, x), other) == if other == id then Some(x) else Innermost(frames, other)
  {
    var below := frames[..|frames| - 1];
    var top := frames[|frames| - 1];
    assert frames == below + [top];
    assert BindTop(frames, id, x) == below + [top[id := x]];
    InnermostTop(below, top, other);
    InnermostTop(below, top[id := x], other);
  }

  // A symbol that was free resolves to its new value, and every other symbol as before.
  lemma {:induction false} BindResolves(b: Bindings, id: SymbolId, x: Envelope, other: SymbolId)
    requires Framed(b) && !IsBound(b, id)
    ensures Resolve(Bind(b, id, x), other) == if other == id then Some(x) else Resolve(b, other)
    ensures Resolve(BindCheck(b, id, x), other) == if other == id then Some(x) else Resolve(b, other)
  {
    BindTopInnermost(b.frames, id, x, other);
    BindTopInnermost(b.checkFrames, id, x, other);
  }

  lemma {:induction false} PushResolves(b: Bindings, id: SymbolId)
    ensures Resolve(Push(b), id) == Resolve(b, id)
  {
    InnermostTop(b.frames, map[], id);
    InnermostTop(b.checkFrames, map[], id);
  }

  // ---------- blocks and iterations ----------

  // A block runs as its first part and then, unless that failed, its second.
  lemma {:induction false} BlockSplits(env: Env, first: seq<Stmt>, second: seq<Stmt>, s: State)
    requires Framed(s.b)
    ensures var a := ExecBlock(env, first, s);
      ExecBlock(env, first + second, s) == if a.error.Some? then a else ExecBlock(env, second, a.s)
    decreases |first|
  {
    hide ExecStmt;
    if first == [] {
      assert first + second == second;
    } else {
      assert (first + second)[1..] == first[1..] + second;
      var head := ExecStmt(env, first[0], s);
      if head.error.None? {
        BlockSplits(env, first[1..], second, head.s);
      }
    }
  }

  // The state an iteration's body starts from.
  function LoopEntry(stmt: Stmt, collection: Envelope, items: seq<Value>, s: State): State
    requires stmt.Foreach? && Framed(s.b) && items != []
  {
    State(Bind(Push(s.b), stmt.loopVariable, ItemEnvelope(collection, items[0])),
          s.w.(meter := s.w.meter.(loopIterations := s.w.meter.loopIterations + 1)), s.depth)
  }

  // An iteration runs the body once; whatever the body bound is gone afterwards.
  lemma LoopStep(env: Env, stmt: Stmt, collection: Envelope, items: seq<Value>, s: State)
    requires stmt.Foreach? && Framed(s.b) && items != [] && s.w.meter.loopIterations < env.limits.loopIterations
    requires !IsBound(Push(s.b), stmt.loopVariable)
    ensures var body := ExecBlock(env, stmt.body, LoopEntry(stmt, collection, items, s));
      ExecLoop(env, stmt, collection, items, s) ==
        if body.error.Some? then Exec(body.error, State(s.b, body.s.w, s.depth))
        else ExecLoop(env, stmt, collection, items[1..], State(s.b, body.s.w, s.depth))
  {
    hide ExecBlock, IsBound;
    assert Pop(LoopEntry(stmt, collection, items, s).b) == s.b;
  }
}
