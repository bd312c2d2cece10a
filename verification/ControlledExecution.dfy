// A controlled skill: the part before its approval, its one WRITE, and the part that runs only
// after a commit.

module ControlledExecution {
  import opened Wrappers
  import opened Core
  import opened Failures
  import opened Ir
  import opened Semantics
  import opened Runtime
  import opened WriteOutcomes
  import opened WriteExecution

  // ---------- the plan ----------

  datatype Plan = Plan(approval: Stmt, write: Stmt, prefix: seq<Stmt>, suffix: seq<Stmt>)

  predicate IsApproval(s: Stmt) {
    s.Approval?
  }

  predicate IsWrite(s: Stmt) {
    s.Let? && s.value.Write?
  }

  // The positions of the statements of one sort.
  function Positions(body: seq<Stmt>, sort: Stmt -> bool): (r: seq<nat>)
    ensures forall k | 0 <= k < |r| :: r[k] < |body| && sort(body[r[k]])
    ensures forall i | 0 <= i < |body| && sort(body[i]) :: i in r
    ensures Distinct(r)
  {
    if body == [] then []
    else
      var n := |body| - 1;
      var front := Positions(body[..n], sort);
      if sort(body[n]) then front + [n] else front
  }

  // Exactly one top-level approval and one later top-level WRITE that names it.
  function PlanOf(body: seq<Stmt>): Option<Plan> {
    var approvals := Positions(body, IsApproval);
    var writes := Positions(body, IsWrite);
    if |approvals| != 1 || |writes| != 1 then None
    else
      var (a, w) := (approvals[0], writes[0]);
      if a >= w || body[w].value.approval != body[a].approvalId then None
      else Some(Plan(body[a], body[w], body[..a], body[w + 1..]))
  }

  // The one approval and the one WRITE of a body stand here.
  predicate ControlledAt(body: seq<Stmt>, a: nat, w: nat) {
    && a < w < |body| && IsApproval(body[a]) && IsWrite(body[w]) && body[w].value.approval == body[a].approvalId
    && (forall i | 0 <= i < |body| && IsApproval(body[i]) :: i == a)
    && (forall i | 0 <= i < |body| && IsWrite(body[i]) :: i == w)
  }

  lemma {:induction false} OnlyPosition(body: seq<Stmt>, sort: Stmt -> bool, p: nat)
    requires p < |body| && sort(body[p]) && forall i | 0 <= i < |body| && sort(body[i]) :: i == p
    ensures Positions(body, sort) == [p]
    decreases |body|
  {
    var n := |body| - 1;
    if p == n {
      NoPosition(body[..n], sort);
    } else {
      OnlyPosition(body[..n], sort, p);
    }
  }

  lemma {:induction false} NoPosition(body: seq<Stmt>, sort: Stmt -> bool)
    requires forall i | 0 <= i < |body| :: !sort(body[i])
    ensures Positions(body, sort) == []
  {
    if body != [] {
      NoPosition(body[..|body| - 1], sort);
    }
  }

  // A plan is found exactly where a body is controlled, and is made of its parts.
  lemma {:induction false} PlansAreExact(body: seq<Stmt>)
    ensures PlanOf(body).Some? <==> exists a: nat, w: nat :: ControlledAt(body, a, w)
    ensures forall a: nat, w: nat | ControlledAt(body, a, w) :: PlanOf(body) == Some(Plan(body[a], body[w], body[..a], body[w + 1..]))
  {
    forall a: nat, w: nat | ControlledAt(body, a, w) ensures PlanOf(body) == Some(Plan(body[a], body[w], body[..a], body[w + 1..])) {
      OnlyPosition(body, IsApproval, a);
      OnlyPosition(body, IsWrite, w);
    }
    if PlanOf(body).Some? {
      var a, w := Positions(body, IsApproval)[0], Positions(body, IsWrite)[0];
      assert ControlledAt(body, a, w);
    }
  }

  // The plan's parts make up the whole body only when the WRITE directly follows the approval; what
  // stands between the two belongs to neither part and never runs.
  lemma PlanCoversAdjacentOnly(body: seq<Stmt>, a: nat, w: nat)
    requires ControlledAt(body, a, w)
    ensures PlanOf(body).Some?
    ensures var p := PlanOf(body).value; p.prefix + [p.approval, p.write] + p.suffix == body <==> w == a + 1
    ensures var p := PlanOf(body).value; p.prefix + [p.approval] + body[a + 1..w] + [p.write] + p.suffix == body
  {
    PlansAreExact(body);
    assert PlanOf(body) == Some(Plan(body[a], body[w], body[..a], body[w + 1..]));
    hide PlanOf, IsApproval, IsWrite;
    LeavingOutTheMiddle(body, a, w);
  }

  lemma LeavingOutTheMiddle(body: seq<Stmt>, a: nat, w: nat)
    requires a < w < |body|
    ensures body[..a] + [body[a], body[w]] + body[w + 1..] == body <==> w == a + 1
    ensures body[..a] + [body[a]] + body[a + 1..w] + [body[w]] + body[w + 1..] == body
  {
    var joined := body[..a] + [body[a], body[w]] + body[w + 1..];
    assert |joined| == |body| - (w - a - 1);
    if w == a + 1 {
      assert joined == body;
    }
  }

  // ---------- after the WRITE ----------

  datatype VerificationStatus = VERIFICATION_NOT_REQUESTED | VERIFIED | VERIFICATION_FAILED | VERIFICATION_UNKNOWN

  datatype Verification = Verification(identity: OutcomeIdentity, status: VerificationStatus)

  datatype Completion =
    | Refused
    | NotEmitted
    | Emitted(error: Option<Failure>)

  predicate Approved(c: Controls, approvalId: string) {
    approvalId in c.approvals && c.approvals[approvalId] == APPROVED
  }

  // What must hold before anything after the WRITE may run.
  predicate Opens(c: Controls, p: Plan, node: string, approvalRequestId: string, commit: CommitDecision, verification: Option<Verification>)
    requires p.approval.Approval?
  {
    && Approved(c, p.approval.approvalId)
    && commit.outcome.identity.approvalRequestId == approvalRequestId && commit.outcome.identity.node == node
    && commit.outcome.Committed? && verification.Some?
    && verification.value.identity == commit.outcome.identity
    && (verification.value.status == VERIFIED || verification.value.status == VERIFICATION_NOT_REQUESTED)
  }

  // The commit answers this WRITE and this request, but nothing after the WRITE may run: there was
  // no commit, or its verification did not come out well.
  predicate Withholds(c: Controls, p: Plan, node: string, approvalRequestId: string, commit: CommitDecision, verification: Option<Verification>)
    requires p.approval.Approval?
  {
    && Approved(c, p.approval.approvalId)
    && commit.outcome.identity.approvalRequestId == approvalRequestId && commit.outcome.identity.node == node
    && if commit.outcome.Committed? then
         && verification.Some? && verification.value.identity == commit.outcome.identity
         && (verification.value.status == VERIFICATION_FAILED || verification.value.status == VERIFICATION_UNKNOWN)
       else verification.None?
  }

  // Binding the committed value and running the rest.
  function SuffixRun(env: Env, p: Plan, x: Envelope, s: State): Exec
    requires p.write.Let? && Framed(s.b)
  {
    if IsBound(s.b, p.write.target) then Exec(Some(ImmutableBinding), s)
    else ExecBlock(env, p.suffix, s.(b := Bind(s.b, p.write.target, x)))
  }

  // The rest of the skill runs exactly when the approval stands, the commit is of this WRITE and
  // this request, and its verification is of that commit and not negative; and it then runs as the
  // reference interpreter runs it from the restored state. Otherwise nothing changes, and the caller
  // gets a result only if the commit was withheld; anything else is refused.
  method CompleteControlled(engine: RuntimeEngine, ctx: ExecutionContext, p: Plan, node: string, approvalRequestId: string,
                            commit: CommitDecision, verification: Option<Verification>, port: ToolPort) returns (r: Completion)
    requires ctx.Valid() && p.approval.Approval? && IsWrite(p.write)
    modifies ctx, ctx.resources, port`trace
    ensures ctx.Valid() && ctx.controls == old(ctx.controls)
    ensures r.Emitted? <==> old(Opens(ctx.controls, p, node, approvalRequestId, commit, verification)) && commit.outcome.value.ty == p.write.value.ty
    ensures r.NotEmitted? <==> old(Withholds(ctx.controls, p, node, approvalRequestId, commit, verification))
    ensures r.Emitted? ==> Exec(r.error, ctx.RunState(port.trace)) == old(SuffixRun(engine.EnvOf(ctx, port), p, commit.outcome.value, ctx.RunState(port.trace)))
    ensures !r.Emitted? ==> ctx.RunState(port.trace) == old(ctx.RunState(port.trace))
  {
    if !Approved(ctx.controls, p.approval.approvalId) {
      return Refused;
    }
    if commit.outcome.identity.approvalRequestId != approvalRequestId {
      return Refused;
    }
    if commit.outcome.identity.node != node {
      return Refused;
    }
    if !commit.outcome.Committed? {
      return if verification.Some? then Refused else NotEmitted;
    }
    if verification.None? || verification.value.identity != commit.outcome.identity {
      return Refused;
    }
    if verification.value.status != VERIFIED && verification.value.status != VERIFICATION_NOT_REQUESTED {
      return NotEmitted;
    }
    var value := commit.outcome.value;
    if value.ty != p.write.value.ty {
      return Refused;
    }
    var bound := ctx.BindValue(p.write.target, value);
    if !bound {
      return Emitted(Some(ImmutableBinding));
    }
    hide ExecBlock;
    var error := engine.ExecuteBlock(ctx, p.suffix, port);
    return Emitted(error);
  }
}
