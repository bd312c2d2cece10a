// Resuming a suspended execution: the files that carry its checkpoint, the judgement of approval
// evidence, and the call that ties them together.

module Resume {
  import opened Wrappers
  import opened Json
  import opened Runtime
  import opened Checkpoint
  import opened Suspension
  import opened Claims
  import opened WriteOutcomes
  import opened WriteExecution
  import opened ControlledExecution

  // ---------- the file port ----------

  // The claim and consumed files of one stored checkpoint; a call here runs without interleaving.
  class FileControlledStatePort {
    const checkpoint: ExecutionCheckpoint
    const ids: Ids
    var claim: File
    var consumed: File

    constructor (checkpoint: ExecutionCheckpoint, ids: Ids)
      ensures this.checkpoint == checkpoint && this.ids == ids && claim == Absent && consumed == Absent
    {
      this.checkpoint, this.ids, claim, consumed := checkpoint, ids, Absent, Absent;
    }

    // The files are those of a state of the protocol in which the process is at rest.
    predicate Shows(s: Sys, p: Proc)
      reads this
    {
      s.claim == claim && s.consumed == consumed && At(s, p) == Idle
    }

    method Claim(executionId: string, version: nat, p: Proc) returns (ok: bool)
      modifies this
      ensures ok == (Intact(checkpoint) && checkpoint.identity.executionId == executionId && checkpoint.version == version
                     && old(consumed) == Absent && old(claim) == Absent)
      ensures consumed == old(consumed) && claim == if ok then Created(p, true) else old(claim)
      ensures Intact(checkpoint) && checkpoint.identity.executionId == executionId && checkpoint.version == version ==>
        forall s: Sys | old(Shows(s, p)) :: Shows(Run(ids, s, Call(p, CLAIM, 3)), p)
    {
      forall s: Sys | Shows(s, p)
        ensures var t := Run(ids, s, Call(p, CLAIM, 3));
          At(t, p) == Idle && t.consumed == consumed && t.claim == if consumed == Absent && claim == Absent then Created(p, true) else claim
      {
        ClaimAlone(ids, s, p);
      }
      hide Run, Call;
      if !Intact(checkpoint) || checkpoint.identity.executionId != executionId || checkpoint.version != version {
        return false;
      }
      if consumed.Created? {
        return false;
      }
      if claim.Created? {
        return false;
      }
      claim := Created(p, false);
      claim := claim.(written := true);
      return true;
    }

    method Release(p: Proc) returns (ok: bool)
      modifies this
      ensures ok == old(Names(ids, claim, p))
      ensures consumed == old(consumed) && claim == if ok then Absent else old(claim)
      ensures forall s: Sys | old(Shows(s, p)) :: Shows(Run(ids, s, Call(p, RELEASE, 2)), p)
    {
      forall s: Sys | Shows(s, p)
        ensures var t := Run(ids, s, Call(p, RELEASE, 2));
          At(t, p) == Idle && t.consumed == consumed && t.claim == if Names(ids, claim, p) then Absent else claim
      {
        ReleaseAlone(ids, s, p);
      }
      hide Run, Call;
      ok := Names(ids, claim, p);
      if ok {
        claim := Absent;
      }
    }

    method Consume(p: Proc) returns (ok: bool)
      modifies this
      ensures ok == old(Names(ids, claim, p) && consumed == Absent)
      ensures claim == (if ok then Absent else old(claim)) && consumed == (if ok then Created(p, true) else old(consumed))
      ensures forall s: Sys | old(Shows(s, p)) :: Shows(Run(ids, s, Call(p, CONSUME, 4)), p)
    {
      forall s: Sys | Shows(s, p)
        ensures var t := Run(ids, s, Call(p, CONSUME, 4)); var wins := Names(ids, claim, p) && consumed == Absent;
          At(t, p) == Idle && t.consumed == (if wins then Created(p, true) else consumed) && t.claim == (if wins then Absent else claim)
      {
        ConsumeAlone(ids, s, p);
      }
      hide Run, Call;
      if !Names(ids, claim, p) {
        return false;
      }
      if consumed.Created? {
        return false;
      }
      consumed := Created(p, false);
      consumed := consumed.(written := true);
      claim := Absent;
      return true;
    }
  }

  // ---------- the judgement of evidence ----------

  datatype Validation =
    | VALID
    | INVALID
    | EXPIRED_EVIDENCE
    | INTENT_MISMATCH
    | PAYLOAD_MISMATCH
    | BUSINESS_OPERATION_MISMATCH
    | APPROVAL_REQUEST_MISMATCH

  datatype Bound = Bound(
    tenantId: string,
    executionId: string,
    operationId: string,
    approvalId: string,
    requestId: string,
    semanticHash: string,
    payloadHash: string,
    intentHash: string)

  datatype Evidence = Evidence(bound: Bound, expiresAt: Option<int>, approved: bool)

  datatype Judgement = Judgement(validation: Validation, status: ApprovalStatus)

  predicate Expired(e: Evidence, now: int) {
    e.expiresAt.Some? && now >= e.expiresAt.value
  }

  // What the verifier and the clock do when asked; either may raise.
  datatype Verdict = Genuine | NotGenuine | VerifierRaised

  datatype Clock = Now(instant: int) | ClockRaised

  // The verdict on evidence, or None when the verifier raises, or the clock when it is asked.
  function Judge(e: Evidence, b: Bound, verdict: Verdict, clock: Clock): Option<Judgement> {
    if verdict.VerifierRaised? then None
    else if verdict.NotGenuine? then Some(Judgement(INVALID, PENDING))
    else if e.bound.operationId != b.operationId then Some(Judgement(BUSINESS_OPERATION_MISMATCH, PENDING))
    else if e.bound.requestId != b.requestId then Some(Judgement(APPROVAL_REQUEST_MISMATCH, PENDING))
    else if e.bound.intentHash != b.intentHash then Some(Judgement(INTENT_MISMATCH, PENDING))
    else if e.bound.payloadHash != b.payloadHash then Some(Judgement(PAYLOAD_MISMATCH, PENDING))
    else if e.bound.tenantId != b.tenantId || e.bound.executionId != b.executionId
         || e.bound.approvalId != b.approvalId || e.bound.semanticHash != b.semanticHash then Some(Judgement(INVALID, PENDING))
    else if clock.ClockRaised? then None
    else if Expired(e, clock.instant) then Some(Judgement(EXPIRED_EVIDENCE, EXPIRED))
    else if !e.approved then Some(Judgement(VALID, REJECTED))
    else Some(Judgement(VALID, APPROVED))
  }

  function JudgeCurrent(b: Bound, intentHash: string, payloadHash: string): Judgement {
    if intentHash != b.intentHash then Judgement(INTENT_MISMATCH, PENDING)
    else if payloadHash != b.payloadHash then Judgement(PAYLOAD_MISMATCH, PENDING)
    else Judgement(VALID, APPROVED)
  }

  // The identity the WRITE has now is compared only with evidence that would open the gate.
  function JudgeAll(e: Evidence, b: Bound, verdict: Verdict, clock: Clock, intentHash: string, payloadHash: string): Option<Judgement> {
    var j := Judge(e, b, verdict, clock);
    if j == Some(Judgement(VALID, APPROVED)) then Some(JudgeCurrent(b, intentHash, payloadHash)) else j
  }

  // The judgements that use up the checkpoint.
  predicate Conclusive(j: Judgement) {
    j.validation == VALID || j.validation == EXPIRED_EVIDENCE
  }

  // Time has reached the evidence's end, if it has one.
  predicate Over(e: Evidence, clock: Clock) {
    clock.Now? && match e.expiresAt case None => false case Some(end) => end <= clock.instant
  }

  // Every judgement there is, and when it is given.
  lemma JudgementsAreExact(e: Evidence, b: Bound, verdict: Verdict, clock: Clock, intentHash: string, payloadHash: string)
    ensures var j := JudgeAll(e, b, verdict, clock, intentHash, payloadHash);
      && (j == Some(Judgement(EXPIRED_EVIDENCE, EXPIRED)) <==> verdict.Genuine? && e.bound == b && Over(e, clock))
      && (j == Some(Judgement(VALID, REJECTED)) <==> verdict.Genuine? && e.bound == b && clock.Now? && !Over(e, clock) && !e.approved)
      && (j.Some? && j.value.status == PENDING <==> j.Some? && !Conclusive(j.value))
      && (verdict.NotGenuine? ==> j == Some(Judgement(INVALID, PENDING)))
      && (j.Some? && j.value.validation == BUSINESS_OPERATION_MISMATCH <==> verdict.Genuine? && e.bound.operationId != b.operationId)
      && (j.Some? && j.value.validation == APPROVAL_REQUEST_MISMATCH <==>
            verdict.Genuine? && e.bound.operationId == b.operationId && e.bound.requestId != b.requestId)
      && (j.Some? && j.value.validation == INTENT_MISMATCH <==>
            verdict.Genuine? && e.bound.operationId == b.operationId && e.bound.requestId == b.requestId
            && (e.bound.intentHash != b.intentHash || (e.bound == b && clock.Now? && !Over(e, clock) && e.approved && intentHash != b.intentHash)))
      && (j.Some? && j.value.validation == PAYLOAD_MISMATCH <==>
            verdict.Genuine? && e.bound.operationId == b.operationId && e.bound.requestId == b.requestId && e.bound.intentHash == b.intentHash
            && (e.bound.payloadHash != b.payloadHash
                || (e.bound == b && clock.Now? && !Over(e, clock) && e.approved && intentHash == b.intentHash && payloadHash != b.payloadHash)))
  {
  }

  // The gate opens for verified, unexpired, approving evidence that agrees with the checkpoint on
  // every binding, while the WRITE still is the one that was approved; and for nothing else.
  lemma GateIsExact(e: Evidence, b: Bound, verdict: Verdict, clock: Clock, intentHash: string, payloadHash: string)
    ensures JudgeAll(e, b, verdict, clock, intentHash, payloadHash) == Some(Judgement(VALID, APPROVED))
      <==> verdict.Genuine? && e.bound == b && clock.Now? && !Over(e, clock) && e.approved && intentHash == b.intentHash && payloadHash == b.payloadHash
    ensures var j := JudgeAll(e, b, verdict, clock, intentHash, payloadHash);
      j.Some? && Conclusive(j.value)
      <==> verdict.Genuine? && e.bound == b && clock.Now?
           && (Over(e, clock) || !e.approved || (intentHash == b.intentHash && payloadHash == b.payloadHash))
    ensures JudgeAll(e, b, verdict, clock, intentHash, payloadHash).None?
      <==> verdict.VerifierRaised? || (verdict.Genuine? && e.bound == b && clock.ClockRaised?)
  {
  }

  // ---------- resuming ----------

  datatype Token = Token(executionId: string, version: nat, operationId: string, evidence: Evidence)

  // Of these, `Returned` alone gives the caller a context; `consumed` is its claim_consumed.
  datatype Resumed =
    | TokenRefused
    | ClaimRefused
    | RestoreFailed
    | ValidationRaised
    | ConsumeFailed
    | Returned(snapshot: Snapshot, judgement: Judgement, consumed: bool)

  // What the restored context says the approval is bound to.
  function BoundBy(s: Snapshot, identity: Identity, tenantId: string, approvalId: string, node: string): Option<Bound> {
    var c := s.controls;
    if approvalId !in c.approvals || c.approvals[approvalId] != PENDING then None
    else if node !in c.checkpoint.approvalRequestIds || node !in c.checkpoint.writeIntentHashes || node !in c.checkpoint.payloadHashes then None
    else if identity.operationId.None? then None
    else Some(Bound(tenantId, identity.executionId, identity.operationId.value, approvalId, c.checkpoint.approvalRequestIds[node],
                    identity.semanticHash, c.checkpoint.payloadHashes[node], c.checkpoint.writeIntentHashes[node]))
  }

  function Recorded(s: Snapshot, approvalId: string, status: ApprovalStatus): Snapshot {
    s.(controls := s.controls.(approvals := s.controls.approvals[approvalId := status]))
  }

  // The token is for this execution of this business operation.
  predicate TokenFits(token: Token, identity: Identity) {
    token.executionId == identity.executionId && identity.operationId == Some(token.operationId)
  }

  // The checkpoint the token names is intact, unconsumed and unclaimed.
  predicate Claimable(c: ExecutionCheckpoint, token: Token, claim: File, consumed: File) {
    Intact(c) && c.identity.executionId == token.executionId && c.version == token.version && consumed == Absent && claim == Absent
  }

  // What the caller asks of a resume, and what its verifier and clock answer.
  datatype Asked = Asked(identity: Identity, security: Json, token: Token, tenantId: string, approvalId: string, node: string,
                         verdict: Verdict, clock: Clock, intentHash: string, payloadHash: string)

  // The judgement a claimed checkpoint comes to, if it restores and nothing raises.
  function Judged(t: Texts, c: ExecutionCheckpoint, q: Asked): Option<(Snapshot, Judgement)> {
    match Restore(t, c, q.identity, q.security)
    case Err(_) => None
    case Ok(s) =>
      match BoundBy(s, q.identity, q.tenantId, q.approvalId, q.node)
      case None => None
      case Some(b) =>
        match JudgeAll(q.token.evidence, b, q.verdict, q.clock, q.intentHash, q.payloadHash)
        case None => None
        case Some(j) => Some((s, j))
  }

  class ApprovalResumeCoordinator {
    const texts: Texts

    constructor (texts: Texts)
      ensures this.texts == texts
    {
      this.texts := texts;
    }

    // A context is returned exactly when the token fits, the checkpoint can be claimed and restored,
    // its approval is pending and bound, and neither verifier nor clock raises. The checkpoint is used
    // up exactly when the judgement is conclusive, and only then does the context carry the
    // judgement; otherwise the claim is given back, and the context is the one that was restored.
    method Resume(port: FileControlledStatePort, p: Proc, q: Asked) returns (r: Resumed)
      modifies port
      ensures r.TokenRefused? <==> !TokenFits(q.token, q.identity)
      ensures r.ClaimRefused? <==> TokenFits(q.token, q.identity) && !Claimable(port.checkpoint, q.token, old(port.claim), old(port.consumed))
      ensures r.Returned? <==>
        && TokenFits(q.token, q.identity) && Claimable(port.checkpoint, q.token, old(port.claim), old(port.consumed))
        && Judged(texts, port.checkpoint, q).Some?
      ensures r.RestoreFailed? || r.ValidationRaised? || r.ConsumeFailed? ==> Judged(texts, port.checkpoint, q).None?
      ensures r.Returned? ==> var (s, j) := Judged(texts, port.checkpoint, q).value;
        && r.judgement == j && (r.consumed <==> Conclusive(j))
        && r.snapshot == if r.consumed then Recorded(s, q.approvalId, j.status) else s
      ensures port.claim == old(port.claim)
      ensures port.consumed == if r.Returned? && r.consumed then Created(p, true) else old(port.consumed)
    {
      if q.token.executionId != q.identity.executionId || q.identity.operationId != Some(q.token.operationId) {
        return TokenRefused;
      }
      var claimed := port.Claim(q.token.executionId, q.token.version, p);
      if !claimed {
        return ClaimRefused;
      }
      var restored := Restore(texts, port.checkpoint, q.identity, q.security);
      var bound := if restored.Ok? then BoundBy(restored.value, q.identity, q.tenantId, q.approvalId, q.node) else None;
      if bound.None? {
        var released := port.Release(p);
        return RestoreFailed;
      }
      var verdict := Judge(q.token.evidence, bound.value, q.verdict, q.clock);
      if verdict.None? {
        var released := port.Release(p);
        return ValidationRaised;
      }
      var judgement := verdict.value;
      if judgement == Judgement(VALID, APPROVED) {
        judgement := JudgeCurrent(bound.value, q.intentHash, q.payloadHash);
      }
      if !Conclusive(judgement) {
        var released := port.Release(p);
        return Returned(restored.value, judgement, false);
      }
      var snapshot := Recorded(restored.value, q.approvalId, judgement.status);
      var consumed := port.Consume(p);
      return if consumed then Returned(snapshot, judgement, true) else ConsumeFailed;
    }
  }

  // What a resumed context can be used for: its approval stands exactly when the gate opened, and
  // then the checkpoint is used up; a context returned without using it up still has its approval
  // pending, so nothing after the WRITE can run from it.
  lemma ApprovalStandsOnlyOnceConsumed(t: Texts, c: ExecutionCheckpoint, q: Asked, plan: Plan, requestId: string, commit: CommitDecision, verification: Option<Verification>)
    requires Judged(t, c, q).Some? && plan.approval.Approval? && plan.approval.approvalId == q.approvalId
    ensures var (s, j) := Judged(t, c, q).value; var b := BoundBy(s, q.identity, q.tenantId, q.approvalId, q.node);
      && b.Some?
      && (var mark := s.controls.checkpoint;
         && q.node in mark.approvalRequestIds && q.node in mark.payloadHashes && q.node in mark.writeIntentHashes
         && b.value.requestId == mark.approvalRequestIds[q.node] && b.value.payloadHash == mark.payloadHashes[q.node]
         && b.value.intentHash == mark.writeIntentHashes[q.node]
         && b.value.tenantId == q.tenantId && b.value.executionId == q.identity.executionId && Some(b.value.operationId) == q.identity.operationId
         && b.value.approvalId == q.approvalId && b.value.semanticHash == q.identity.semanticHash)
      && (!Conclusive(j) ==> s.controls.approvals[q.approvalId] == PENDING && !Opens(s.controls, plan, q.node, requestId, commit, verification))
      && (Conclusive(j) ==> (Approved(Recorded(s, q.approvalId, j.status).controls, q.approvalId) <==>
          && q.verdict.Genuine? && q.token.evidence.bound == b.value && q.clock.Now? && !Over(q.token.evidence, q.clock)
          && q.token.evidence.approved && q.intentHash == b.value.intentHash && q.payloadHash == b.value.payloadHash))
      && (Conclusive(j) ==> (var after := Recorded(s, q.approvalId, j.status);
         && after.controls.approvals.Keys == s.controls.approvals.Keys && after == s.(controls := after.controls)
         && after.controls == s.controls.(approvals := after.controls.approvals)
         && forall id | id in s.controls.approvals && id != q.approvalId :: after.controls.approvals[id] == s.controls.approvals[id]))
  {
    var s := Judged(t, c, q).value.0;
    var b := BoundBy(s, q.identity, q.tenantId, q.approvalId, q.node).value;
    GateIsExact(q.token.evidence, b, q.verdict, q.clock, q.intentHash, q.payloadHash);
    hide Restore, Over;
  }
}
