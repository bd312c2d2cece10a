// The controlled WRITE: durable evidence before the provider is called, a durable outcome after it,
// and the rest of the skill only after a commit.

// What a provider can have done, and how it is written down.
module WriteOutcomes {
  import opened Wrappers
  import opened Core

  datatype CommitState = COMMITTED | NOT_COMMITTED | UNKNOWN_COMMIT_STATE

  // Everything that identifies one WRITE to its outcome.
  datatype OutcomeIdentity = OutcomeIdentity(
    tenantId: string,
    operationId: string,
    invocationId: string,
    node: string,
    toolId: string,
    key: string,
    payloadHash: string,
    approvalRequestId: string,
    intentHash: string)

  datatype OutcomeRecord = OutcomeRecord(
    requested: AttemptRecord,
    identity: OutcomeIdentity,
    commitState: CommitState,
    reason: Option<string>,
    transactionId: Option<string>,
    businessReference: Option<string>,
    recordedAt: int)

  // The record made durable before the provider is called. Its digest is taken to be itself.
  datatype AttemptRecord = AttemptRecord(
    identity: OutcomeIdentity,
    executionId: string,
    contractHash: string,
    preconditionId: string,
    requestedAt: int)

  datatype JournalEntry = JournalEntry(record: OutcomeRecord, durableRef: string)
}

module WriteExecution {
  import opened Wrappers
  import opened Core
  import opened Failures
  import opened Ir
  import opened Semantics
  import opened Runtime
  import opened WriteOutcomes

  // ---------- requests and outcomes ----------

  datatype WriteCallRequest = WriteCallRequest(
    executionId: string,
    identity: OutcomeIdentity,
    contractHash: string,
    arguments: seq<NamedEnvelope>,
    preconditionId: string)

  datatype Eligibility = ALLOWED | BLOCKED | REQUIRES_APPROVAL

  datatype Owner = Owner(tenantId: string, executionId: string, operationId: Option<string>, semanticHash: string)

  datatype WriteOutcome =
    | Committed(identity: OutcomeIdentity, value: Envelope, businessReference: string, transactionId: Option<string>)
    | NotCommitted(identity: OutcomeIdentity, reason: string, transactionId: Option<string>)
    | CommitUnknown(identity: OutcomeIdentity, reason: string, transactionId: Option<string>)

  function StateOf(o: WriteOutcome): CommitState {
    match o
    case Committed(_, _, _, _) => COMMITTED
    case NotCommitted(_, _, _) => NOT_COMMITTED
    case CommitUnknown(_, _, _) => UNKNOWN_COMMIT_STATE
  }

  datatype WriteStatus = WRITE_COMPLETED | WRITE_FAILED | RECONCILIATION_REQUIRED

  function StatusFor(c: CommitState): WriteStatus {
    match c
    case COMMITTED => WRITE_COMPLETED
    case NOT_COMMITTED => WRITE_FAILED
    case UNKNOWN_COMMIT_STATE => RECONCILIATION_REQUIRED
  }

  datatype CommitDecision = CommitDecision(status: WriteStatus, outcome: WriteOutcome, retryAllowed: bool, reconciliationRequired: bool)

  datatype WriteError =
    | NotEligible
    | OwnerMismatch
    | EvidenceInvalid
    | EvidenceRaised
    | InvocationUncertain(reason: string)
    | OutcomeMismatch
    | IdempotencyMismatch
    | OutcomeInvalid
    | OutcomeRaised
    | TrustMismatch
    | ReservationInvalid
    | ReservationConflict

  function AttemptOf(request: WriteCallRequest, requestedAt: int): AttemptRecord {
    AttemptRecord(request.identity, request.executionId, request.contractHash, request.preconditionId, requestedAt)
  }

  // ---------- ports ----------

  // An evidence port may raise anything, even the error that stands for an uncertain invocation.
  datatype EvidenceReply =
    | Receipt(record: AttemptRecord, durableRef: string, persistedAt: int, durable: bool)
    | NoReceipt
    | EvidenceFailed
    | EvidenceUncertain(reason: string)

  datatype ProviderReply =
    | Answered(outcome: WriteOutcome)
    | MalformedAnswer
    | ProviderRaised(reason: string)

  datatype OutcomeReply =
    | OutcomeReceipt(record: OutcomeRecord, durableRef: string, persistedAt: int)
    | NoOutcomeReceipt
    | OutcomeFailed

  datatype Event =
    | RequestRecorded(record: AttemptRecord, evidence: EvidenceReply)
    | ProviderCalled(request: WriteCallRequest, answer: ProviderReply)
    | OutcomeRecorded(outcome: OutcomeRecord, receipt: OutcomeReply)

  // Ports may answer anything, by all they have seen.
  class Ports {
    const recordRequested: (seq<Event>, AttemptRecord) -> EvidenceReply
    const callProvider: (seq<Event>, WriteCallRequest) -> ProviderReply
    const recordOutcome: (seq<Event>, OutcomeRecord) -> OutcomeReply
    var trace: seq<Event>

    constructor (recordRequested: (seq<Event>, AttemptRecord) -> EvidenceReply,
                 callProvider: (seq<Event>, WriteCallRequest) -> ProviderReply,
                 recordOutcome: (seq<Event>, OutcomeRecord) -> OutcomeReply)
      ensures trace == [] && this.recordRequested == recordRequested && this.callProvider == callProvider && this.recordOutcome == recordOutcome
    {
      this.recordRequested, this.callProvider, this.recordOutcome, trace := recordRequested, callProvider, recordOutcome, [];
    }

    method RecordRequested(record: AttemptRecord) returns (reply: EvidenceReply)
      modifies this
      ensures reply == recordRequested(old(trace), record) && trace == old(trace) + [RequestRecorded(record, reply)]
    {
      reply := recordRequested(trace, record);
      trace := trace + [RequestRecorded(record, reply)];
    }

    method CallProvider(request: WriteCallRequest) returns (reply: ProviderReply)
      modifies this
      ensures reply == callProvider(old(trace), request) && trace == old(trace) + [ProviderCalled(request, reply)]
    {
      reply := callProvider(trace, request);
      trace := trace + [ProviderCalled(request, reply)];
    }

    method RecordOutcome(record: OutcomeRecord) returns (reply: OutcomeReply)
      modifies this
      ensures reply == recordOutcome(old(trace), record) && trace == old(trace) + [OutcomeRecorded(record, reply)]
    {
      reply := recordOutcome(trace, record);
      trace := trace + [OutcomeRecorded(record, reply)];
    }
  }

  // ---------- what a trace must look like ----------

  // A durable receipt of the record, no older than the request.
  predicate Durable(reply: EvidenceReply, record: AttemptRecord) {
    reply.Receipt? && reply.record == record && reply.durable && reply.persistedAt >= record.requestedAt
  }

  // A receipt of the outcome record, no older than the outcome.
  predicate Acknowledged(reply: OutcomeReply, record: OutcomeRecord) {
    reply.OutcomeReceipt? && reply.record == record && reply.persistedAt >= record.recordedAt
  }

  // The event answers a matching attempt record with a durable receipt.
  predicate DurableEvidenceFor(e: Event, request: WriteCallRequest) {
    e.RequestRecorded? && e.record == AttemptOf(request, e.record.requestedAt) && Durable(e.evidence, e.record)
  }

  // Every call of the provider follows at once on durable evidence of that very request.
  predicate Evidenced(trace: seq<Event>) {
    forall i | 0 <= i < |trace| && trace[i].ProviderCalled? :: i > 0 && DurableEvidenceFor(trace[i - 1], trace[i].request)
  }

  function ProviderCalls(trace: seq<Event>): nat {
    if trace == [] then 0
    else ProviderCalls(trace[..|trace| - 1]) + if trace[|trace| - 1].ProviderCalled? then 1 else 0
  }

  lemma {:induction false} OneMoreEvent(trace: seq<Event>, e: Event)
    ensures ProviderCalls(trace + [e]) == ProviderCalls(trace) + if e.ProviderCalled? then 1 else 0
    ensures Evidenced(trace) && (e.ProviderCalled? ==> trace != [] && DurableEvidenceFor(trace[|trace| - 1], e.request)) ==> Evidenced(trace + [e])
  {
    assert (trace + [e])[..|trace|] == trace;
  }

  // ---------- the journal and the idempotency state ----------

  // Every journal entry of a node carries the key and payload the context has bound to that node.
  predicate JournalAgrees(c: Controls) {
    forall i | 0 <= i < |c.journal| ::
      var id := c.journal[i].record.identity;
      && id.node in c.keysByWriteNode && c.keysByWriteNode[id.node] == id.key
      && id.node in c.payloadHashesByWriteNode && c.payloadHashesByWriteNode[id.node] == id.payloadHash
  }

  // Bindings of keys and payloads are never changed, only added.
  predicate BindingsKept(before: Controls, after: Controls) {
    && (forall n | n in before.keysByWriteNode :: n in after.keysByWriteNode && after.keysByWriteNode[n] == before.keysByWriteNode[n])
    && (forall n | n in before.payloadHashesByWriteNode :: n in after.payloadHashesByWriteNode && after.payloadHashesByWriteNode[n] == before.payloadHashesByWriteNode[n])
  }

  datatype Reservation = Reserved(record: ReservationRecord, conflict: bool) | NoReservation

  datatype ReservationRecord = ReservationRecord(tenantId: string, operationId: string, node: string, toolId: string, contractHash: string, key: string, payloadHash: string)

  datatype WriteIntent = WriteIntent(tenantId: string, operationId: string, node: string, toolId: string, payloadHash: string, intentHash: string)

  // The record the reservation is asked for.
  function ReservationOf(intent: WriteIntent, contractHash: string, key: string): ReservationRecord {
    ReservationRecord(intent.tenantId, intent.operationId, intent.node, intent.toolId, contractHash, key, intent.payloadHash)
  }

  predicate IntentOwned(owner: Owner, intent: WriteIntent) {
    owner.tenantId == intent.tenantId && owner.operationId == Some(intent.operationId)
  }

  // What is bound to the node already, if anything, is this.
  predicate Unopposed(table: map<string, string>, node: string, text: string) {
    node in table ==> table[node] == text
  }

  // Derives a node's idempotency key from the intent, and binds key and payload once and for all:
  // exactly when the intent is the context's own, nothing else is bound to the node, and the port
  // reserves the very record without a conflict.
  method Reserve(ctx: ExecutionContext, owner: Owner, intent: WriteIntent, contractHash: string, keyOf: WriteIntent -> string,
                 answer: ReservationRecord -> Reservation) returns (error: Option<WriteError>)
    requires JournalAgrees(ctx.controls)
    modifies ctx`controls
    ensures JournalAgrees(ctx.controls) && BindingsKept(old(ctx.controls), ctx.controls)
    ensures var record := ReservationOf(intent, contractHash, keyOf(intent));
      error.None? <==>
        && IntentOwned(owner, intent)
        && old(Unopposed(ctx.controls.keysByWriteNode, intent.node, keyOf(intent)))
        && old(Unopposed(ctx.controls.payloadHashesByWriteNode, intent.node, intent.payloadHash))
        && answer(record) == Reserved(record, false)
    ensures error == Some(OwnerMismatch) <==> !IntentOwned(owner, intent)
    ensures error == Some(IdempotencyMismatch) <==>
      IntentOwned(owner, intent) && old(!Unopposed(ctx.controls.keysByWriteNode, intent.node, keyOf(intent)))
    ensures ctx.controls == if error.Some? then old(ctx.controls) else old(ctx.controls).(
      keysByWriteNode := old(ctx.controls.keysByWriteNode)[intent.node := keyOf(intent)],
      payloadHashesByWriteNode := old(ctx.controls.payloadHashesByWriteNode)[intent.node := intent.payloadHash])
  {
    var keys, payloads := ctx.controls.keysByWriteNode, ctx.controls.payloadHashesByWriteNode;
    if owner.tenantId != intent.tenantId || owner.operationId != Some(intent.operationId) {
      return Some(OwnerMismatch);
    }
    if intent.node in keys && keys[intent.node] != keyOf(intent) {
      return Some(IdempotencyMismatch);
    }
    if intent.node in payloads && payloads[intent.node] != intent.payloadHash {
      return Some(ReservationConflict);
    }
    var record := ReservationRecord(intent.tenantId, intent.operationId, intent.node, intent.toolId, contractHash, keyOf(intent), intent.payloadHash);
    var reservation := answer(record);
    if reservation.NoReservation? || reservation.record != record {
      return Some(ReservationInvalid);
    }
    if reservation.conflict {
      return Some(ReservationConflict);
    }
    ctx.controls := ctx.controls.(keysByWriteNode := keys[intent.node := record.key], payloadHashesByWriteNode := payloads[intent.node := record.payloadHash]);
    return None;
  }

  // ---------- the coordinators ----------

  predicate Owns(owner: Owner, request: WriteCallRequest) {
    && request.executionId == owner.executionId && request.identity.tenantId == owner.tenantId
    && owner.operationId == Some(request.identity.operationId)
  }

  function Uncertain(request: WriteCallRequest, reason: string): WriteOutcome {
    CommitUnknown(request.identity, reason, None)
  }

  // How an invocation's answer is taken: what is not an outcome is an unknown commit.
  function Interpreted(request: WriteCallRequest, answer: ProviderReply): WriteOutcome {
    match answer
    case Answered(o) => o
    case MalformedAnswer => Uncertain(request, "PROVIDER_ACKNOWLEDGEMENT_MALFORMED")
    case ProviderRaised(reason) => Uncertain(request, reason)
  }

  function RecordOf(requested: AttemptRecord, o: WriteOutcome, recordedAt: int): OutcomeRecord {
    match o
    case Committed(id, _, reference, transaction) => OutcomeRecord(requested, id, COMMITTED, None, transaction, Some(reference), recordedAt)
    case NotCommitted(id, reason, transaction) => OutcomeRecord(requested, id, NOT_COMMITTED, Some(reason), transaction, None, recordedAt)
    case CommitUnknown(id, reason, transaction) => OutcomeRecord(requested, id, UNKNOWN_COMMIT_STATE, Some(reason), transaction, None, recordedAt)
  }

  function DecisionFor(o: WriteOutcome): CommitDecision {
    CommitDecision(StatusFor(StateOf(o)), o, false, StateOf(o) == UNKNOWN_COMMIT_STATE)
  }

  // The decision says what became of the WRITE, never asks for a retry, and asks for reconciliation
  // exactly when nobody knows.
  predicate Decides(d: CommitDecision, o: WriteOutcome) {
    && (d.status == WRITE_COMPLETED <==> o.Committed?)
    && (d.status == WRITE_FAILED <==> o.NotCommitted?)
    && (d.status == RECONCILIATION_REQUIRED <==> o.CommitUnknown?)
    && d.outcome == o && !d.retryAllowed && (d.reconciliationRequired <==> o.CommitUnknown?)
  }

  // The record tells the outcome of the attempt: its state, the reference of a commit, the reason of
  // anything else.
  predicate Tells(record: OutcomeRecord, requested: AttemptRecord, o: WriteOutcome, recordedAt: int) {
    && record.requested == requested && record.identity == o.identity && record.transactionId == o.transactionId && record.recordedAt == recordedAt
    && (record.commitState == COMMITTED <==> o.Committed?)
    && (record.commitState == NOT_COMMITTED <==> o.NotCommitted?)
    && (record.commitState == UNKNOWN_COMMIT_STATE <==> o.CommitUnknown?)
    && record.businessReference == (if o.Committed? then Some(o.businessReference) else None)
    && record.reason == (if o.Committed? then None else Some(o.reason))
  }

  // The context has this request's key and payload bound to its node.
  predicate BoundToNode(c: Controls, request: WriteCallRequest) {
    var node := request.identity.node;
    && node in c.keysByWriteNode && c.keysByWriteNode[node] == request.identity.key
    && node in c.payloadHashesByWriteNode && c.payloadHashesByWriteNode[node] == request.identity.payloadHash
  }

  class WriteExecutionCoordinator {
    const ports: Ports

    constructor (ports: Ports)
      ensures this.ports == ports
    {
      this.ports := ports;
    }

    // The provider is called exactly on an allowed decision, for the context's own execution, and
    // behind durable evidence of this very request; and then once, at once.
    method Invoke(ctx: ExecutionContext, owner: Owner, request: WriteCallRequest, decision: Eligibility, requestedAt: int)
      returns (r: Result<ProviderReply, WriteError>)
      requires Evidenced(ports.trace)
      modifies ports, ctx`controls
      ensures Evidenced(ports.trace)
      ensures ProviderCalls(ports.trace) == old(ProviderCalls(ports.trace)) + if r.Ok? then 1 else 0
      ensures var record := AttemptOf(request, requestedAt); var evidence := ports.recordRequested(old(ports.trace), record);
        && (r.Ok? <==> decision == ALLOWED && Owns(owner, request) && Durable(evidence, record))
        && (r == Err(NotEligible) <==> decision != ALLOWED)
        && (r == Err(OwnerMismatch) <==> decision == ALLOWED && !Owns(owner, request))
        && (r.Err? && r.error.InvocationUncertain? <==> decision == ALLOWED && Owns(owner, request) && evidence.EvidenceUncertain?)
        && (r.Err? && r.error.InvocationUncertain? ==> r.error.reason == evidence.reason)
        && ports.trace == old(ports.trace)
             + (if decision == ALLOWED && Owns(owner, request) then [RequestRecorded(record, evidence)] else [])
             + (if r.Ok? then [ProviderCalled(request, r.value)] else [])
        && (r.Ok? ==> r.value == ports.callProvider(old(ports.trace) + [RequestRecorded(record, evidence)], request))
      ensures ctx.controls == if r.Ok? then old(ctx.controls).(checkpoint := old(ctx.controls.checkpoint).(writeRequestDurable := true)) else old(ctx.controls)
    {
      if decision != ALLOWED {
        return Err(NotEligible);
      }
      if request.executionId != owner.executionId || request.identity.tenantId != owner.tenantId
         || owner.operationId != Some(request.identity.operationId) {
        return Err(OwnerMismatch);
      }
      var record := AttemptRecord(request.identity, request.executionId, request.contractHash, request.preconditionId, requestedAt);
      ghost var before := ports.trace;
      var reply := ports.RecordRequested(record);
      OneMoreEvent(before, RequestRecorded(record, reply));
      if reply.EvidenceUncertain? {
        return Err(InvocationUncertain(reply.reason));
      }
      if reply.EvidenceFailed? {
        return Err(EvidenceRaised);
      }
      if reply.NoReceipt? || reply.record != record || !reply.durable || reply.persistedAt < record.requestedAt {
        return Err(EvidenceInvalid);
      }
      ctx.controls := ctx.controls.(checkpoint := ctx.controls.checkpoint.(writeRequestDurable := true));
      ghost var evidenced := ports.trace;
      var answer := ports.CallProvider(request);
      OneMoreEvent(evidenced, ProviderCalled(request, answer));
      return Ok(answer);
    }
  }

  class WriteOutcomeCoordinator {
    const ports: Ports

    constructor (ports: Ports)
      ensures this.ports == ports
    {
      this.ports := ports;
    }

    // An outcome is journalled, and decides, exactly when it is the request's own, the request is the
    // context's own and reserved there, and its record is acknowledged.
    method Finalize(ctx: ExecutionContext, owner: Owner, request: WriteCallRequest, requested: AttemptRecord, outcome: WriteOutcome, recordedAt: int)
      returns (r: Result<CommitDecision, WriteError>)
      requires JournalAgrees(ctx.controls) && Evidenced(ports.trace)
      modifies ports, ctx`controls
      ensures JournalAgrees(ctx.controls) && Evidenced(ports.trace)
      ensures ProviderCalls(ports.trace) == old(ProviderCalls(ports.trace))
      ensures var record := RecordOf(requested, outcome, recordedAt); var receipt := ports.recordOutcome(old(ports.trace), record);
        var asked := outcome.identity == request.identity && Owns(owner, request) && old(BoundToNode(ctx.controls, request));
        && (r.Ok? <==> asked && Acknowledged(receipt, record))
        && ports.trace == old(ports.trace) + (if asked then [OutcomeRecorded(record, receipt)] else [])
        && (r.Ok? ==> r.value == DecisionFor(outcome) && Decides(r.value, outcome)) && Tells(record, requested, outcome, recordedAt)
        && (r == Err(OutcomeMismatch) <==> outcome.identity != request.identity)
        && (r == Err(OwnerMismatch) <==> outcome.identity == request.identity && !Owns(owner, request))
        && (r == Err(IdempotencyMismatch) <==> outcome.identity == request.identity && Owns(owner, request) && old(!BoundToNode(ctx.controls, request)))
        && (asked && r.Err? ==> r.error.OutcomeRaised? || r.error.OutcomeInvalid?)
        && ctx.controls == if r.Ok? then old(ctx.controls).(journal := old(ctx.controls.journal) + [JournalEntry(record, receipt.durableRef)]) else old(ctx.controls)
    {
      if outcome.identity != request.identity {
        return Err(OutcomeMismatch);
      }
      if request.executionId != owner.executionId || request.identity.tenantId != owner.tenantId
         || owner.operationId != Some(request.identity.operationId) {
        return Err(OwnerMismatch);
      }
      var keys, payloads := ctx.controls.keysByWriteNode, ctx.controls.payloadHashesByWriteNode;
      var node := request.identity.node;
      if node !in keys || keys[node] != request.identity.key || node !in payloads || payloads[node] != request.identity.payloadHash {
        return Err(IdempotencyMismatch);
      }
      var record := OutcomeRecord(
        requested, outcome.identity,
        if outcome.Committed? then COMMITTED else if outcome.NotCommitted? then NOT_COMMITTED else UNKNOWN_COMMIT_STATE,
        if outcome.Committed? then None else Some(outcome.reason),
        outcome.transactionId,
        if outcome.Committed? then Some(outcome.businessReference) else None,
        recordedAt);
      ghost var before := ports.trace;
      var receipt := ports.RecordOutcome(record);
      OneMoreEvent(before, OutcomeRecorded(record, receipt));
      if receipt.OutcomeFailed? {
        return Err(OutcomeRaised);
      }
      if receipt.NoOutcomeReceipt? || receipt.record != record || receipt.persistedAt < record.recordedAt {
        return Err(OutcomeInvalid);
      }
      ctx.controls := ctx.controls.(journal := ctx.controls.journal + [JournalEntry(record, receipt.durableRef)]);
      var status := match record.commitState
        case COMMITTED => WRITE_COMPLETED
        case NOT_COMMITTED => WRITE_FAILED
        case UNKNOWN_COMMIT_STATE => RECONCILIATION_REQUIRED;
      return Ok(CommitDecision(status, outcome, false, record.commitState == UNKNOWN_COMMIT_STATE));
    }
  }

  // ---------- one controlled WRITE ----------

  // An attempt as its ports see it: what the evidence port is asked and answers, whether and with
  // what the provider answers, and what outcome that is taken for.
  datatype Attempt = Attempt(record: AttemptRecord, evidence: EvidenceReply, called: bool, answer: ProviderReply, outcome: WriteOutcome)

  function AttemptWith(ports: Ports, before: seq<Event>, request: WriteCallRequest, requestedAt: int): Attempt {
    var record := AttemptOf(request, requestedAt);
    var evidence := ports.recordRequested(before, record);
    var answer := ports.callProvider(before + [RequestRecorded(record, evidence)], request);
    var called := Durable(evidence, record);
    Attempt(record, evidence, called, answer,
            if called then Interpreted(request, answer) else if evidence.EvidenceUncertain? then Uncertain(request, evidence.reason) else Uncertain(request, ""))
  }

  // The trace of an attempt up to its outcome.
  function Attempted(a: Attempt, request: WriteCallRequest): seq<Event> {
    [RequestRecorded(a.record, a.evidence)] + if a.called then [ProviderCalled(request, a.answer)] else []
  }

  // What one controlled WRITE does, in full: when it decides, when it calls the provider, when it
  // journals, and what it leaves behind.
  ghost predicate Performed(ports: Ports, owner: Owner, request: WriteCallRequest, decision: Eligibility, requestedAt: int, recordedAt: int,
                            before: seq<Event>, c: Controls, r: Result<CommitDecision, WriteError>, after: seq<Event>, d: Controls) {
    var a := AttemptWith(ports, before, request, requestedAt);
    var begun := decision == ALLOWED && Owns(owner, request);
    var concluded := begun && (a.called || a.evidence.EvidenceUncertain?);
    var asked := concluded && a.outcome.identity == request.identity && BoundToNode(c, request);
    var record := RecordOf(a.record, a.outcome, recordedAt);
    var receipt := ports.recordOutcome(before + Attempted(a, request), record);
    && (r.Ok? <==> asked && Acknowledged(receipt, record))
    && (r == Err(NotEligible) <==> decision != ALLOWED)
    && (r.Ok? ==> r.value == DecisionFor(a.outcome) && Decides(r.value, a.outcome)) && Tells(record, a.record, a.outcome, recordedAt)
    && after == before + (if begun then Attempted(a, request) else []) + (if asked then [OutcomeRecorded(record, receipt)] else [])
    && ProviderCalls(after) == ProviderCalls(before) + (if begun && a.called then 1 else 0)
    && d.journal == c.journal + (if r.Ok? then [JournalEntry(record, receipt.durableRef)] else [])
    && d == c.(journal := d.journal, checkpoint := if begun && a.called then c.checkpoint.(writeRequestDurable := true) else c.checkpoint)
  }

  // A decision without a provider call behind durable evidence is only ever one to reconcile, and it
  // comes only of an evidence port that itself reports an uncertain invocation.
  lemma DecisionsWithoutACall(ports: Ports, owner: Owner, request: WriteCallRequest, decision: Eligibility, requestedAt: int, recordedAt: int,
                              before: seq<Event>, c: Controls, r: Result<CommitDecision, WriteError>, after: seq<Event>, d: Controls)
    requires Performed(ports, owner, request, decision, requestedAt, recordedAt, before, c, r, after, d) && r.Ok?
    ensures var a := AttemptWith(ports, before, request, requestedAt);
      && (ProviderCalls(after) == ProviderCalls(before) + 1 <==> Durable(a.evidence, a.record))
      && (ProviderCalls(after) == ProviderCalls(before) <==> a.evidence.EvidenceUncertain?)
      && Decides(r.value, a.outcome)
      && (a.called && a.answer.Answered? ==> r.value.outcome == a.answer.outcome)
      && (a.evidence.EvidenceUncertain? || !a.answer.Answered? ==> r.value.status == RECONCILIATION_REQUIRED && r.value.reconciliationRequired)
      && !r.value.retryAllowed
  {
  }

  class CommitAwareWriteExecutor {
    const invocation: WriteExecutionCoordinator
    const outcomes: WriteOutcomeCoordinator

    constructor (invocation: WriteExecutionCoordinator, outcomes: WriteOutcomeCoordinator)
      requires invocation.ports == outcomes.ports
      ensures this.invocation == invocation && this.outcomes == outcomes
    {
      this.invocation, this.outcomes := invocation, outcomes;
    }

    // One controlled WRITE, whatever the ports do.
    method Execute(ctx: ExecutionContext, owner: Owner, request: WriteCallRequest, decision: Eligibility, requestedAt: int, recordedAt: int)
      returns (r: Result<CommitDecision, WriteError>)
      requires invocation.ports == outcomes.ports && Evidenced(invocation.ports.trace) && JournalAgrees(ctx.controls)
      modifies invocation.ports, ctx`controls
      ensures JournalAgrees(ctx.controls) && BindingsKept(old(ctx.controls), ctx.controls) && Evidenced(invocation.ports.trace)
      ensures Performed(invocation.ports, owner, request, decision, requestedAt, recordedAt, old(invocation.ports.trace), old(ctx.controls),
                        r, invocation.ports.trace, ctx.controls)
    {
      ghost var ports := invocation.ports;
      ghost var before := ports.trace;
      ghost var a := AttemptWith(ports, before, request, requestedAt);
      var answer := invocation.Invoke(ctx, owner, request, decision, requestedAt);
      var outcome: WriteOutcome;
      if answer.Ok? {
        outcome := match answer.value
          case Answered(o) => o
          case MalformedAnswer => CommitUnknown(request.identity, "PROVIDER_ACKNOWLEDGEMENT_MALFORMED", None)
          case ProviderRaised(reason) => CommitUnknown(request.identity, reason, None);
      } else if answer.error.InvocationUncertain? {
        outcome := CommitUnknown(request.identity, answer.error.reason, None);
      } else {
        assert decision == ALLOWED && Owns(owner, request) ==> !a.called && !a.evidence.EvidenceUncertain?;
        return Err(answer.error);
      }
      assert ports.trace == before + Attempted(a, request);
      assert outcome == a.outcome;
      var requested := AttemptRecord(request.identity, request.executionId, request.contractHash, request.preconditionId, requestedAt);
      r := outcomes.Finalize(ctx, owner, request, requested, outcome, recordedAt);
    }

    // In production, trust in the skill comes first: without it nothing happens at all, and with it
    // the WRITE is performed as ever.
    method ExecuteTrusted(ctx: ExecutionContext, owner: Owner, trust: Option<(string, string)>, request: WriteCallRequest, decision: Eligibility, requestedAt: int, recordedAt: int)
      returns (r: Result<CommitDecision, WriteError>)
      requires invocation.ports == outcomes.ports && Evidenced(invocation.ports.trace) && JournalAgrees(ctx.controls)
      modifies invocation.ports, ctx`controls
      ensures JournalAgrees(ctx.controls) && BindingsKept(old(ctx.controls), ctx.controls) && Evidenced(invocation.ports.trace)
      ensures if trust == Some((owner.tenantId, owner.semanticHash)) then
          Performed(invocation.ports, owner, request, decision, requestedAt, recordedAt, old(invocation.ports.trace), old(ctx.controls),
                    r, invocation.ports.trace, ctx.controls)
        else r == Err(TrustMismatch) && invocation.ports.trace == old(invocation.ports.trace) && ctx.controls == old(ctx.controls)
    {
      if trust.None? || trust.value.0 != owner.tenantId || trust.value.1 != owner.semanticHash {
        return Err(TrustMismatch);
      }
      r := Execute(ctx, owner, request, decision, requestedAt, recordedAt);
    }
  }
}
