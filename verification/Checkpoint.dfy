// Checkpoints of an execution context: the payload codec, the bindings a restore insists on,
// and the condition under which suspending and resuming a run changes nothing.

module Checkpoint {
  import opened Wrappers
  import opened Core
  import opened Ir
  import opened Semantics
  import opened Runtime
  import opened Json

  datatype CheckpointError =
    | Malformed
    | BindingMismatch
    | SecurityMismatch
    | IntegrityMismatch
    | UnsupportedSchema
    | NotSerializable
    | NoOperationIdentity

  // Everything a checkpoint preserves of a context.
  datatype Snapshot = Snapshot(
    b: Bindings,
    checks: seq<CheckResult>,
    outputs: seq<Row>,
    meter: Meter,
    completeness: Completeness,
    invocations: nat,
    depth: nat,
    controls: Controls)

  // ---------- texts and small parts ----------

  function Need<T>(o: Option<T>): Result<T, CheckpointError> {
    match o case Some(x) => Ok(x) case None => Err(Malformed)
  }

  function RequiredText(j: Json): Result<string, CheckpointError> {
    if j.JText? && !Blank(j.s) then Ok(j.s) else Err(Malformed)
  }

  function OptionalText(j: Json): Result<Option<string>, CheckpointError> {
    if j.JNull? then Ok(None)
    else
      var s :- RequiredText(j);
      Ok(Some(s))
  }

  function OptionalToJson(o: Option<string>): Json {
    match o case Some(s) => JText(s) case None => JNull
  }

  predicate OptionalOk(o: Option<string>) {
    o.Some? ==> !Blank(o.value)
  }

  function Count(j: Json): Result<nat, CheckpointError> {
    if j.JInt? && j.i >= 0 then Ok(j.i) else Err(Malformed)
  }

  // An object with exactly these members.
  function Exact(j: Json, fields: set<string>): (r: Result<map<string, Json>, CheckpointError>)
    ensures r.Ok? ==> r.value.Keys == fields
  {
    if j.JObject? && j.members.Keys == fields then Ok(j.members) else Err(Malformed)
  }

  function PresenceText(p: Presence): string {
    match p case PRESENT => "PRESENT" case EMPTY => "EMPTY"
  }

  function PresenceNamed(j: Json): Result<Presence, CheckpointError> {
    if j == JText("PRESENT") then Ok(PRESENT) else if j == JText("EMPTY") then Ok(EMPTY) else Err(Malformed)
  }

  function CompletenessText(c: Completeness): string {
    match c case COMPLETE => "COMPLETE" case PARTIAL => "PARTIAL" case UNKNOWN => "UNKNOWN"
  }

  function CompletenessNamed(j: Json): Result<Completeness, CheckpointError> {
    if j == JText("COMPLETE") then Ok(COMPLETE)
    else if j == JText("PARTIAL") then Ok(PARTIAL)
    else if j == JText("UNKNOWN") then Ok(UNKNOWN)
    else Err(Malformed)
  }

  function ClassText(c: Classification): string {
    match c
    case PUBLIC => "PUBLIC"
    case INTERNAL => "INTERNAL"
    case CONFIDENTIAL => "CONFIDENTIAL"
    case RESTRICTED => "RESTRICTED"
  }

  function ClassNamed(j: Json): Result<Classification, CheckpointError> {
    if j == JText("PUBLIC") then Ok(PUBLIC)
    else if j == JText("INTERNAL") then Ok(INTERNAL)
    else if j == JText("CONFIDENTIAL") then Ok(CONFIDENTIAL)
    else if j == JText("RESTRICTED") then Ok(RESTRICTED)
    else Err(Malformed)
  }

  function StatusNamed(j: Json): Result<CheckStatus, CheckpointError> {
    if j == JText("PASS") then Ok(PASS)
    else if j == JText("FAIL") then Ok(FAIL)
    else if j == JText("UNKNOWN") then Ok(UNDECIDED)
    else Err(Malformed)
  }

  function ApprovalText(s: ApprovalStatus): string {
    match s
    case NOT_REQUESTED => "NOT_REQUESTED"
    case PENDING => "PENDING"
    case APPROVED => "APPROVED"
    case REJECTED => "REJECTED"
    case EXPIRED => "EXPIRED"
  }

  function ApprovalNamed(j: Json): Result<ApprovalStatus, CheckpointError> {
    if j == JText("NOT_REQUESTED") then Ok(NOT_REQUESTED)
    else if j == JText("PENDING") then Ok(PENDING)
    else if j == JText("APPROVED") then Ok(APPROVED)
    else if j == JText("REJECTED") then Ok(REJECTED)
    else if j == JText("EXPIRED") then Ok(EXPIRED)
    else Err(Malformed)
  }

  lemma TagsSurvive()
    ensures forall p: Presence :: PresenceNamed(JText(PresenceText(p))) == Ok(p)
    ensures forall c: Completeness :: CompletenessNamed(JText(CompletenessText(c))) == Ok(c)
    ensures forall c: Classification :: ClassNamed(JText(ClassText(c))) == Ok(c)
    ensures forall s: CheckStatus :: StatusNamed(JText(StatusText(s))) == Ok(s)
    ensures forall s: ApprovalStatus :: ApprovalNamed(JText(ApprovalText(s))) == Ok(s)
  {
  }

  // ---------- lists and tables ----------

  // Decodes every item, or fails.
  function Each<T>(items: seq<Json>, decode: Json -> Result<T, CheckpointError>): (r: Result<seq<T>, CheckpointError>)
    ensures r.Ok? <==> forall i | 0 <= i < |items| :: decode(items[i]).Ok?
    ensures r.Ok? ==> |r.value| == |items| && forall i | 0 <= i < |items| :: Ok(r.value[i]) == decode(items[i])
  {
    if items == [] then Ok([])
    else
      var first := decode(items[0]);
      if first.Err? then Err(first.error)
      else
        var rest := Each(items[1..], decode);
        if rest.Err? then assert !forall i | 0 <= i < |items| :: decode(items[i]).Ok? by {
          var i :| 0 <= i < |items[1..]| && decode(items[1..][i]).Err?;
          assert decode(items[i + 1]).Err?;
        } rest
        else Ok([first.value] + rest.value)
  }

  function Items(j: Json): Result<seq<Json>, CheckpointError> {
    if j.JArray? then Ok(j.items) else Err(Malformed)
  }

  function ListToJson<T>(values: seq<T>, encode: T -> Json): Json {
    JArray(seq(|values|, i requires 0 <= i < |values| => encode(values[i])))
  }

  function ListFromJson<T>(j: Json, decode: Json -> Result<T, CheckpointError>): Result<seq<T>, CheckpointError> {
    var items :- Items(j);
    Each(items, decode)
  }

  lemma ListSurvives<T>(values: seq<T>, encode: T -> Json, decode: Json -> Result<T, CheckpointError>)
    ensures ListFromJson(ListToJson(values, encode), decode) == Ok(values) <==> forall i | 0 <= i < |values| :: decode(encode(values[i])) == Ok(values[i])
  {
    var j := ListToJson(values, encode);
    var r := Each(j.items, decode);
    if r == Ok(values) {
      forall i | 0 <= i < |values| ensures decode(encode(values[i])) == Ok(values[i]) {
        assert j.items[i] == encode(values[i]);
      }
    }
    if forall i | 0 <= i < |values| :: decode(encode(values[i])) == Ok(values[i]) {
      assert forall i | 0 <= i < |values| :: j.items[i] == encode(values[i]);
      assert r.Ok? && r.value == values;
    }
  }

  // Tables with text keys, which must not be blank.
  function TableToJson<T>(table: map<string, T>, encode: T -> Json): Json {
    JObject(map k | k in table :: encode(table[k]))
  }

  function TableFromJson<T>(j: Json, decode: Json -> Result<T, CheckpointError>): Result<map<string, T>, CheckpointError> {
    if !j.JObject? || exists k :: k in j.members && (Blank(k) || decode(j.members[k]).Err?) then Err(Malformed)
    else Ok(map k | k in j.members && decode(j.members[k]).Ok? :: decode(j.members[k]).value)
  }

  lemma TableSurvives<T>(table: map<string, T>, encode: T -> Json, decode: Json -> Result<T, CheckpointError>)
    ensures TableFromJson(TableToJson(table, encode), decode) == Ok(table)
      <==> forall k | k in table :: !Blank(k) && decode(encode(table[k])) == Ok(table[k])
  {
    var j := TableToJson(table, encode);
    assert j.members.Keys == table.Keys && forall k | k in table :: j.members[k] == encode(table[k]);
    var r := TableFromJson(j, decode);
    if r == Ok(table) {
      forall k | k in table ensures !Blank(k) && decode(encode(table[k])) == Ok(table[k]) {
        assert k in j.members && r.value[k] == decode(j.members[k]).value;
      }
    }
    if forall k | k in table :: !Blank(k) && decode(encode(table[k])) == Ok(table[k]) {
      assert r.Ok? && r.value == table;
    }
  }

  // Tables keyed by symbol.
  function SymbolsToJson<T>(table: map<SymbolId, T>, encode: T -> Json): Json {
    JSymbols(map id | id in table :: encode(table[id]))
  }

  function SymbolsFromJson<T>(j: Json, decode: Json -> Result<T, CheckpointError>): Result<map<SymbolId, T>, CheckpointError> {
    if !j.JSymbols? || exists id :: id in j.symbols && decode(j.symbols[id]).Err? then Err(Malformed)
    else Ok(map id | id in j.symbols && decode(j.symbols[id]).Ok? :: decode(j.symbols[id]).value)
  }

  lemma SymbolsSurvive<T>(table: map<SymbolId, T>, encode: T -> Json, decode: Json -> Result<T, CheckpointError>)
    ensures SymbolsFromJson(SymbolsToJson(table, encode), decode) == Ok(table)
      <==> forall id | id in table :: decode(encode(table[id])) == Ok(table[id])
  {
    var j := SymbolsToJson(table, encode);
    assert j.symbols.Keys == table.Keys && forall id | id in table :: j.symbols[id] == encode(table[id]);
    var r := SymbolsFromJson(j, decode);
    if r == Ok(table) {
      forall id | id in table ensures decode(encode(table[id])) == Ok(table[id]) {
        assert id in j.symbols && r.value[id] == decode(j.symbols[id]).value;
      }
    }
    if forall id | id in table :: decode(encode(table[id])) == Ok(table[id]) {
      assert r.Ok? && r.value == table;
    }
  }

  // ---------- envelopes, frames, checks ----------

  const ENVELOPE_FIELDS := {"value", "type", "presence", "completeness", "classification", "provenance_refs"}

  function RefToJson(p: Provenance): Json {
    JRef(p)
  }

  function RefFromJson(j: Json): Result<Provenance, CheckpointError> {
    if j.JRef? then Ok(j.ref) else Err(Malformed)
  }

  lemma RefsSurvive(refs: seq<Provenance>)
    ensures ListFromJson(ListToJson(refs, RefToJson), RefFromJson) == Ok(refs)
  {
    ListSurvives(refs, RefToJson, RefFromJson);
  }

  function EnvelopeToJson(t: Texts, x: Envelope): Json {
    JObject(map[
      "value" := EncodeValue(t, x.value),
      "type" := TypeToJson(x.ty),
      "presence" := JText(PresenceText(x.presence)),
      "completeness" := JText(CompletenessText(x.completeness)),
      "classification" := JText(ClassText(x.cls)),
      "provenance_refs" := ListToJson(x.prov, RefToJson)])
  }

  function EnvelopeFromJson(t: Texts, j: Json): Result<Envelope, CheckpointError> {
    var m :- Exact(j, ENVELOPE_FIELDS);
    var refs :- ListFromJson(m["provenance_refs"], RefFromJson);
    var value :- Need(DecodeValue(t, m["value"]));
    var ty :- Need(TypeFromJson(m["type"]));
    var presence :- PresenceNamed(m["presence"]);
    var completeness :- CompletenessNamed(m["completeness"]);
    var cls :- ClassNamed(m["classification"]);
    Ok(Envelope(value, ty, presence, completeness, cls, refs))
  }

  lemma EnvelopeSurvivesExactly(t: Texts, x: Envelope)
    requires Readable(t)
    ensures EnvelopeFromJson(t, EnvelopeToJson(t, x)) == Ok(x) <==> Encodable(x.value)
  {
    ValueSurvivesExactly(t, x.value);
    TypeSurvives(x.ty);
    TagsSurvive();
    RefsSurvive(x.prov);
    hide EncodeValue, DecodeValue, TypeToJson, TypeFromJson, Readable, Encodable, ListToJson, ListFromJson,
         PresenceNamed, PresenceText, CompletenessNamed, CompletenessText, ClassNamed, ClassText;
    assert EnvelopeToJson(t, x).members.Keys == ENVELOPE_FIELDS;
  }

  function EnvelopeEncoder(t: Texts): Envelope -> Json {
    x => EnvelopeToJson(t, x)
  }

  function EnvelopeDecoder(t: Texts): Json -> Result<Envelope, CheckpointError> {
    j => EnvelopeFromJson(t, j)
  }

  function FrameToJson(t: Texts, f: Frame): Json {
    SymbolsToJson(f, EnvelopeEncoder(t))
  }

  function FrameFromJson(t: Texts, j: Json): Result<Frame, CheckpointError> {
    SymbolsFromJson(j, EnvelopeDecoder(t))
  }

  ghost predicate FrameEncodable(f: Frame) {
    forall id | id in f :: Encodable(f[id].value)
  }

  lemma FrameSurvivesExactly(t: Texts, f: Frame)
    requires Readable(t)
    ensures FrameFromJson(t, FrameToJson(t, f)) == Ok(f) <==> FrameEncodable(f)
  {
    forall id | id in f ensures EnvelopeDecoder(t)(EnvelopeEncoder(t)(f[id])) == Ok(f[id]) <==> Encodable(f[id].value) {
      EnvelopeSurvivesExactly(t, f[id]);
    }
    hide EnvelopeDecoder, EnvelopeEncoder, Readable, Encodable;
    SymbolsSurvive(f, EnvelopeEncoder(t), EnvelopeDecoder(t));
  }

  function RowToJson(t: Texts, row: Row): Json {
    TableToJson(row, EnvelopeEncoder(t))
  }

  function RowFromJson(t: Texts, j: Json): Result<Row, CheckpointError> {
    TableFromJson(j, EnvelopeDecoder(t))
  }

  ghost predicate RowEncodable(row: Row) {
    forall n | n in row :: !Blank(n) && Encodable(row[n].value)
  }

  lemma RowSurvivesExactly(t: Texts, row: Row)
    requires Readable(t)
    ensures RowFromJson(t, RowToJson(t, row)) == Ok(row) <==> RowEncodable(row)
  {
    forall n | n in row ensures EnvelopeDecoder(t)(EnvelopeEncoder(t)(row[n])) == Ok(row[n]) <==> Encodable(row[n].value) {
      EnvelopeSurvivesExactly(t, row[n]);
    }
    hide EnvelopeDecoder, EnvelopeEncoder, Readable, Encodable, Blank;
    TableSurvives(row, EnvelopeEncoder(t), EnvelopeDecoder(t));
  }

  const CHECK_FIELDS := {"check_id", "status", "severity", "message", "presence", "completeness", "provenance_refs"}

  function CheckToJson(c: CheckResult): Json {
    JObject(map[
      "check_id" := JText(c.checkId),
      "status" := JText(StatusText(c.status)),
      "severity" := JText(c.severity),
      "message" := JText(c.message),
      "presence" := JText(PresenceText(c.presence)),
      "completeness" := JText(CompletenessText(c.completeness)),
      "provenance_refs" := ListToJson(c.prov, RefToJson)])
  }

  function CheckFromJson(j: Json): Result<CheckResult, CheckpointError> {
    var m :- Exact(j, CHECK_FIELDS);
    var refs :- ListFromJson(m["provenance_refs"], RefFromJson);
    var checkId :- RequiredText(m["check_id"]);
    var status :- StatusNamed(m["status"]);
    var severity :- RequiredText(m["severity"]);
    var presence :- PresenceNamed(m["presence"]);
    var completeness :- CompletenessNamed(m["completeness"]);
    if m["message"].JText? then Ok(CheckResult(checkId, status, severity, m["message"].s, presence, completeness, refs))
    else Err(Malformed)
  }

  predicate CheckNamed(c: CheckResult) {
    !Blank(c.checkId) && !Blank(c.severity)
  }

  lemma CheckSurvivesExactly(c: CheckResult)
    ensures CheckFromJson(CheckToJson(c)) == Ok(c) <==> CheckNamed(c)
  {
    TagsSurvive();
    RefsSurvive(c.prov);
    hide ListToJson, ListFromJson, Blank, PresenceNamed, PresenceText, CompletenessNamed, CompletenessText, StatusNamed, StatusText;
    assert CheckToJson(c).members.Keys == CHECK_FIELDS;
  }
  // ---------- the sections of the payload ----------

  function FrameEncoder(t: Texts): Frame -> Json {
    f => FrameToJson(t, f)
  }

  function FrameDecoder(t: Texts): Json -> Result<Frame, CheckpointError> {
    j => FrameFromJson(t, j)
  }

  const SYMBOL_FIELDS := {"inputs", "contexts", "frames", "check_frames"}

  function BindingsToJson(t: Texts, b: Bindings): Json {
    JObject(map[
      "inputs" := FrameToJson(t, b.inputs),
      "contexts" := FrameToJson(t, b.contexts),
      "frames" := ListToJson(b.frames, FrameEncoder(t)),
      "check_frames" := ListToJson(b.checkFrames, FrameEncoder(t))])
  }

  function BindingsFromJson(t: Texts, j: Json): (r: Result<Bindings, CheckpointError>)
    ensures r.Ok? ==> Framed(r.value)
  {
    var m :- Exact(j, SYMBOL_FIELDS);
    var inputs :- FrameFromJson(t, m["inputs"]);
    var contexts :- FrameFromJson(t, m["contexts"]);
    var frames :- ListFromJson(m["frames"], FrameDecoder(t));
    var checkFrames :- ListFromJson(m["check_frames"], FrameDecoder(t));
    if frames == [] || |checkFrames| != |frames| then Err(Malformed)
    else Ok(Bindings(inputs, contexts, frames, checkFrames))
  }

  ghost predicate BindingsEncodable(b: Bindings) {
    && FrameEncodable(b.inputs) && FrameEncodable(b.contexts)
    && (forall i | 0 <= i < |b.frames| :: FrameEncodable(b.frames[i]))
    && (forall i | 0 <= i < |b.checkFrames| :: FrameEncodable(b.checkFrames[i]))
  }

  lemma FramesSurviveExactly(t: Texts, frames: seq<Frame>)
    requires Readable(t)
    ensures ListFromJson(ListToJson(frames, FrameEncoder(t)), FrameDecoder(t)) == Ok(frames) <==> forall i | 0 <= i < |frames| :: FrameEncodable(frames[i])
  {
    forall i | 0 <= i < |frames| ensures FrameDecoder(t)(FrameEncoder(t)(frames[i])) == Ok(frames[i]) <==> FrameEncodable(frames[i]) {
      FrameSurvivesExactly(t, frames[i]);
    }
    hide FrameEncoder, FrameDecoder, FrameEncodable, Readable, ListToJson, ListFromJson;
    ListSurvives(frames, FrameEncoder(t), FrameDecoder(t));
  }

  lemma BindingsMembers(t: Texts, b: Bindings)
    ensures var j := BindingsToJson(t, b);
      && j.JObject? && j.members.Keys == SYMBOL_FIELDS
      && j.members["inputs"] == FrameToJson(t, b.inputs) && j.members["contexts"] == FrameToJson(t, b.contexts)
      && j.members["frames"] == ListToJson(b.frames, FrameEncoder(t)) && j.members["check_frames"] == ListToJson(b.checkFrames, FrameEncoder(t))
  {
    hide FrameToJson, ListToJson, FrameEncoder;
  }

  lemma BindingsDecodeTo(t: Texts, m: map<string, Json>, b: Bindings)
    requires Framed(b) && m.Keys == SYMBOL_FIELDS
    ensures BindingsFromJson(t, JObject(m)) == Ok(b) <==>
      && FrameFromJson(t, m["inputs"]) == Ok(b.inputs)
      && FrameFromJson(t, m["contexts"]) == Ok(b.contexts)
      && ListFromJson(m["frames"], FrameDecoder(t)) == Ok(b.frames)
      && ListFromJson(m["check_frames"], FrameDecoder(t)) == Ok(b.checkFrames)
  {
    hide FrameFromJson, ListFromJson, FrameDecoder;
  }

  lemma BindingsSurviveExactly(t: Texts, b: Bindings)
    requires Readable(t) && Framed(b)
    ensures BindingsFromJson(t, BindingsToJson(t, b)) == Ok(b) <==> BindingsEncodable(b)
  {
    BindingsMembers(t, b);
    var j := BindingsToJson(t, b);
    BindingsDecodeTo(t, j.members, b);
    assert BindingsEncodable(b) == (
      && FrameEncodable(b.inputs) && FrameEncodable(b.contexts)
      && (forall i | 0 <= i < |b.frames| :: FrameEncodable(b.frames[i])) && (forall i | 0 <= i < |b.checkFrames| :: FrameEncodable(b.checkFrames[i])));
    hide *;
    FrameSurvivesExactly(t, b.inputs);
    FrameSurvivesExactly(t, b.contexts);
    FramesSurviveExactly(t, b.frames);
    FramesSurviveExactly(t, b.checkFrames);
  }

  const RESOURCE_FIELDS := {"tool_calls", "loop_iterations", "emitted_rows", "max_collection_size_seen"}

  function MeterToJson(m: Meter): Json {
    JObject(map[
      "tool_calls" := JInt(m.toolCalls),
      "loop_iterations" := JInt(m.loopIterations),
      "emitted_rows" := JInt(m.emittedRows),
      "max_collection_size_seen" := JInt(m.maxCollectionSeen)])
  }

  function MeterFromJson(j: Json): Result<Meter, CheckpointError> {
    var m :- Exact(j, RESOURCE_FIELDS);
    var toolCalls :- Count(m["tool_calls"]);
    var loopIterations :- Count(m["loop_iterations"]);
    var emittedRows :- Count(m["emitted_rows"]);
    var seen :- Count(m["max_collection_size_seen"]);
    Ok(Meter(toolCalls, loopIterations, emittedRows, seen))
  }

  lemma MeterSurvives(m: Meter)
    ensures MeterFromJson(MeterToJson(m)) == Ok(m)
  {
    assert MeterToJson(m).members.Keys == RESOURCE_FIELDS;
  }

  datatype Progress = Progress(completeness: Completeness, invocations: nat, depth: nat, currentNode: Option<string>)

  const EXECUTION_FIELDS := {"data_completeness", "invocation_counter", "foreach_depth", "current_node_id"}

  function ProgressToJson(p: Progress): Json {
    JObject(map[
      "data_completeness" := JText(CompletenessText(p.completeness)),
      "invocation_counter" := JInt(p.invocations),
      "foreach_depth" := JInt(p.depth),
      "current_node_id" := OptionalToJson(p.currentNode)])
  }

  function ProgressFromJson(j: Json): Result<Progress, CheckpointError> {
    var m :- Exact(j, EXECUTION_FIELDS);
    var completeness :- CompletenessNamed(m["data_completeness"]);
    var invocations :- Count(m["invocation_counter"]);
    var depth :- Count(m["foreach_depth"]);
    var node :- OptionalText(m["current_node_id"]);
    Ok(Progress(completeness, invocations, depth, node))
  }

  lemma ProgressSurvivesExactly(p: Progress)
    ensures ProgressFromJson(ProgressToJson(p)) == Ok(p) <==> OptionalOk(p.currentNode)
  {
    TagsSurvive();
    hide CompletenessText, CompletenessNamed, Blank;
    assert ProgressToJson(p).members.Keys == EXECUTION_FIELDS;
  }

  function ApprovalToJson(s: ApprovalStatus): Json {
    JText(ApprovalText(s))
  }

  function TextToJson(s: string): Json {
    JText(s)
  }

  predicate NamesGiven<T>(table: map<string, T>) {
    forall k | k in table :: !Blank(k)
  }

  // Neither a key nor a value is blank.
  predicate TextsGiven(table: map<string, string>) {
    forall k | k in table :: !Blank(k) && !Blank(table[k])
  }

  lemma ApprovalsSurviveExactly(approvals: map<string, ApprovalStatus>)
    ensures TableFromJson(TableToJson(approvals, ApprovalToJson), ApprovalNamed) == Ok(approvals) <==> NamesGiven(approvals)
  {
    TagsSurvive();
    hide ApprovalNamed, ApprovalText, Blank, TableToJson, TableFromJson;
    TableSurvives(approvals, ApprovalToJson, ApprovalNamed);
  }

  lemma TextTableSurvivesExactly(table: map<string, string>)
    ensures TableFromJson(TableToJson(table, TextToJson), RequiredText) == Ok(table) <==> TextsGiven(table)
  {
    hide Blank, TableToJson, TableFromJson;
    TableSurvives(table, TextToJson, RequiredText);
  }

  const IDEMPOTENCY_FIELDS := {"keys_by_write_node", "payload_hashes_by_write_node"}

  const CHECKPOINT_FIELDS := {"checkpoint_version", "last_completed_node_id", "suspended_at_node_id", "trace_sequence",
    "approval_request_published", "write_request_durable", "approval_request_ids_by_write_node",
    "write_intent_hashes_by_write_node", "payload_hashes_by_write_node"}

  function MarkToJson(c: CheckpointState): Json {
    JObject(map[
      "checkpoint_version" := JInt(c.version),
      "last_completed_node_id" := OptionalToJson(c.lastCompletedNode),
      "suspended_at_node_id" := OptionalToJson(c.suspendedAtNode),
      "trace_sequence" := JInt(c.traceSequence),
      "approval_request_published" := JBool(c.approvalRequestPublished),
      "write_request_durable" := JBool(c.writeRequestDurable),
      "approval_request_ids_by_write_node" := TableToJson(c.approvalRequestIds, TextToJson),
      "write_intent_hashes_by_write_node" := TableToJson(c.writeIntentHashes, TextToJson),
      "payload_hashes_by_write_node" := TableToJson(c.payloadHashes, TextToJson)])
  }

  function MarkFromJson(j: Json): Result<CheckpointState, CheckpointError> {
    var m :- Exact(j, CHECKPOINT_FIELDS);
    var version :- Count(m["checkpoint_version"]);
    var last :- OptionalText(m["last_completed_node_id"]);
    var suspended :- OptionalText(m["suspended_at_node_id"]);
    var sequence :- Count(m["trace_sequence"]);
    var requests :- TableFromJson(m["approval_request_ids_by_write_node"], RequiredText);
    var intents :- TableFromJson(m["write_intent_hashes_by_write_node"], RequiredText);
    var payloads :- TableFromJson(m["payload_hashes_by_write_node"], RequiredText);
    if version == 0 || !m["approval_request_published"].JBool? || !m["write_request_durable"].JBool? then Err(Malformed)
    else Ok(CheckpointState(version, last, suspended, sequence, m["approval_request_published"].b, m["write_request_durable"].b, requests, intents, payloads))
  }

  predicate MarkGiven(c: CheckpointState) {
    && c.version > 0 && OptionalOk(c.lastCompletedNode) && OptionalOk(c.suspendedAtNode)
    && TextsGiven(c.approvalRequestIds) && TextsGiven(c.writeIntentHashes) && TextsGiven(c.payloadHashes)
  }

  lemma MarkDecodesTo(m: map<string, Json>, c: CheckpointState)
    requires m.Keys == CHECKPOINT_FIELDS
    ensures MarkFromJson(JObject(m)) == Ok(c) <==>
      && Count(m["checkpoint_version"]) == Ok(c.version) && c.version > 0
      && OptionalText(m["last_completed_node_id"]) == Ok(c.lastCompletedNode)
      && OptionalText(m["suspended_at_node_id"]) == Ok(c.suspendedAtNode)
      && Count(m["trace_sequence"]) == Ok(c.traceSequence)
      && m["approval_request_published"] == JBool(c.approvalRequestPublished)
      && m["write_request_durable"] == JBool(c.writeRequestDurable)
      && TableFromJson(m["approval_request_ids_by_write_node"], RequiredText) == Ok(c.approvalRequestIds)
      && TableFromJson(m["write_intent_hashes_by_write_node"], RequiredText) == Ok(c.writeIntentHashes)
      && TableFromJson(m["payload_hashes_by_write_node"], RequiredText) == Ok(c.payloadHashes)
  {
    hide TableFromJson, OptionalText, Count;
  }

  lemma MarkSurvivesExactly(c: CheckpointState)
    ensures MarkFromJson(MarkToJson(c)) == Ok(c) <==> MarkGiven(c)
  {
    TextTableSurvivesExactly(c.approvalRequestIds);
    TextTableSurvivesExactly(c.writeIntentHashes);
    TextTableSurvivesExactly(c.payloadHashes);
    hide TableToJson, TableFromJson, TextsGiven, Blank;
    var m := MarkToJson(c).members;
    assert m.Keys == CHECKPOINT_FIELDS;
    MarkDecodesTo(m, c);
    hide MarkFromJson;
  }

  // ---------- the payload ----------

  const STATE_SCHEMA_VERSION := 1

  const STATE_FIELDS := {"schema_version", "checkpoint_version", "security", "symbols", "checks", "outputs",
    "resources", "execution", "approvals", "writes", "idempotency", "checkpoint"}

  function RowEncoder(t: Texts): Row -> Json {
    row => RowToJson(t, row)
  }

  function RowDecoder(t: Texts): Json -> Result<Row, CheckpointError> {
    j => RowFromJson(t, j)
  }

  function IdempotencyToJson(c: Controls): Json {
    JObject(map[
      "keys_by_write_node" := TableToJson(c.keysByWriteNode, TextToJson),
      "payload_hashes_by_write_node" := TableToJson(c.payloadHashesByWriteNode, TextToJson)])
  }

  function IdempotencyFromJson(j: Json): Result<(map<string, string>, map<string, string>), CheckpointError> {
    var m :- Exact(j, IDEMPOTENCY_FIELDS);
    var keys :- TableFromJson(m["keys_by_write_node"], RequiredText);
    var payloads :- TableFromJson(m["payload_hashes_by_write_node"], RequiredText);
    Ok((keys, payloads))
  }

  lemma IdempotencySurvivesExactly(c: Controls)
    ensures IdempotencyFromJson(IdempotencyToJson(c)) == Ok((c.keysByWriteNode, c.payloadHashesByWriteNode))
      <==> TextsGiven(c.keysByWriteNode) && TextsGiven(c.payloadHashesByWriteNode)
  {
    TextTableSurvivesExactly(c.keysByWriteNode);
    TextTableSurvivesExactly(c.payloadHashesByWriteNode);
    hide TableToJson, TableFromJson, TextsGiven;
    assert IdempotencyToJson(c).members.Keys == IDEMPOTENCY_FIELDS;
  }

  // Journal entries cannot be serialised, so only an empty journal is written.
  function StateToJson(t: Texts, s: Snapshot, version: nat, security: Json): Json {
    JObject(map[
      "schema_version" := JInt(STATE_SCHEMA_VERSION),
      "checkpoint_version" := JInt(version),
      "security" := security,
      "symbols" := BindingsToJson(t, s.b),
      "checks" := ListToJson(s.checks, CheckToJson),
      "outputs" := ListToJson(s.outputs, RowEncoder(t)),
      "resources" := MeterToJson(s.meter),
      "execution" := ProgressToJson(Progress(s.completeness, s.invocations, s.depth, s.controls.currentNode)),
      "approvals" := TableToJson(s.controls.approvals, ApprovalToJson),
      "writes" := JArray([]),
      "idempotency" := IdempotencyToJson(s.controls),
      "checkpoint" := MarkToJson(s.controls.checkpoint.(version := version))])
  }

  function StateFromJson(t: Texts, j: Json, version: nat, security: Json): (r: Result<Snapshot, CheckpointError>)
    ensures r.Ok? ==> Framed(r.value.b)
  {
    var m :- Exact(j, STATE_FIELDS);
    if m["schema_version"] != JInt(STATE_SCHEMA_VERSION) then Err(UnsupportedSchema)
    else if m["checkpoint_version"] != JInt(version) then Err(BindingMismatch)
    else if m["security"] != security then Err(SecurityMismatch)
    else
      var b :- BindingsFromJson(t, m["symbols"]);
      var checks :- ListFromJson(m["checks"], CheckFromJson);
      var outputs :- ListFromJson(m["outputs"], RowDecoder(t));
      var meter :- MeterFromJson(m["resources"]);
      var progress :- ProgressFromJson(m["execution"]);
      var approvals :- TableFromJson(m["approvals"], ApprovalNamed);
      var idempotency :- IdempotencyFromJson(m["idempotency"]);
      var mark :- MarkFromJson(m["checkpoint"]);
      if m["writes"] != JArray([]) then Err(Malformed)
      else if mark.version != version then Err(BindingMismatch)
      else Ok(Snapshot(b, checks, outputs, meter, progress.completeness, progress.invocations, progress.depth,
                       Controls(progress.currentNode, approvals, [], idempotency.0, idempotency.1, mark)))
  }

  predicate ControlsGiven(c: Controls, version: nat) {
    && OptionalOk(c.currentNode) && NamesGiven(c.approvals)
    && TextsGiven(c.keysByWriteNode) && TextsGiven(c.payloadHashesByWriteNode)
    && MarkGiven(c.checkpoint.(version := version))
  }

  ghost predicate ResultsGiven(checks: seq<CheckResult>, outputs: seq<Row>) {
    && (forall i | 0 <= i < |checks| :: CheckNamed(checks[i]))
    && (forall i | 0 <= i < |outputs| :: RowEncodable(outputs[i]))
  }

  lemma ResultsSurviveExactly(t: Texts, checks: seq<CheckResult>, outputs: seq<Row>)
    requires Readable(t)
    ensures ResultsGiven(checks, outputs) <==>
      && ListFromJson(ListToJson(checks, CheckToJson), CheckFromJson) == Ok(checks)
      && ListFromJson(ListToJson(outputs, RowEncoder(t)), RowDecoder(t)) == Ok(outputs)
  {
    forall i | 0 <= i < |checks| ensures CheckFromJson(CheckToJson(checks[i])) == Ok(checks[i]) <==> CheckNamed(checks[i]) {
      CheckSurvivesExactly(checks[i]);
    }
    forall i | 0 <= i < |outputs| ensures RowDecoder(t)(RowEncoder(t)(outputs[i])) == Ok(outputs[i]) <==> RowEncodable(outputs[i]) {
      RowSurvivesExactly(t, outputs[i]);
    }
    hide RowEncoder, RowDecoder, CheckToJson, CheckFromJson, CheckNamed, RowEncodable, ListToJson, ListFromJson, Readable;
    ListSurvives(checks, CheckToJson, CheckFromJson);
    ListSurvives(outputs, RowEncoder(t), RowDecoder(t));
  }

  // What a snapshot must be like to survive its checkpoint.
  ghost predicate Restorable(s: Snapshot) {
    BindingsEncodable(s.b) && ResultsGiven(s.checks, s.outputs) && ControlsGiven(s.controls, s.controls.checkpoint.version + 1)
  }

  function Bumped(s: Snapshot): Snapshot {
    s.(controls := s.controls.(checkpoint := s.controls.checkpoint.(version := s.controls.checkpoint.version + 1)))
  }

  // The payload decodes to a snapshot exactly when each section decodes to its part of it.
  lemma StateDecodesTo(t: Texts, m: map<string, Json>, target: Snapshot, version: nat, security: Json)
    requires m.Keys == STATE_FIELDS && target.controls.journal == [] && target.controls.checkpoint.version == version
    requires m["schema_version"] == JInt(STATE_SCHEMA_VERSION) && m["checkpoint_version"] == JInt(version)
    requires m["security"] == security && m["writes"] == JArray([])
    ensures StateFromJson(t, JObject(m), version, security) == Ok(target) <==>
      && BindingsFromJson(t, m["symbols"]) == Ok(target.b)
      && ListFromJson(m["checks"], CheckFromJson) == Ok(target.checks)
      && ListFromJson(m["outputs"], RowDecoder(t)) == Ok(target.outputs)
      && MeterFromJson(m["resources"]) == Ok(target.meter)
      && ProgressFromJson(m["execution"]) == Ok(Progress(target.completeness, target.invocations, target.depth, target.controls.currentNode))
      && TableFromJson(m["approvals"], ApprovalNamed) == Ok(target.controls.approvals)
      && IdempotencyFromJson(m["idempotency"]) == Ok((target.controls.keysByWriteNode, target.controls.payloadHashesByWriteNode))
      && MarkFromJson(m["checkpoint"]) == Ok(target.controls.checkpoint)
  {
    hide BindingsFromJson, ListFromJson, MeterFromJson, ProgressFromJson, TableFromJson, IdempotencyFromJson, MarkFromJson, RowDecoder, Framed;
  }

  lemma StateMembers(t: Texts, s: Snapshot, version: nat, security: Json)
    ensures var j := StateToJson(t, s, version, security);
      && j.JObject? && j.members.Keys == STATE_FIELDS
      && j.members["schema_version"] == JInt(STATE_SCHEMA_VERSION) && j.members["checkpoint_version"] == JInt(version)
      && j.members["security"] == security && j.members["writes"] == JArray([])
      && j.members["symbols"] == BindingsToJson(t, s.b)
      && j.members["checks"] == ListToJson(s.checks, CheckToJson)
      && j.members["outputs"] == ListToJson(s.outputs, RowEncoder(t))
      && j.members["resources"] == MeterToJson(s.meter)
      && j.members["execution"] == ProgressToJson(Progress(s.completeness, s.invocations, s.depth, s.controls.currentNode))
      && j.members["approvals"] == TableToJson(s.controls.approvals, ApprovalToJson)
      && j.members["idempotency"] == IdempotencyToJson(s.controls)
      && j.members["checkpoint"] == MarkToJson(s.controls.checkpoint.(version := version))
  {
    hide BindingsToJson, ListToJson, MeterToJson, ProgressToJson, TableToJson, IdempotencyToJson, MarkToJson, RowEncoder;
  }

  // A checkpointed state decodes to itself, one version on, exactly when it is restorable.
  lemma StateSurvivesExactly(t: Texts, s: Snapshot, security: Json)
    requires Readable(t) && Framed(s.b) && s.controls.journal == []
    ensures var version := s.controls.checkpoint.version + 1;
      StateFromJson(t, StateToJson(t, s, version, security), version, security) == Ok(Bumped(s)) <==> Restorable(s)
  {
    hide StateToJson, StateFromJson, BindingsEncodable, ResultsGiven, OptionalOk, NamesGiven, TextsGiven, MarkGiven, Readable;
    var version := s.controls.checkpoint.version + 1;
    var mark := s.controls.checkpoint.(version := version);
    var j := StateToJson(t, s, version, security);
    StateMembers(t, s, version, security);
    StateDecodesTo(t, j.members, Bumped(s), version, security);
    assert Bumped(s) == s.(controls := s.controls.(checkpoint := mark));
    assert Restorable(s) == (
      && BindingsEncodable(s.b) && ResultsGiven(s.checks, s.outputs) && OptionalOk(s.controls.currentNode)
      && NamesGiven(s.controls.approvals) && TextsGiven(s.controls.keysByWriteNode) && TextsGiven(s.controls.payloadHashesByWriteNode)
      && MarkGiven(mark));
    hide *;
    BindingsSurviveExactly(t, s.b);
    ResultsSurviveExactly(t, s.checks, s.outputs);
    MeterSurvives(s.meter);
    ProgressSurvivesExactly(Progress(s.completeness, s.invocations, s.depth, s.controls.currentNode));
    ApprovalsSurviveExactly(s.controls.approvals);
    IdempotencySurvivesExactly(s.controls);
    MarkSurvivesExactly(mark);
  }
}

// Capturing a context and restoring it into another, and what that does to a run.
module Suspension {
  import opened Wrappers
  import opened Core
  import opened Failures
  import opened Ir
  import opened Semantics
  import opened Effects
  import opened Runtime
  import opened Numerals
  import opened Json
  import opened Checkpoint

  // What a checkpoint is bound to: the execution, the skill and the runtime.
  datatype Identity = Identity(
    executionId: string,
    operationId: Option<string>,
    skillId: string,
    skillVersion: string,
    semanticHash: string,
    irVersion: string,
    runtimeVersion: string)

  datatype ExecutionCheckpoint = ExecutionCheckpoint(identity: Identity, version: nat, payload: Json, integrity: Integrity)

  // The digest of the checkpoint's own material; digests are taken to be collision-free.
  datatype Integrity = Integrity(identity: Identity, version: nat, payload: Json)

  predicate Intact(c: ExecutionCheckpoint) {
    c.integrity == Integrity(c.identity, c.version, c.payload)
  }

  function Capture(t: Texts, identity: Identity, security: Json, s: Snapshot): Result<ExecutionCheckpoint, CheckpointError> {
    if identity.operationId.None? then Err(NoOperationIdentity)
    else if s.controls.journal != [] then Err(NotSerializable)
    else
      var version := s.controls.checkpoint.version + 1;
      var payload := StateToJson(t, s, version, security);
      Ok(ExecutionCheckpoint(identity, version, payload, Integrity(identity, version, payload)))
  }

  function Restore(t: Texts, c: ExecutionCheckpoint, identity: Identity, security: Json): (r: Result<Snapshot, CheckpointError>)
    ensures r.Ok? ==> Framed(r.value.b)
  {
    if !Intact(c) then Err(IntegrityMismatch)
    else if c.identity != identity then Err(BindingMismatch)
    else StateFromJson(t, c.payload, c.version, security)
  }

  // The snapshot of a context between two statements of a run.
  function SnapshotOf(s: State, controls: Controls): Snapshot {
    Snapshot(s.b, s.w.checks, s.w.outputs, s.w.meter, s.w.completeness, s.w.invocations, s.depth, controls)
  }

  // The run state of a restored context; the trace belongs to the port.
  function Resumed(snap: Snapshot, trace: seq<ToolEvent>): State {
    State(snap.b, Ledger(snap.checks, snap.outputs, snap.meter, snap.completeness, snap.invocations, trace), snap.depth)
  }

  class CheckpointCoordinator {
    const texts: Texts
    const runtimeVersion: string

    constructor (texts: Texts, runtimeVersion: string)
      ensures this.texts == texts && this.runtimeVersion == runtimeVersion
    {
      this.texts, this.runtimeVersion := texts, runtimeVersion;
    }

    // Capturing changes one thing of the context: its checkpoint version.
    method CaptureContext(ctx: ExecutionContext, identity: Identity, security: Json) returns (r: Result<ExecutionCheckpoint, CheckpointError>)
      modifies ctx`controls
      ensures r == Capture(texts, identity.(runtimeVersion := runtimeVersion), security, old(SnapshotIn(ctx)))
      ensures SnapshotIn(ctx) == if r.Ok? then Bumped(old(SnapshotIn(ctx))) else old(SnapshotIn(ctx))
    {
      if identity.operationId.None? {
        return Err(NoOperationIdentity);
      }
      if ctx.controls.journal != [] {
        return Err(NotSerializable);
      }
      var next := ctx.controls.checkpoint.version + 1;
      var payload := StateToJson(texts, SnapshotIn(ctx), next, security);
      var bound := identity.(runtimeVersion := runtimeVersion);
      ctx.controls := ctx.controls.(checkpoint := ctx.controls.checkpoint.(version := next));
      return Ok(ExecutionCheckpoint(bound, next, payload, Integrity(bound, next, payload)));
    }

    // A fresh context whose guard spends from the very meter the restored counts are written to.
    method RestoreContext(c: ExecutionCheckpoint, identity: Identity, security: Json, limits: Limits)
      returns (r: Result<ExecutionContext, CheckpointError>)
      ensures match Restore(texts, c, identity.(runtimeVersion := runtimeVersion), security)
        case Err(e) => r == Err(e)
        case Ok(s) =>
          && r.Ok? && fresh(r.value) && fresh(r.value.resources)
          && r.value.Valid() && r.value.resourceGuard.limits == limits && SnapshotIn(r.value) == s
    {
      if !Intact(c) {
        return Err(IntegrityMismatch);
      }
      if c.identity != identity.(runtimeVersion := runtimeVersion) {
        return Err(BindingMismatch);
      }
      var decoded := StateFromJson(texts, c.payload, c.version, security);
      if decoded.Err? {
        return Err(decoded.error);
      }
      var ctx := new ExecutionContext(limits);
      RestoreState(ctx, decoded.value);
      return Ok(ctx);
    }

    method RestoreState(ctx: ExecutionContext, s: Snapshot)
      requires ctx.Valid() && Framed(s.b)
      modifies ctx, ctx.resources
      ensures ctx.Valid() && SnapshotIn(ctx) == s
    {
      ctx.inputValues, ctx.contextValues := s.b.inputs, s.b.contexts;
      ctx.frames, ctx.checkFrames := s.b.frames, s.b.checkFrames;
      ctx.checks, ctx.outputs := s.checks, s.outputs;
      ctx.resources.toolCalls := s.meter.toolCalls;
      ctx.resources.loopIterations := s.meter.loopIterations;
      ctx.resources.emittedRows := s.meter.emittedRows;
      ctx.resources.maxCollectionSeen := s.meter.maxCollectionSeen;
      ctx.dataCompleteness, ctx.invocationCounter, ctx.foreachDepth := s.completeness, s.invocations, s.depth;
      ctx.controls := s.controls;
    }
  }

  function SnapshotIn(ctx: ExecutionContext): Snapshot
    reads ctx, ctx.resources
  {
    SnapshotOf(ctx.RunState([]), ctx.controls)
  }

  // A restore under the identity and security context of the capture gives back what was captured,
  // one version on, exactly when the snapshot is restorable.
  lemma RestoreUndoesCapture(t: Texts, identity: Identity, security: Json, s: Snapshot)
    requires Readable(t) && Framed(s.b) && identity.operationId.Some? && s.controls.journal == []
    ensures Capture(t, identity, security, s).Ok?
    ensures Restore(t, Capture(t, identity, security, s).value, identity, security) == Ok(Bumped(s)) <==> Restorable(s)
  {
    hide StateToJson, StateFromJson, Restorable, Readable, Framed;
    StateSurvivesExactly(t, s, security);
  }

  // A checkpoint of another execution, skill, runtime or security context is refused, and so is one
  // whose content was changed without its digest.
  lemma ForeignCheckpointsAreRefused(t: Texts, c: ExecutionCheckpoint, identity: Identity, security: Json)
    ensures Restore(t, c, identity, security).Ok? ==>
      && c.integrity.identity == c.identity == identity && c.integrity.version == c.version && c.integrity.payload == c.payload
      && c.payload.JObject? && "security" in c.payload.members && c.payload.members["security"] == security
      && "writes" in c.payload.members && c.payload.members["writes"] == JArray([])
      && Restore(t, c, identity, security).value.controls.checkpoint.version == c.version > 0
  {
    hide BindingsFromJson, ListFromJson, MeterFromJson, ProgressFromJson, TableFromJson, IdempotencyFromJson;
    hide Framed, RowDecoder;
  }

  // Suspension is invisible: a run that stops after its first part, is captured, restored into a
  // fresh context and continued, is the uninterrupted run, in its bindings, checks, rows, meters,
  // completeness, invocation numbers and tool calls, whenever the state between is restorable.
  lemma SuspensionIsInvisible(t: Texts, identity: Identity, security: Json, env: Env, first: seq<Stmt>, second: seq<Stmt>, s: State, controls: Controls)
    requires Readable(t) && Framed(s.b) && identity.operationId.Some? && controls.journal == []
    requires ExecBlock(env, first, s).error.None?
    requires Restorable(SnapshotOf(ExecBlock(env, first, s).s, controls))
    ensures var mid := ExecBlock(env, first, s).s;
      var captured := Capture(t, identity, security, SnapshotOf(mid, controls));
      && captured.Ok?
      && Restore(t, captured.value, identity, security).Ok?
      && var restored := Restore(t, captured.value, identity, security).value;
        && Resumed(restored, mid.w.trace) == mid
        && ExecBlock(env, second, Resumed(restored, mid.w.trace)) == ExecBlock(env, first + second, s)
        && restored.controls == controls.(checkpoint := controls.checkpoint.(version := controls.checkpoint.version + 1))
  {
    var mid := ExecBlock(env, first, s).s;
    BlockSplits(env, first, second, s);
    hide ExecBlock, Capture, Restore, Restorable, Readable;
    RestoreUndoesCapture(t, identity, security, SnapshotOf(mid, controls));
  }

  // The type has no record with a field named like the type tag.
  predicate TagFree(ty: Type)
    decreases ty
  {
    match ty
    case TList(item) => TagFree(item)
    case TRecord(_, fields) => TYPE_TAG !in FieldNames(fields) && forall i | 0 <= i < |fields| :: TagFree(fields[i].ty)
    case _ => true
  }

  // Every decimal in the value has a finite text.
  ghost predicate FiniteDecimals(v: Value)
    decreases v
  {
    match v
    case VDecimal(d) => Fraction(d)
    case VMoney(d, _) => Fraction(d)
    case VList(items) => forall i | 0 <= i < |items| :: FiniteDecimals(items[i])
    case VRecord(fields) => forall k | k in fields :: FiniteDecimals(fields[k])
    case _ => true
  }

  // Well-typed data whose type does not use the tag as a field name is safe to checkpoint exactly
  // when its decimals have finite texts.
  lemma {:induction false} ConformingValuesAreEncodable(v: Value, ty: Type)
    requires Conforms(v, ty) && TagFree(ty)
    ensures Encodable(v) <==> FiniteDecimals(v)
    decreases ty
  {
    match ty
    case TList(item) =>
      forall i | 0 <= i < |v.items| ensures Encodable(v.items[i]) <==> FiniteDecimals(v.items[i]) {
        ConformingValuesAreEncodable(v.items[i], item);
      }
    case TRecord(_, fields) =>
      forall k | k in v.fields ensures Encodable(v.fields[k]) <==> FiniteDecimals(v.fields[k]) {
        var i :| 0 <= i < |fields| && fields[i].name == k;
        ConformingValuesAreEncodable(v.fields[k], fields[i].ty);
      }
    case _ =>
  }
}
