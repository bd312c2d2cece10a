// The vocabulary shared by the compiler, the interpreter and the protocols around them:
// types, values, data classifications, completeness tags and value envelopes.

module Wrappers {

  datatype Option<+T> = None | Some(value: T)

  datatype Result<+T, +E> = Ok(value: T) | Err(error: E) {
    predicate IsFailure() {
      Err?
    }

    function PropagateFailure<U>(): Result<U, E>
      requires Err?
    {
      Err(error)
    }

    function Extract(): T
      requires Ok?
    {
      value
    }
  }
}

module Core {
  import opened Wrappers

  // ---------- types ----------

  datatype FieldType = FieldType(name: string, ty: Type)

  datatype Type =
    | TBool
    | TInt
    | TYear
    | TString
    | TDecimal
    | TDate
    | TDateTime
    | TDomain(name: string)
    | TMoney(currency: string)
    | TList(item: Type)
    | TRecord(name: string, fields: seq<FieldType>)
    | TEnum(name: string, values: seq<string>)

  const CHECK_STATUS: Type := TEnum("CheckStatus", ["PASS", "FAIL", "UNKNOWN"])
  const CHECK_RESULT: Type := TRecord("CheckResult", [FieldType("status", CHECK_STATUS)])

  function FieldNames(fields: seq<FieldType>): set<string> {
    set i | 0 <= i < |fields| :: fields[i].name
  }

  // The first field of that name, as TypeRef.field scans them.
  function LookupField(fields: seq<FieldType>, name: string): (r: Option<Type>)
    ensures r.Some? <==> name in FieldNames(fields)
    ensures r.Some? ==> exists i :: 0 <= i < |fields| && fields[i] == FieldType(name, r.value)
  {
    if fields == [] then None
    else if fields[0].name == name then
      assert fields[0] == FieldType(name, fields[0].ty);
      Some(fields[0].ty)
    else
      var r := LookupField(fields[1..], name);
      assert r.Some? ==> exists i :: 0 <= i < |fields| && fields[i] == FieldType(name, r.value) by {
        if r.Some? {
          var i :| 0 <= i < |fields[1..]| && fields[1..][i] == FieldType(name, r.value);
          assert fields[i + 1] == FieldType(name, r.value);
        }
      }
      assert FieldNames(fields) == {fields[0].name} + FieldNames(fields[1..]) by {
        assert forall i | 0 < i < |fields| :: fields[i] == fields[1..][i - 1];
      }
      r
  }

  // ---------- values ----------

  datatype Value =
    | VNull
    | VBool(b: bool)
    | VInt(i: int)
    | VString(s: string)
    | VDecimal(d: real)
    | VDate(day: int)
    | VDateTime(aware: bool, instant: int)
    | VMoney(amount: real, currency: string)
    | VList(items: seq<Value>)
    | VRecord(fields: map<string, Value>)

  predicate Conforms(v: Value, t: Type)
    decreases t
  {
    match t
    case TBool => v.VBool?
    case TInt => v.VInt?
    case TYear => v.VInt?
    case TString => v.VString?
    case TDecimal => v.VDecimal?
    case TDate => v.VDate?
    case TDateTime => v.VDateTime?
    case TDomain(_) => v.VString?
    case TMoney(c) => v.VMoney? && v.currency == c
    case TList(item) => v.VList? && forall i | 0 <= i < |v.items| :: Conforms(v.items[i], item)
    case TRecord(_, fields) =>
      v.VRecord? && v.fields.Keys == FieldNames(fields) &&
      forall i | 0 <= i < |fields| :: Conforms(v.fields[fields[i].name], fields[i].ty)
    case TEnum(_, values) => v.VString? && v.s in values
  }

  // ---------- tags ----------

  datatype Presence = PRESENT | EMPTY

  datatype Completeness = COMPLETE | PARTIAL | UNKNOWN

  // How a binary operator combines the completeness of its operands.
  function Combine(left: Completeness, right: Completeness): Completeness {
    if left == UNKNOWN || right == UNKNOWN then UNKNOWN
    else if left == PARTIAL || right == PARTIAL then PARTIAL
    else COMPLETE
  }

  // How a run absorbs the completeness of one evaluated expression.
  function Observe(current: Completeness, seen: Completeness): Completeness {
    if seen == UNKNOWN then UNKNOWN
    else if seen == PARTIAL && current == COMPLETE then PARTIAL
    else current
  }

  predicate AtMost(low: Completeness, high: Completeness) {
    low == COMPLETE || high == UNKNOWN || low == high
  }

  datatype Classification = PUBLIC | INTERNAL | CONFIDENTIAL | RESTRICTED

  function Rank(c: Classification): nat {
    match c
    case PUBLIC => 0
    case INTERNAL => 1
    case CONFIDENTIAL => 2
    case RESTRICTED => 3
  }

  function Highest(a: Classification, b: Classification): Classification {
    if Rank(a) >= Rank(b) then a else b
  }

  predicate Allows(actual: Classification, maximum: Classification) {
    Rank(actual) <= Rank(maximum)
  }

  // ---------- envelopes ----------

  // A provenance reference: the invocation that produced a value, and the value's digest.
  datatype Provenance = Provenance(invocation: nat, digest: Value)

  datatype Envelope = Envelope(
    value: Value,
    ty: Type,
    presence: Presence,
    completeness: Completeness,
    cls: Classification,
    prov: seq<Provenance>)

  function CompleteEnvelope(v: Value, ty: Type, cls: Classification, prov: seq<Provenance>): Envelope {
    var empty := v == VNull || v == VList([]) || v == VRecord(map[]);
    Envelope(v, ty, if empty then EMPTY else PRESENT, COMPLETE, cls, prov)
  }

  // Keeps the first occurrence of every reference.
  function Dedup(refs: seq<Provenance>): seq<Provenance> {
    if refs == [] then []
    else
      var front := Dedup(refs[..|refs| - 1]);
      var last := refs[|refs| - 1];
      if last in front then front else front + [last]
  }

  // ---------- blank texts ----------

  predicate Space(c: char) {
    var n := c as int;
    || n == 0x20 || 9 <= n <= 13 || 0x1c <= n <= 0x1f || n == 0x85 || n == 0xa0 || n == 0x1680
    || 0x2000 <= n <= 0x200a || n == 0x2028 || n == 0x2029 || n == 0x202f || n == 0x205f || n == 0x3000
  }

  // Nothing but white space, as the code's `strip` has it.
  predicate Blank(s: string) {
    forall i | 0 <= i < |s| :: Space(s[i])
  }
}
