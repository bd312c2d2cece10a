// Structured data as the codecs exchange it, and the codecs for values and types.

module Json {
  import opened Wrappers
  import opened Core
  import opened Ir
  import opened Numerals

  // Provenance references stay opaque atoms, and symbol namespaces are keyed by symbol number.
  datatype Json =
    | JNull
    | JBool(b: bool)
    | JInt(i: int)
    | JText(s: string)
    | JRef(ref: Provenance)
    | JArray(items: seq<Json>)
    | JObject(members: map<string, Json>)
    | JSymbols(symbols: map<SymbolId, Json>)

  // How numerals and instants are written and read back.
  datatype Texts = Texts(
    ofDecimal: real -> string,
    toDecimal: string -> Option<real>,
    ofDate: int -> string,
    toDate: string -> Option<int>,
    ofInstant: (bool, int) -> string,
    toInstant: string -> Option<(bool, int)>)

  // Reading undoes writing, and decimal texts stand for decimal fractions only.
  ghost predicate Readable(t: Texts) {
    && (forall d: real | Fraction(d) :: t.toDecimal(t.ofDecimal(d)) == Some(d))
    && (forall s: string | t.toDecimal(s).Some? :: Fraction(t.toDecimal(s).value))
    && (forall d: int :: t.toDate(t.ofDate(d)) == Some(d))
    && (forall a: bool, i: int :: t.toInstant(t.ofInstant(a, i)) == Some((a, i)))
  }

  function InstantText(aware: bool, instant: int): string {
    (if aware then "Z" else "L") + IntText(instant)
  }

  function ReadInstant(s: string): Option<(bool, int)> {
    if s == "" || (s[0] != 'Z' && s[0] != 'L') then None
    else match ReadInt(s[1..]) case Some(i) => Some((s[0] == 'Z', i)) case None => None
  }

  lemma InstantReadsBack(aware: bool, instant: int)
    ensures ReadInstant(InstantText(aware, instant)) == Some((aware, instant))
  {
    IntReadsBack(instant);
    assert InstantText(aware, instant)[1..] == IntText(instant);
    hide IntText, ReadInt;
  }

  // There are such texts: fixed-point decimals, and instants by their number.
  lemma ReadableTextsExist()
    ensures exists t: Texts :: Readable(t)
  {
    hide DecimalText, ReadDecimal, IntText, ReadInt, InstantText, ReadInstant, Fraction;
    var t := Texts(d => DecimalText(d), ReadDecimal, IntText, ReadInt, InstantText, ReadInstant);
    forall d: real | Fraction(d) ensures t.toDecimal(t.ofDecimal(d)) == Some(d) {
      DecimalReadsBack(d);
    }
    forall s: string | t.toDecimal(s).Some? ensures Fraction(t.toDecimal(s).value) {
      ReadGivesFractions(s);
    }
    forall d: int ensures t.toDate(t.ofDate(d)) == Some(d) {
      IntReadsBack(d);
    }
    forall a: bool, i: int ensures t.toInstant(t.ofInstant(a, i)) == Some((a, i)) {
      InstantReadsBack(a, i);
    }
    assert Readable(t);
  }

  // ---------- values ----------

  const TYPE_TAG := "$type"

  function Tagged(tag: string, text: string): Json {
    JObject(map[TYPE_TAG := JText(tag), "value" := JText(text)])
  }

  function EncodeValue(t: Texts, v: Value): Json
    decreases v
  {
    match v
    case VNull => JNull
    case VBool(b) => JBool(b)
    case VInt(i) => JInt(i)
    case VString(s) => JText(s)
    case VDecimal(d) => Tagged("Decimal", t.ofDecimal(d))
    case VDate(day) => Tagged("Date", t.ofDate(day))
    case VDateTime(aware, instant) => Tagged("DateTime", t.ofInstant(aware, instant))
    case VMoney(amount, currency) => JObject(map[TYPE_TAG := JText("Money"), "amount" := JText(t.ofDecimal(amount)), "currency" := JText(currency)])
    case VList(items) => JArray(seq(|items|, i requires 0 <= i < |items| => EncodeValue(t, items[i])))
    case VRecord(fields) => JObject(map k | k in fields :: EncodeValue(t, fields[k]))
  }

  function TextAt(members: map<string, Json>, key: string): Option<string> {
    if key in members && members[key].JText? then Some(members[key].s) else None
  }

  function DecodeMoney(t: Texts, members: map<string, Json>): Option<Value> {
    match (TextAt(members, "amount"), TextAt(members, "currency"))
    case (Some(amount), Some(currency)) =>
      (match t.toDecimal(amount)
       case Some(d) => Some(VMoney(d, currency))
       case None => None)
    case _ => None
  }

  // The scalar a tag announces; the tag's other members are read without checking their number.
  function DecodeScalar(t: Texts, tag: string, members: map<string, Json>): Option<Value> {
    match TextAt(members, "value")
    case None => None
    case Some(text) =>
      if tag == "Decimal" then (match t.toDecimal(text) case Some(d) => Some(VDecimal(d)) case None => None)
      else if tag == "DateTime" then (match t.toInstant(text) case Some(i) => Some(VDateTime(i.0, i.1)) case None => None)
      else (match t.toDate(text) case Some(d) => Some(VDate(d)) case None => None)
  }

  const SCALAR_TAGS := {"Decimal", "DateTime", "Date"}

  function DecodeValue(t: Texts, j: Json): Option<Value>
    decreases j
  {
    match j
    case JNull => Some(VNull)
    case JBool(b) => Some(VBool(b))
    case JInt(i) => Some(VInt(i))
    case JText(s) => Some(VString(s))
    case JRef(_) => None
    case JSymbols(_) => None
    case JArray(items) =>
      if exists i :: 0 <= i < |items| && DecodeValue(t, items[i]).None? then None
      else Some(VList(seq(|items|, i requires 0 <= i < |items| => Get(DecodeValue(t, items[i])))))
    case JObject(members) =>
      var tag := TextAt(members, TYPE_TAG);
      if tag == Some("Money") then DecodeMoney(t, members)
      else if tag.Some? && tag.value in SCALAR_TAGS then DecodeScalar(t, tag.value, members)
      else if exists k :: k in members && DecodeValue(t, members[k]).None? then None
      else Some(VRecord(map k | k in members :: Get(DecodeValue(t, members[k]))))
  }

  // The value, or null where decoding has already failed.
  function Get(v: Option<Value>): Value {
    match v case Some(x) => x case None => VNull
  }

  // A record that carries a recognised type tag as its own field.
  predicate LooksTagged(fields: map<string, Value>) {
    TYPE_TAG in fields && fields[TYPE_TAG].VString? && (fields[TYPE_TAG].s == "Money" || fields[TYPE_TAG].s in SCALAR_TAGS)
  }

  // No record inside the value carries one, and every decimal in it has a finite text.
  ghost predicate Encodable(v: Value)
    decreases v
  {
    match v
    case VList(items) => forall i | 0 <= i < |items| :: Encodable(items[i])
    case VRecord(fields) => !LooksTagged(fields) && forall k | k in fields :: Encodable(fields[k])
    case VDecimal(d) => Fraction(d)
    case VMoney(d, _) => Fraction(d)
    case _ => true
  }

  // Decoding undoes encoding exactly on the values in which no record looks like a typed scalar and
  // every decimal has a finite text.
  lemma {:induction false} ValueSurvivesExactly(t: Texts, v: Value)
    requires Readable(t)
    ensures DecodeValue(t, EncodeValue(t, v)) == Some(v) <==> Encodable(v)
    decreases v
  {
    match v
    case VList(items) => ListSurvivesExactly(t, items, v);
    case VRecord(fields) => RecordSurvivesExactly(t, fields, v);
    case VDecimal(d) => assert Fraction(d) <==> t.toDecimal(t.ofDecimal(d)) == Some(d);
    case VMoney(d, _) => assert Fraction(d) <==> t.toDecimal(t.ofDecimal(d)) == Some(d);
    case VDate(d) => assert t.toDate(t.ofDate(d)) == Some(d);
    case VDateTime(a, i) => assert t.toInstant(t.ofInstant(a, i)) == Some((a, i));
    case _ =>
  }

  lemma {:induction false} ListSurvivesExactly(t: Texts, items: seq<Value>, v: Value)
    requires Readable(t) && v == VList(items)
    ensures DecodeValue(t, EncodeValue(t, v)) == Some(v) <==> Encodable(v)
    decreases v, 0
  {
    forall i | 0 <= i < |items| ensures DecodeValue(t, EncodeValue(t, items[i])) == Some(items[i]) <==> Encodable(items[i]) {
      ValueSurvivesExactly(t, items[i]);
    }
    var j := EncodeValue(t, v);
    assert j.JArray? && |j.items| == |items| && forall i | 0 <= i < |items| :: j.items[i] == EncodeValue(t, items[i]);
    assert Encodable(v) <==> forall i | 0 <= i < |items| :: Encodable(items[i]);
    hide EncodeValue, Readable, Encodable;
    ListDecodesTo(t, j.items, items);
  }

  lemma {:induction false} ListDecodesTo(t: Texts, js: seq<Json>, items: seq<Value>)
    requires |js| == |items|
    ensures DecodeValue(t, JArray(js)) == Some(VList(items)) <==> forall i | 0 <= i < |js| :: DecodeValue(t, js[i]) == Some(items[i])
  {
    var r := DecodeValue(t, JArray(js));
    if r == Some(VList(items)) {
      forall i | 0 <= i < |js| ensures DecodeValue(t, js[i]) == Some(items[i]) {
        assert DecodeValue(t, js[i]).Some?;
        assert r.value.items[i] == Get(DecodeValue(t, js[i]));
      }
    }
    if forall i | 0 <= i < |js| :: DecodeValue(t, js[i]) == Some(items[i]) {
      assert r.value.items == items;
    }
  }

  lemma {:induction false} RecordSurvivesExactly(t: Texts, fields: map<string, Value>, v: Value)
    requires Readable(t) && v == VRecord(fields)
    ensures DecodeValue(t, EncodeValue(t, v)) == Some(v) <==> Encodable(v)
    decreases v, 0
  {
    forall k | k in fields ensures DecodeValue(t, EncodeValue(t, fields[k])) == Some(fields[k]) <==> Encodable(fields[k]) {
      ValueSurvivesExactly(t, fields[k]);
    }
    var j := EncodeValue(t, v);
    assert j.JObject? && j.members.Keys == fields.Keys && forall k | k in fields :: j.members[k] == EncodeValue(t, fields[k]);
    assert Encodable(v) <==> !LooksTagged(fields) && forall k | k in fields :: Encodable(fields[k]);
    EncodedTag(t, fields, j.members);
    hide EncodeValue, Readable, Encodable;
    if LooksTagged(fields) {
      TaggedDecodesToScalar(t, j.members);
    } else {
      RecordDecodesTo(t, j.members, fields);
    }
  }

  lemma {:induction false} EncodedTag(t: Texts, fields: map<string, Value>, members: map<string, Json>)
    requires members.Keys == fields.Keys && forall k | k in fields :: members[k] == EncodeValue(t, fields[k])
    ensures LooksTagged(fields) <==> Announces(members)
  {
    assert TextAt(members, TYPE_TAG) == if TYPE_TAG in fields && fields[TYPE_TAG].VString? then Some(fields[TYPE_TAG].s) else None;
  }

  // A JSON object that decoding will read as a typed scalar.
  predicate Announces(members: map<string, Json>) {
    var tag := TextAt(members, TYPE_TAG);
    tag.Some? && (tag.value == "Money" || tag.value in SCALAR_TAGS)
  }

  lemma {:induction false} TaggedDecodesToScalar(t: Texts, members: map<string, Json>)
    requires Announces(members)
    ensures DecodeValue(t, JObject(members)).Some? ==> !DecodeValue(t, JObject(members)).value.VRecord?
  {
  }

  lemma {:induction false} RecordDecodesTo(t: Texts, members: map<string, Json>, fields: map<string, Value>)
    requires members.Keys == fields.Keys && !Announces(members)
    ensures DecodeValue(t, JObject(members)) == Some(VRecord(fields)) <==> forall k | k in fields :: DecodeValue(t, members[k]) == Some(fields[k])
  {
    var r := DecodeValue(t, JObject(members));
    if r == Some(VRecord(fields)) {
      forall k | k in fields ensures DecodeValue(t, members[k]) == Some(fields[k]) {
        assert DecodeValue(t, members[k]).Some?;
        assert r.value.fields[k] == Get(DecodeValue(t, members[k]));
      }
    }
    if forall k | k in fields :: DecodeValue(t, members[k]) == Some(fields[k]) {
      assert r.value.fields == fields;
    }
  }

  // ---------- types ----------

  function TypeToJson(ty: Type): Json
    decreases ty
  {
    match ty
    case TBool => Primitive("Bool")
    case TInt => Primitive("Int")
    case TYear => Primitive("Year")
    case TString => Primitive("String")
    case TDecimal => Primitive("Decimal")
    case TDate => Primitive("Date")
    case TDateTime => Primitive("DateTime")
    case TDomain(name) => JObject(map["kind" := JText("domain"), "name" := JText(name)])
    case TMoney(currency) => JObject(map["kind" := JText("money"), "currency" := JText(currency)])
    case TList(item) => JObject(map["kind" := JText("list"), "item" := TypeToJson(item)])
    case TRecord(name, fields) =>
      var base := map["kind" := JText("record"), "name" := JText(name)];
      JObject(if fields == [] then base else base["fields" := JArray(FieldsToJson(fields))])
    case TEnum(name, values) =>
      var base := map["kind" := JText("enum"), "name" := JText(name)];
      JObject(if values == [] then base else base["values" := JArray(TextsToJson(values))])
  }

  function Primitive(name: string): Json {
    JObject(map["kind" := JText("primitive"), "name" := JText(name)])
  }

  function FieldsToJson(fields: seq<FieldType>): (r: seq<Json>)
    ensures |r| == |fields|
    decreases fields
  {
    if fields == [] then []
    else [JObject(map["name" := JText(fields[0].name), "type" := TypeToJson(fields[0].ty)])] + FieldsToJson(fields[1..])
  }

  function PrimitiveNamed(name: string): Option<Type> {
    if name == "Bool" then Some(TBool)
    else if name == "Int" then Some(TInt)
    else if name == "Year" then Some(TYear)
    else if name == "String" then Some(TString)
    else if name == "Decimal" then Some(TDecimal)
    else if name == "Date" then Some(TDate)
    else if name == "DateTime" then Some(TDateTime)
    else None
  }

  function TypeFromJson(j: Json): Option<Type>
    decreases j
  {
    if !j.JObject? then None
    else
      var m := j.members;
      match TextAt(m, "kind")
      case None => None
      case Some(kind) =>
        var name := TextAt(m, "name");
        if kind == "primitive" then (if name.Some? then PrimitiveNamed(name.value) else None)
        else if kind == "domain" then (if name.Some? then Some(TDomain(name.value)) else None)
        else if kind == "money" then (match TextAt(m, "currency") case Some(c) => Some(TMoney(c)) case None => None)
        else if kind == "list" then
          (if "item" !in m then None else match TypeFromJson(m["item"]) case Some(item) => Some(TList(item)) case None => None)
        else if kind == "record" then
          (if name.None? then None
           else if "fields" !in m then Some(TRecord(name.value, []))
           else if !m["fields"].JArray? then None
           else match FieldsFromJson(m["fields"].items) case Some(fs) => Some(TRecord(name.value, fs)) case None => None)
        else if kind == "enum" then
          (if name.None? then None
           else if "values" !in m then Some(TEnum(name.value, []))
           else if !m["values"].JArray? then None
           else match TextItems(m["values"].items) case Some(vs) => Some(TEnum(name.value, vs)) case None => None)
        else None
  }

  function FieldsFromJson(items: seq<Json>): Option<seq<FieldType>>
    decreases items
  {
    if items == [] then Some([])
    else if !items[0].JObject? || "type" !in items[0].members then None
    else
      match (TextAt(items[0].members, "name"), TypeFromJson(items[0].members["type"]), FieldsFromJson(items[1..]))
      case (Some(name), Some(ty), Some(rest)) => Some([FieldType(name, ty)] + rest)
      case _ => None
  }

  function TextItems(items: seq<Json>): (r: Option<seq<string>>)
    ensures r.Some? ==> |r.value| == |items|
  {
    if items == [] then Some([])
    else if !items[0].JText? then None
    else match TextItems(items[1..]) case Some(rest) => Some([items[0].s] + rest) case None => None
  }

  function TextsToJson(values: seq<string>): seq<Json> {
    seq(|values|, i requires 0 <= i < |values| => JText(values[i]))
  }

  lemma {:induction false} TextItemsSurvive(values: seq<string>)
    ensures TextItems(TextsToJson(values)) == Some(values)
  {
    if values != [] {
      TextItemsSurvive(values[1..]);
      assert TextsToJson(values)[1..] == TextsToJson(values[1..]);
      assert values == [values[0]] + values[1..];
    }
  }

  // Every type tree survives its codec.
  lemma {:induction false} TypeSurvives(ty: Type)
    ensures TypeFromJson(TypeToJson(ty)) == Some(ty)
    decreases ty
  {
    match ty
    case TList(item) => TypeSurvives(item);
    case TRecord(_, fields) =>
      if fields != [] {
        FieldsSurvive(fields);
      }
    case TEnum(_, values) =>
      if values != [] {
        TextItemsSurvive(values);
        assert TypeToJson(ty).members["values"].items == TextsToJson(values);
      }
    case _ =>
  }

  lemma {:induction false} FieldsSurvive(fields: seq<FieldType>)
    ensures FieldsFromJson(FieldsToJson(fields)) == Some(fields)
    decreases fields
  {
    if fields != [] {
      TypeSurvives(fields[0].ty);
      FieldsSurvive(fields[1..]);
      assert FieldsToJson(fields)[1..] == FieldsToJson(fields[1..]);
      assert fields == [FieldType(fields[0].name, fields[0].ty)] + fields[1..];
    }
  }
}
