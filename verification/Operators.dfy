// Operators and built-in functions on values, and the static rules that type them.

module Failures {

  datatype Limit = ToolCalls | LoopIterations | EmittedRows | CollectionSize | ForeachMax | ForeachNesting

  datatype ToolFault =
    | ArgumentMismatch
    | ArgumentTypeMismatch
    | ResultIdentity
    | Malformed
    | OutputContract
    | ResultHash
    | RequiredResultMissing
    | RaisedByTool(code: string)

  // Why a run stopped.  RawError is a plain arithmetic, lookup, type or value error that no
  // expression has yet reported as its own EvaluationError.
  datatype Failure =
    | LimitExceeded(limit: Limit)
    | TypeMismatch
    | EvaluationError
    | RawError
    | BuiltinFailure
    | MoneyFailure
    | EmitSchema
    | EmitType
    | EmitValue
    | EmitClassification
    | CheckNotBool
    | UnregisteredTool
    | Tool(fault: ToolFault)
    | PortCrashed
    | Unauthorized
    | ImmutableBinding
    | UnknownSymbol
}

module Operators {
  import opened Wrappers
  import opened Core
  import opened Failures

  datatype BinOp = ADD | SUB | MUL | DIV | LT | LE | GT | GE | EQ | NE

  datatype Builtin = Count | Max | Min | Sum

  // ---------- static rules ----------

  // The type of `source.field`, and whether it projects a list.
  function FieldResult(source: Type, field: string): Option<(Type, bool)> {
    match source
    case TList(TRecord(_, fields)) =>
      (match LookupField(fields, field) case Some(t) => Some((TList(t), true)) case None => None)
    case TRecord(_, fields) =>
      (match LookupField(fields, field) case Some(t) => Some((t, false)) case None => None)
    case _ => None
  }

  predicate IsComparison(op: BinOp) {
    op.LT? || op.LE? || op.GT? || op.GE?
  }

  function BinaryResult(op: BinOp, left: Type, right: Type): Option<Type> {
    if left != right then None
    else if op.EQ? || op.NE? then Some(TBool)
    else if IsComparison(op) then
      if left.TInt? || left.TDecimal? || left.TMoney? then Some(TBool) else None
    else if left.TInt? then Some(if op.DIV? then TDecimal else TInt)
    else if left.TDecimal? then Some(TDecimal)
    else if left.TMoney? && (op.ADD? || op.SUB?) then Some(left)
    else None
  }

  function BuiltinNamed(name: string): Option<Builtin> {
    if name == "count" then Some(Count)
    else if name == "max" then Some(Max)
    else if name == "min" then Some(Min)
    else if name == "sum" then Some(Sum)
    else None
  }

  function BuiltinResult(f: Builtin, arguments: seq<Type>): Option<Type> {
    if |arguments| != 1 || !arguments[0].TList? then None
    else
      var item := arguments[0].item;
      if f.Sum? && !item.TInt? && !item.TDecimal? && !item.TMoney? then None
      else Some(if f.Count? then TInt else item)
  }

  // ---------- evaluation ----------

  predicate Numeric(v: Value) {
    v.VInt? || v.VDecimal?
  }

  function AsReal(v: Value): real
    requires Numeric(v)
  {
    if v.VInt? then v.i as real else v.d
  }

  // The failures operators and built-ins raise by themselves.
  predicate ValueFault(f: Failure) {
    f.RawError? || f.BuiltinFailure? || f.MoneyFailure?
  }

  function Arithmetic(op: BinOp, l: Value, r: Value, ty: Type): Result<Value, Failure>
    requires op.ADD? || op.SUB? || op.MUL? || op.DIV?
  {
    if op.DIV? then
      if ty.TDecimal? && Numeric(l) && Numeric(r) && AsReal(r) != 0.0
      then Ok(VDecimal(AsReal(l) / AsReal(r)))
      else Err(RawError)
    else if l.VInt? && r.VInt? then
      Ok(VInt(if op.ADD? then l.i + r.i else if op.SUB? then l.i - r.i else l.i * r.i))
    else if l.VDecimal? && r.VDecimal? then
      Ok(VDecimal(if op.ADD? then l.d + r.d else if op.SUB? then l.d - r.d else l.d * r.d))
    else if l.VMoney? && r.VMoney? && !op.MUL? then
      if l.currency != r.currency then Err(MoneyFailure)
      else Ok(VMoney(if op.ADD? then l.amount + r.amount else l.amount - r.amount, l.currency))
    else Err(RawError)
  }

  function StringLess(a: string, b: string): bool {
    if b == "" then false
    else if a == "" then true
    else if a[0] != b[0] then a[0] < b[0]
    else StringLess(a[1..], b[1..])
  }

  // The host language's `<` on values of one kind; lists compare at their first difference.
  function Less(a: Value, b: Value): (r: Result<bool, Failure>)
    ensures r.Err? ==> ValueFault(r.error)
    decreases a, 1
  {
    match (a, b)
    case (VBool(x), VBool(y)) => Ok(!x && y)
    case (VInt(x), VInt(y)) => Ok(x < y)
    case (VString(x), VString(y)) => Ok(StringLess(x, y))
    case (VDecimal(x), VDecimal(y)) => Ok(x < y)
    case (VDate(x), VDate(y)) => Ok(x < y)
    case (VDateTime(p, x), VDateTime(q, y)) => if p == q then Ok(x < y) else Err(RawError)
    case (VMoney(x, c), VMoney(y, d)) => if c == d then Ok(x < y) else Err(MoneyFailure)
    case (VList(xs), VList(ys)) => ListLess(xs, ys)
    case _ => Err(RawError)
  }

  function ListLess(xs: seq<Value>, ys: seq<Value>): (r: Result<bool, Failure>)
    ensures r.Err? ==> ValueFault(r.error)
    decreases xs, 0
  {
    if ys == [] then Ok(false)
    else if xs == [] then Ok(true)
    else if xs[0] == ys[0] then ListLess(xs[1..], ys[1..])
    else Less(xs[0], ys[0])
  }

  function Compare(op: BinOp, l: Value, r: Value): Result<Value, Failure>
    requires IsComparison(op)
  {
    if !((l.VInt? && r.VInt?) || (l.VDecimal? && r.VDecimal?) || (l.VMoney? && r.VMoney?)) then Err(RawError)
    else
      var lr :- Less(l, r);
      var rl :- Less(r, l);
      Ok(VBool(match op case LT => lr case GT => rl case LE => !rl case GE => !lr))
  }

  function ApplyBinary(op: BinOp, l: Value, r: Value, ty: Type): (result: Result<Value, Failure>)
    ensures result.Err? ==> ValueFault(result.error)
  {
    if op.EQ? then Ok(VBool(l == r))
    else if op.NE? then Ok(VBool(l != r))
    else if IsComparison(op) then Compare(op, l, r)
    else Arithmetic(op, l, r, ty)
  }

  // What iterating over a value yields, when it can be iterated.
  function Elements(v: Value): Option<seq<Value>> {
    match v
    case VList(items) => Some(items)
    case VString(s) => Some(seq(|s|, i requires 0 <= i < |s| => VString([s[i]])))
    case _ => None
  }

  function Extremum(f: Builtin, best: Value, rest: seq<Value>): (r: Result<Value, Failure>)
    ensures r.Err? ==> ValueFault(r.error)
    requires f.Min? || f.Max?
    decreases |rest|
  {
    if rest == [] then Ok(best)
    else
      var better :- if f.Min? then Less(rest[0], best) else Less(best, rest[0]);
      Extremum(f, if better then rest[0] else best, rest[1..])
  }

  function AddAll(total: Value, items: seq<Value>): (r: Result<Value, Failure>)
    ensures r.Err? ==> ValueFault(r.error)
    decreases |items|
  {
    if items == [] then Ok(total)
    else
      var next :- Arithmetic(ADD, total, items[0], TInt);
      AddAll(next, items[1..])
  }

  function SumValues(items: seq<Value>, ty: Type): Result<Value, Failure> {
    if ty.TMoney? then
      if exists i :: 0 <= i < |items| && !items[i].VMoney? then Err(MoneyFailure)
      else AddAll(VMoney(0.0, ty.currency), items)
    else if ty.TDecimal? then AddAll(VDecimal(0.0), items)
    else AddAll(VInt(0), items)
  }

  // BuiltinRegistry.evaluate, with a type error inside it reported as a failed built-in.
  function EvaluateBuiltin(f: Builtin, values: seq<Value>, types: seq<Type>, expected: Type): (result: Result<Value, Failure>)
    requires |values| == |types|
    ensures result.Err? ==> ValueFault(result.error)
  {
    if BuiltinResult(f, types) != Some(expected) then Err(BuiltinFailure)
    else match Elements(values[0])
      case None => Err(if f.Sum? && expected.TMoney? then RawError else BuiltinFailure)
      case Some(items) =>
        var r := match f
          case Count => Ok(VInt(|items|))
          case Sum => SumValues(items, expected)
          case Min => if items == [] then Err(RawError) else Extremum(f, items[0], items[1..])
          case Max => if items == [] then Err(RawError) else Extremum(f, items[0], items[1..]);
        if r == Err(RawError) then Err(BuiltinFailure) else r
  }

  // ---------- what the static rules guarantee ----------

  // Types whose values can always be ordered.
  predicate Orderable(t: Type) {
    match t
    case TDateTime => false
    case TRecord(_, _) => false
    case TList(item) => Orderable(item)
    case _ => true
  }

  lemma {:induction false} FieldLookupConforms(fields: seq<FieldType>, name: string, v: Value, record: string)
    requires Conforms(v, TRecord(record, fields)) && name in FieldNames(fields)
    ensures LookupField(fields, name).Some?
    ensures name in v.fields && Conforms(v.fields[name], LookupField(fields, name).value)
  {
  }

  // Two values of one static type never disagree on currency, and compare whenever the type is orderable.
  lemma {:induction false} LessOnOneType(a: Value, b: Value, t: Type)
    requires Conforms(a, t) && Conforms(b, t)
    ensures Less(a, b) != Err(MoneyFailure)
    ensures Less(a, b).Ok? || Less(a, b) == Err(RawError)
    ensures Orderable(t) ==> Less(a, b).Ok?
    decreases t, 0, 0
  {
    if t.TList? {
      ListLessOnOneType(a.items, b.items, t);
    }
  }

  lemma {:induction false} ListLessOnOneType(xs: seq<Value>, ys: seq<Value>, t: Type)
    requires t.TList? && Conforms(VList(xs), t) && Conforms(VList(ys), t)
    ensures ListLess(xs, ys).Ok? || ListLess(xs, ys) == Err(RawError)
    ensures Orderable(t) ==> ListLess(xs, ys).Ok?
    decreases t.item, 1, |xs|
  {
    if xs != [] && ys != [] {
      if xs[0] == ys[0] {
        ListLessOnOneType(xs[1..], ys[1..], t);
      } else {
        LessOnOneType(xs[0], ys[0], t.item);
      }
    }
  }

  // On operands of the static type, a well-typed operator yields a value of the result type;
  // dividing by zero is the one exception.
  lemma {:induction false} BinaryIsSafe(op: BinOp, l: Value, r: Value, t: Type)
    requires BinaryResult(op, t, t).Some? && Conforms(l, t) && Conforms(r, t)
    ensures var result := ApplyBinary(op, l, r, BinaryResult(op, t, t).value);
      if op.DIV? && AsReal(r) == 0.0 then result == Err(RawError)
      else result.Ok? && Conforms(result.value, BinaryResult(op, t, t).value)
  {
    if IsComparison(op) {
      LessOnOneType(l, r, t);
      LessOnOneType(r, l, t);
    }
  }

  lemma {:induction false} ExtremumOnOneType(f: Builtin, best: Value, rest: seq<Value>, t: Type)
    requires f.Min? || f.Max?
    requires Conforms(best, t) && Conforms(VList(rest), TList(t))
    ensures var r := Extremum(f, best, rest);
      (r.Ok? && Conforms(r.value, t) && (r.value == best || r.value in rest)) || (r == Err(RawError) && !Orderable(t))
    decreases |rest|
  {
    if rest != [] {
      LessOnOneType(rest[0], best, t);
      LessOnOneType(best, rest[0], t);
      var better := if f.Min? then Less(rest[0], best) else Less(best, rest[0]);
      if better.Ok? {
        ExtremumOnOneType(f, if better.value then rest[0] else best, rest[1..], t);
      }
    }
  }

  lemma {:induction false} AddAllOnOneType(total: Value, items: seq<Value>, t: Type)
    requires t.TInt? || t.TDecimal? || t.TMoney?
    requires Conforms(total, t) && Conforms(VList(items), TList(t))
    ensures AddAll(total, items).Ok? && Conforms(AddAll(total, items).value, t)
    decreases |items|
  {
    if items != [] {
      AddAllOnOneType(Arithmetic(ADD, total, items[0], TInt).value, items[1..], t);
    }
  }

  // A well-typed built-in yields a value of its result type, or fails as an empty or
  // incomparable minimum or maximum.
  lemma {:induction false} BuiltinIsSafe(f: Builtin, v: Value, t: Type)
    requires BuiltinResult(f, [t]).Some? && Conforms(v, t)
    ensures var expected := BuiltinResult(f, [t]).value; var r := EvaluateBuiltin(f, [v], [t], expected);
      || (r.Ok? && Conforms(r.value, expected))
      || (r == Err(BuiltinFailure) && (f.Min? || f.Max?) && (v.items == [] || !Orderable(t.item)))
  {
    if f.Min? || f.Max? {
      if v.items != [] {
        assert Conforms(VList(v.items[1..]), t);
        ExtremumOnOneType(f, v.items[0], v.items[1..], t.item);
      }
    } else if f.Sum? {
      AddAllOnOneType(if t.item.TMoney? then VMoney(0.0, t.item.currency) else if t.item.TDecimal? then VDecimal(0.0) else VInt(0), v.items, t.item);
    }
  }
}
