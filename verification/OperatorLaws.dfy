// What operators and built-ins compute, told apart from how: arithmetic is that of the real numbers
// the values stand for, comparison is a strict total order, minimum and maximum are its ends.

module OperatorLaws {
  import opened Wrappers
  import opened Core
  import opened Failures
  import opened Operators
  import opened Ir
  import opened Semantics
  import opened Effects
  import opened Symbols
  import opened Ast
  import opened Compiler
  import opened Typing
  import opened LoweringTyped

  // ---------- numbers ----------

  predicate IsNumber(v: Value) {
    v.VInt? || v.VDecimal? || v.VMoney?
  }

  predicate NumberType(t: Type) {
    t.TInt? || t.TDecimal? || t.TMoney?
  }

  // The number a value stands for, whatever its unit.
  function Amount(v: Value): real
    requires IsNumber(v)
  {
    match v
    case VInt(i) => i as real
    case VDecimal(d) => d
    case VMoney(amount, _) => amount
  }

  // The value is of that number type, or a truth value.
  predicate Has(v: Value, t: Type) {
    match t
    case TInt => v.VInt?
    case TDecimal => v.VDecimal?
    case TMoney(c) => v.VMoney? && v.currency == c
    case TBool => v.VBool?
    case _ => false
  }

  // A value of a type is determined by its number.
  lemma AmountDetermines(a: Value, b: Value, t: Type)
    requires NumberType(t) && Has(a, t) && Has(b, t) && Amount(a) == Amount(b)
    ensures a == b
  {
  }

  // What an operator must yield on two numbers: the operation on what they stand for. Only a quotient by
  // zero has no value.
  predicate Computes(op: BinOp, l: Value, r: Value, v: Value)
    requires IsNumber(l) && IsNumber(r)
  {
    match op
    case ADD => IsNumber(v) && Amount(v) == Amount(l) + Amount(r)
    case SUB => IsNumber(v) && Amount(v) == Amount(l) - Amount(r)
    case MUL => IsNumber(v) && Amount(v) == Amount(l) * Amount(r)
    case DIV => IsNumber(v) && Amount(r) != 0.0 && Amount(v) == Amount(l) / Amount(r)
    case LT => v == VBool(Amount(l) < Amount(r))
    case LE => v == VBool(Amount(l) <= Amount(r))
    case GT => v == VBool(Amount(l) > Amount(r))
    case GE => v == VBool(Amount(l) >= Amount(r))
    case EQ => v == VBool(l == r)
    case NE => v == VBool(l != r)
  }

  lemma {:induction false} ProductOfInts(a: int, b: int)
    ensures (a * b) as real == (a as real) * (b as real)
    decreases if a < 0 then 1 - a else a
  {
    if a > 0 {
      ProductOfInts(a - 1, b);
      assert a * b == (a - 1) * b + b;
      assert (a as real) * (b as real) == ((a - 1) as real) * (b as real) + b as real;
    } else if a < 0 {
      ProductOfInts(a + 1, b);
      assert a * b == (a + 1) * b - b;
      assert (a as real) * (b as real) == ((a + 1) as real) * (b as real) - b as real;
    }
  }

  // Operators on numbers of one type are the operations of real arithmetic.
  lemma {:induction false} OperatorsCompute(op: BinOp, l: Value, r: Value, t: Type)
    requires NumberType(t) && BinaryResult(op, t, t).Some? && Has(l, t) && Has(r, t)
    ensures var result := ApplyBinary(op, l, r, BinaryResult(op, t, t).value);
      if op.DIV? && Amount(r) == 0.0 then result == Err(RawError)
      else result.Ok? && Has(result.value, BinaryResult(op, t, t).value) && Computes(op, l, r, result.value)
  {
    if IsComparison(op) {
      ComparisonsCompute(op, l, r, t);
    } else if !op.EQ? && !op.NE? {
      ArithmeticComputes(op, l, r, t);
    }
    hide Arithmetic, Compare;
  }

  lemma ComparisonsCompute(op: BinOp, l: Value, r: Value, t: Type)
    requires NumberType(t) && IsComparison(op) && Has(l, t) && Has(r, t)
    ensures Compare(op, l, r).Ok? && Computes(op, l, r, Compare(op, l, r).value)
  {
  }

  lemma ArithmeticComputes(op: BinOp, l: Value, r: Value, t: Type)
    requires NumberType(t) && (op.ADD? || op.SUB? || op.MUL? || op.DIV?) && BinaryResult(op, t, t).Some? && Has(l, t) && Has(r, t)
    ensures var result := Arithmetic(op, l, r, BinaryResult(op, t, t).value);
      if op.DIV? && Amount(r) == 0.0 then result == Err(RawError)
      else result.Ok? && Has(result.value, BinaryResult(op, t, t).value) && Computes(op, l, r, result.value)
  {
    if l.VInt? && op.MUL? {
      ProductOfInts(l.i, r.i);
    }
  }

  // Values of different currencies are never added, subtracted or compared.
  lemma CurrenciesDoNotMix(op: BinOp, l: Value, r: Value, t: Type)
    requires l.VMoney? && r.VMoney? && l.currency != r.currency && (op.ADD? || op.SUB? || IsComparison(op))
    ensures ApplyBinary(op, l, r, t) == Err(MoneyFailure)
  {
  }

  // ---------- laws ----------

  function Zero(t: Type): Value
    requires NumberType(t)
  {
    match t case TInt => VInt(0) case TDecimal => VDecimal(0.0) case TMoney(c) => VMoney(0.0, c)
  }

  function One(t: Type): Value
    requires t.TInt? || t.TDecimal?
  {
    if t.TInt? then VInt(1) else VDecimal(1.0)
  }

  // Money is not multiplied or divided; everything else is defined on numbers of one type.
  predicate Defined(op: BinOp, t: Type) {
    NumberType(t) && (t.TMoney? ==> !op.MUL? && !op.DIV?)
  }

  function ResultType(op: BinOp, t: Type): Type {
    if op.DIV? then TDecimal else if op.ADD? || op.SUB? || op.MUL? then t else TBool
  }

  // On number types the compiler's rule says just that.
  lemma NumbersAreTyped(op: BinOp, t: Type)
    requires NumberType(t)
    ensures BinaryResult(op, t, t) == if Defined(op, t) then Some(ResultType(op, t)) else None
  {
  }

  // The value of a well-typed operation other than a quotient by zero.
  function Done(op: BinOp, l: Value, r: Value, t: Type): (v: Value)
    requires Defined(op, t) && Has(l, t) && Has(r, t) && !(op.DIV? && Amount(r) == 0.0)
    ensures Has(v, ResultType(op, t)) && Computes(op, l, r, v)
  {
    NumbersAreTyped(op, t);
    OperatorsCompute(op, l, r, t);
    ApplyBinary(op, l, r, ResultType(op, t)).value
  }

  // Addition is a commutative group, and subtraction its inverse.
  lemma ZeroIsNeutral(t: Type, x: Value)
    requires NumberType(t) && Has(x, t)
    ensures Done(ADD, x, Zero(t), t) == x && Done(ADD, Zero(t), x, t) == x && Done(SUB, x, x, t) == Zero(t)
  {
    hide ApplyBinary, Done;
    AmountDetermines(Done(ADD, x, Zero(t), t), x, t);
    AmountDetermines(Done(ADD, Zero(t), x, t), x, t);
    AmountDetermines(Done(SUB, x, x, t), Zero(t), t);
  }

  lemma AdditionCommutes(t: Type, x: Value, y: Value)
    requires NumberType(t) && Has(x, t) && Has(y, t)
    ensures Done(ADD, x, y, t) == Done(ADD, y, x, t)
  {
    hide ApplyBinary, Done;
    AmountDetermines(Done(ADD, x, y, t), Done(ADD, y, x, t), t);
  }

  lemma AdditionAssociates(t: Type, x: Value, y: Value, z: Value)
    requires NumberType(t) && Has(x, t) && Has(y, t) && Has(z, t)
    ensures Done(ADD, Done(ADD, x, y, t), z, t) == Done(ADD, x, Done(ADD, y, z, t), t)
  {
    hide ApplyBinary, Done;
    AmountDetermines(Done(ADD, Done(ADD, x, y, t), z, t), Done(ADD, x, Done(ADD, y, z, t), t), t);
  }

  lemma SubtractionUndoes(t: Type, x: Value, y: Value)
    requires NumberType(t) && Has(x, t) && Has(y, t)
    ensures Done(SUB, Done(ADD, x, y, t), y, t) == x && Done(ADD, Done(SUB, x, y, t), y, t) == x
  {
    hide ApplyBinary, Done;
    AmountDetermines(Done(SUB, Done(ADD, x, y, t), y, t), x, t);
    AmountDetermines(Done(ADD, Done(SUB, x, y, t), y, t), x, t);
  }

  // Multiplication commutes, has a unit and distributes over addition; division undoes it.
  lemma OneIsNeutral(t: Type, x: Value)
    requires (t.TInt? || t.TDecimal?) && Has(x, t)
    ensures Done(MUL, x, One(t), t) == x && Done(MUL, One(t), x, t) == x
  {
    hide ApplyBinary, Done;
    AmountDetermines(Done(MUL, x, One(t), t), x, t);
    AmountDetermines(Done(MUL, One(t), x, t), x, t);
  }

  lemma MultiplicationCommutes(t: Type, x: Value, y: Value)
    requires (t.TInt? || t.TDecimal?) && Has(x, t) && Has(y, t)
    ensures Done(MUL, x, y, t) == Done(MUL, y, x, t)
  {
    hide ApplyBinary, Done;
    AmountDetermines(Done(MUL, x, y, t), Done(MUL, y, x, t), t);
  }

  lemma MultiplicationDistributes(t: Type, x: Value, y: Value, z: Value)
    requires (t.TInt? || t.TDecimal?) && Has(x, t) && Has(y, t) && Has(z, t)
    ensures Done(MUL, x, Done(ADD, y, z, t), t) == Done(ADD, Done(MUL, x, y, t), Done(MUL, x, z, t), t)
  {
    hide Done, Computes;
    if t.TInt? {
      IntsDistribute(x.i, y.i, z.i);
    } else {
      DecimalsDistribute(x.d, y.d, z.d);
    }
  }

  lemma IntsDistribute(a: int, b: int, c: int)
    ensures Done(MUL, VInt(a), Done(ADD, VInt(b), VInt(c), TInt), TInt)
      == Done(ADD, Done(MUL, VInt(a), VInt(b), TInt), Done(MUL, VInt(a), VInt(c), TInt), TInt)
  {
    hide Done, Computes;
    var sum, first, second := b + c, a * b, a * c;
    assert a * sum == first + second by {
      DistributesInt(a, b, c);
    }
    OnInts(b, c);
    OnInts(a, b);
    OnInts(a, c);
    OnInts(a, sum);
    OnInts(first, second);
  }

  lemma DecimalsDistribute(a: real, b: real, c: real)
    ensures Done(MUL, VDecimal(a), Done(ADD, VDecimal(b), VDecimal(c), TDecimal), TDecimal)
      == Done(ADD, Done(MUL, VDecimal(a), VDecimal(b), TDecimal), Done(MUL, VDecimal(a), VDecimal(c), TDecimal), TDecimal)
  {
    hide Done, Computes;
    var sum, first, second := b + c, a * b, a * c;
    assert a * sum == first + second by {
      Distributes(a, b, c);
    }
    OnDecimals(b, c);
    OnDecimals(a, b);
    OnDecimals(a, c);
    OnDecimals(a, sum);
    OnDecimals(first, second);
  }

  lemma OnInts(a: int, b: int)
    ensures Done(ADD, VInt(a), VInt(b), TInt) == VInt(a + b) && Done(MUL, VInt(a), VInt(b), TInt) == VInt(a * b)
  {
    hide Computes;
  }

  lemma OnDecimals(a: real, b: real)
    ensures Done(ADD, VDecimal(a), VDecimal(b), TDecimal) == VDecimal(a + b) && Done(MUL, VDecimal(a), VDecimal(b), TDecimal) == VDecimal(a * b)
  {
    hide Computes;
  }

  lemma DivisionUndoes(t: Type, x: Value, y: Value)
    requires (t.TInt? || t.TDecimal?) && Has(x, t) && Has(y, t) && Amount(y) != 0.0
    ensures Done(DIV, Done(MUL, x, y, t), y, t) == VDecimal(Amount(x))
    ensures Done(MUL, Done(DIV, x, y, t), VDecimal(Amount(y)), TDecimal) == VDecimal(Amount(x))
  {
    hide Done, Computes;
    var quotient, n := Amount(x) / Amount(y), Amount(y);
    assert quotient * n == Amount(x) by {
      Quotients(Amount(x), n);
    }
    OnQuotients(x, y, t);
    OnDecimals(quotient, n);
    if t.TInt? {
      IntProductDivides(x.i, y.i);
    } else {
      DecimalProductDivides(x.d, y.d);
    }
  }

  lemma IntProductDivides(a: int, b: int)
    requires b as real != 0.0
    ensures Done(DIV, Done(MUL, VInt(a), VInt(b), TInt), VInt(b), TInt) == VDecimal(a as real)
  {
    hide Done, Computes;
    var product := a * b;
    assert product as real / b as real == a as real by {
      ProductOfInts(a, b);
      Quotients(a as real, b as real);
    }
    OnInts(a, b);
    OnQuotients(VInt(product), VInt(b), TInt);
  }

  lemma DecimalProductDivides(a: real, b: real)
    requires b != 0.0
    ensures Done(DIV, Done(MUL, VDecimal(a), VDecimal(b), TDecimal), VDecimal(b), TDecimal) == VDecimal(a)
  {
    hide Done, Computes;
    var product := a * b;
    assert product / b == a by {
      Quotients(a, b);
    }
    OnDecimals(a, b);
    OnQuotients(VDecimal(product), VDecimal(b), TDecimal);
  }

  lemma OnQuotients(l: Value, r: Value, t: Type)
    requires (t.TInt? || t.TDecimal?) && Has(l, t) && Has(r, t) && Amount(r) != 0.0
    ensures Done(DIV, l, r, t) == VDecimal(Amount(l) / Amount(r))
  {
    hide Computes;
  }

  lemma DistributesInt(a: int, b: int, c: int)
    ensures a * (b + c) == a * b + a * c
  {
  }

  lemma Distributes(a: real, b: real, c: real)
    ensures a * (b + c) == a * b + a * c
  {
  }

  lemma Quotients(a: real, b: real)
    requires b != 0.0
    ensures a * b / b == a && a / b * b == a
  {
  }

  predicate Holds(op: BinOp, x: Value, y: Value, t: Type)
    requires NumberType(t) && ResultType(op, t) == TBool && Has(x, t) && Has(y, t)
  {
    Done(op, x, y, t) == VBool(true)
  }

  // Comparison is a strict total order that agrees with subtraction.
  lemma LessIsAnOrder(t: Type, x: Value, y: Value, z: Value)
    requires NumberType(t) && Has(x, t) && Has(y, t) && Has(z, t)
    ensures !Holds(LT, x, x, t)
    ensures Holds(LT, x, y, t) && Holds(LT, y, z, t) ==> Holds(LT, x, z, t)
    ensures Holds(LT, x, y, t) || Holds(LT, y, x, t) || x == y
    ensures Holds(LT, x, y, t) <==> Amount(Done(SUB, y, x, t)) > 0.0
  {
    hide ApplyBinary, Done;
    if Amount(x) == Amount(y) {
      AmountDetermines(x, y, t);
    }
  }

  // The other comparisons follow from it, and equality is that of values.
  lemma AtMostFollows(t: Type, x: Value, y: Value)
    requires NumberType(t) && Has(x, t) && Has(y, t)
    ensures Holds(LE, x, y, t) <==> Holds(LT, x, y, t) || x == y
  {
    hide ApplyBinary, Done;
    if Amount(x) == Amount(y) {
      AmountDetermines(x, y, t);
    }
  }

  lemma ConversesFollow(t: Type, x: Value, y: Value)
    requires NumberType(t) && Has(x, t) && Has(y, t)
    ensures (Holds(GT, x, y, t) <==> Holds(LT, y, x, t)) && (Holds(GE, x, y, t) <==> Holds(LE, y, x, t))
  {
    hide ApplyBinary, Done;
  }

  lemma EqualityIsIdentity(t: Type, x: Value, y: Value)
    requires NumberType(t) && Has(x, t) && Has(y, t)
    ensures (Holds(EQ, x, y, t) <==> x == y) && (Holds(NE, x, y, t) <==> x != y)
  {
    hide ApplyBinary, Done;
  }

  // ---------- expressions ----------

  // An operator expression evaluates to what its operator computes from the values of its operands.
  lemma {:induction false} BinaryComputes(env: Env, g: Typing.Scope, b: Bindings, e: Expr, w: Ledger)
    requires e.Binary? && WellTyped(SignatureOf(env), g, e) && ScopeHolds(g, b, true) && EvalExpr(env, b, e, w).res.Ok?
    ensures var l := EvalExpr(env, b, e.left, w); var r := EvalExpr(env, b, e.right, l.w);
      && l.res.Ok? && r.res.Ok?
      && (NumberType(e.left.ty) ==>
        && IsNumber(l.res.value.value) && IsNumber(r.res.value.value)
        && Computes(e.op, l.res.value.value, r.res.value.value, EvalExpr(env, b, e, w).res.value.value))
      && (e.op.EQ? ==> EvalExpr(env, b, e, w).res.value.value == VBool(l.res.value.value == r.res.value.value))
      && (e.op.NE? ==> EvalExpr(env, b, e, w).res.value.value == VBool(l.res.value.value != r.res.value.value))
      && EvalExpr(env, b, e, w).res.value.presence == PRESENT
  {
    var l := EvalExpr(env, b, e.left, w);
    var r := EvalExpr(env, b, e.right, l.w);
    ExprIsSafe(env, g, b, e.left, w, true);
    ExprIsSafe(env, g, b, e.right, l.w, true);
    CombinedValue(env, b, e, w);
    hide EvalExpr, WellTyped, ScopeHolds, ClassOf;
    assert e.left.ty == e.right.ty && BinaryResult(e.op, e.left.ty, e.left.ty) == Some(e.ty);
    if NumberType(e.left.ty) {
      OperatorsCompute(e.op, l.res.value.value, r.res.value.value, e.left.ty);
    }
  }

  lemma CombinedValue(env: Env, b: Bindings, e: Expr, w: Ledger)
    requires e.Binary? && EvalExpr(env, b, e, w).res.Ok?
    ensures var l := EvalExpr(env, b, e.left, w); var r := EvalExpr(env, b, e.right, l.w);
      && l.res.Ok? && r.res.Ok?
      && ApplyBinary(e.op, l.res.value.value, r.res.value.value, e.ty) == Ok(EvalExpr(env, b, e, w).res.value.value)
      && EvalExpr(env, b, e, w).res.value.presence == PRESENT
  {
    hide ApplyBinary;
  }

  // Expressions without a read are functions of the bindings: nothing a run has done before changes them.
  lemma {:induction false} ReadFreeIsStateless(env: Env, b: Bindings, e: Expr, v: Ledger, w: Ledger)
    requires !HasRead(e)
    ensures EvalExpr(env, b, e, v).res == EvalExpr(env, b, e, w).res
    decreases e, 1
  {
    hide ApplyBinary, EvaluateBuiltin;
    match e
    case Literal(_, _, _) =>
    case SymbolRef(_, _, _) =>
    case Field(_, source, _, _) => ReadFreeIsStateless(env, b, source, v, w);
    case Projection(_, source, _, _) => ReadFreeIsStateless(env, b, source, v, w);
    case Call(_, _, operands, _) => OperandsAreStateless(env, b, operands, v, w);
    case Binary(_, _, left, right, _) =>
      ReadFreeIsStateless(env, b, left, v, w);
      ReadFreeIsStateless(env, b, right, EvalExpr(env, b, left, v).w, EvalExpr(env, b, left, w).w);
    case Read(_, _, _, _, _) =>
    case Write(_, _, _, _, _) =>
  }

  lemma {:induction false} OperandsAreStateless(env: Env, b: Bindings, es: seq<Expr>, v: Ledger, w: Ledger)
    requires forall i | 0 <= i < |es| :: !HasRead(es[i])
    ensures EvalOperands(env, b, es, v).res == EvalOperands(env, b, es, w).res
    decreases es, 0
  {
    hide EvalExpr, HasRead;
    if es != [] {
      ReadFreeIsStateless(env, b, es[0], v, w);
      OperandsAreStateless(env, b, es[1..], EvalExpr(env, b, es[0], v).w, EvalExpr(env, b, es[0], w).w);
    }
  }

  // An expression minus itself is zero.
  lemma {:induction false} NothingRemains(env: Env, g: Typing.Scope, b: Bindings, e: Expr, w: Ledger)
    requires e.Binary? && e.op.SUB? && e.left == e.right && WellTyped(SignatureOf(env), g, e) && ScopeHolds(g, b, true)
    requires NumberType(e.left.ty) && !HasRead(e) && EvalExpr(env, b, e, w).res.Ok?
    ensures EvalExpr(env, b, e, w).res.value.value == Zero(e.left.ty)
  {
    hide EvalExpr, ScopeHolds, ClassOf;
    BinaryComputes(env, g, b, e, w);
    ExprIsSafe(env, g, b, e, w, true);
    ReadFreeIsStateless(env, b, e.right, EvalExpr(env, b, e.left, w).w, w);
    assert BinaryResult(SUB, e.left.ty, e.left.ty) == Some(e.ty);
    AmountDetermines(EvalExpr(env, b, e, w).res.value.value, Zero(e.left.ty), e.left.ty);
  }

  // A sum of three does not depend on where it is bracketed.
  lemma {:induction false} BracketsDoNotMatter(env: Env, g: Typing.Scope, b: Bindings, e: Expr, f: Expr, w: Ledger)
    requires e.Binary? && e.left.Binary? && f.Binary? && f.right.Binary?
    requires e.op.ADD? && e.left.op.ADD? && f.op.ADD? && f.right.op.ADD?
    requires f.left == e.left.left && f.right.left == e.left.right && f.right.right == e.right
    requires WellTyped(SignatureOf(env), g, e) && WellTyped(SignatureOf(env), g, f) && ScopeHolds(g, b, true)
    requires NumberType(e.right.ty) && !HasRead(e)
    requires EvalExpr(env, b, e, w).res.Ok? && EvalExpr(env, b, f, w).res.Ok?
    ensures EvalExpr(env, b, e, w).res.value.value == EvalExpr(env, b, f, w).res.value.value
  {
    SumIsTyped(env, g, e);
    SumIsTyped(env, g, f);
    hide EvalExpr, WellTyped, ScopeHolds, ClassOf, HasRead;
    var t := e.right.ty;
    BinaryComputes(env, g, b, e, w);
    BinaryComputes(env, g, b, e.left, w);
    BinaryComputes(env, g, b, f, w);
    var first := EvalExpr(env, b, f.left, w);
    BinaryComputes(env, g, b, f.right, first.w);
    var second := EvalExpr(env, b, f.right.left, first.w);
    PartsAreReadFree(e);
    ReadFreeIsStateless(env, b, e.right, EvalExpr(env, b, e.left, w).w, second.w);
    ExprIsSafe(env, g, b, e, w, true);
    ExprIsSafe(env, g, b, f, w, true);
    hide SafeEval;
    ValuesAreTyped(env, g, b, e, w);
    ValuesAreTyped(env, g, b, f, w);
    AmountDetermines(EvalExpr(env, b, e, w).res.value.value, EvalExpr(env, b, f, w).res.value.value, t);
  }

  // A comparison holds exactly when the difference the other way round is positive.
  lemma {:induction false} LessMeansPositive(env: Env, g: Typing.Scope, b: Bindings, e: Expr, d: Expr, w: Ledger)
    requires e.Binary? && d.Binary? && e.op.LT? && d.op.SUB? && d.left == e.right && d.right == e.left
    requires WellTyped(SignatureOf(env), g, e) && WellTyped(SignatureOf(env), g, d) && ScopeHolds(g, b, true)
    requires NumberType(e.left.ty) && !HasRead(e)
    requires EvalExpr(env, b, e, w).res.Ok? && EvalExpr(env, b, d, w).res.Ok?
    ensures var difference := EvalExpr(env, b, d, w).res.value.value;
      IsNumber(difference) && EvalExpr(env, b, e, w).res.value.value == VBool(Amount(difference) > 0.0)
  {
    PartsAreReadFree(e);
    assert d.left.ty == e.left.ty;
    hide EvalExpr, WellTyped, ScopeHolds, ClassOf, HasRead;
    BinaryComputes(env, g, b, e, w);
    BinaryComputes(env, g, b, d, w);
    ReadFreeIsStateless(env, b, e.right, EvalExpr(env, b, e.left, w).w, w);
    ReadFreeIsStateless(env, b, e.left, EvalExpr(env, b, e.right, w).w, w);
  }

  lemma PartsAreReadFree(e: Expr)
    requires e.Binary? && !HasRead(e)
    ensures !HasRead(e.left) && !HasRead(e.right)
  {
  }

  // Both sides of a well-typed sum of numbers have its type.
  lemma SumIsTyped(env: Env, g: Typing.Scope, e: Expr)
    requires e.Binary? && e.op.ADD? && WellTyped(SignatureOf(env), g, e)
    ensures WellTyped(SignatureOf(env), g, e.left) && WellTyped(SignatureOf(env), g, e.right)
    ensures e.left.ty == e.right.ty == e.ty && NumberType(e.ty)
  {
  }

  lemma ValuesAreTyped(env: Env, g: Typing.Scope, b: Bindings, e: Expr, w: Ledger)
    requires WellTyped(SignatureOf(env), g, e) && ScopeHolds(g, b, true) && NumberType(e.ty) && EvalExpr(env, b, e, w).res.Ok?
    ensures Has(EvalExpr(env, b, e, w).res.value.value, e.ty)
  {
    ExprIsSafe(env, g, b, e, w, true);
    hide EvalExpr, WellTyped, ScopeHolds;
  }

  // The order of the terms of a sum, or of the factors of a product, does not matter.
  lemma {:induction false} TermsCommute(env: Env, g: Typing.Scope, b: Bindings, e: Expr, f: Expr, w: Ledger)
    requires e.Binary? && f.Binary? && (e.op.ADD? || e.op.MUL?) && f.op == e.op && f.left == e.right && f.right == e.left
    requires WellTyped(SignatureOf(env), g, e) && WellTyped(SignatureOf(env), g, f) && ScopeHolds(g, b, true)
    requires NumberType(e.left.ty) && !HasRead(e)
    requires EvalExpr(env, b, e, w).res.Ok? && EvalExpr(env, b, f, w).res.Ok?
    ensures EvalExpr(env, b, e, w).res.value.value == EvalExpr(env, b, f, w).res.value.value
  {
    hide EvalExpr, ScopeHolds, ClassOf;
    BinaryComputes(env, g, b, e, w);
    BinaryComputes(env, g, b, f, w);
    ExprIsSafe(env, g, b, e, w, true);
    ExprIsSafe(env, g, b, f, w, true);
    ReadFreeIsStateless(env, b, e.right, EvalExpr(env, b, e.left, w).w, w);
    ReadFreeIsStateless(env, b, e.left, EvalExpr(env, b, e.right, w).w, w);
    var x, y := EvalExpr(env, b, e, w).res.value.value, EvalExpr(env, b, f, w).res.value.value;
    assert BinaryResult(e.op, e.left.ty, e.left.ty) == Some(e.ty) && e.left.ty == e.right.ty && f.ty == e.ty;
    hide WellTyped;
    SameNumber(e.op, EvalExpr(env, b, e.left, w).res.value.value, EvalExpr(env, b, e.right, w).res.value.value, x, y, e.ty);
  }

  lemma SameNumber(op: BinOp, l: Value, r: Value, x: Value, y: Value, t: Type)
    requires IsNumber(l) && IsNumber(r) && (op.ADD? || op.MUL?) && Computes(op, l, r, x) && Computes(op, r, l, y)
    requires NumberType(t) && Conforms(x, t) && Conforms(y, t)
    ensures x == y
  {
    AmountDetermines(x, y, t);
  }
}
