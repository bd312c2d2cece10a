// What the built-ins compute: a count, a total, and the least and greatest item in a total order of
// the values of each type; and that fields, projections and loops keep the order of items.

module BuiltinLaws {
  import opened Wrappers
  import opened Core
  import opened Failures
  import opened Operators
  import opened Ir
  import opened Semantics
  import opened Effects
  import opened Symbols
  import opened Ast
  import opened Compiler
  import opened Typing
  import opened LoweringTyped
  import opened OperatorLaws

  // ---------- order of all values of one type ----------

  // The order spelled out: false before true, numbers and dates by size, texts and lists by their first
  // difference, a beginning before what it begins.
  ghost predicate Before(a: Value, b: Value)
    decreases a
  {
    match (a, b)
    case (VBool(x), VBool(y)) => !x && y
    case (VInt(x), VInt(y)) => x < y
    case (VDecimal(x), VDecimal(y)) => x < y
    case (VDate(x), VDate(y)) => x < y
    case (VDateTime(p, x), VDateTime(q, y)) => p == q && x < y
    case (VMoney(x, c), VMoney(y, d)) => c == d && x < y
    case (VString(s), VString(t)) => exists k :: TextsPart(s, t, k)
    case (VList(xs), VList(ys)) =>
      (|xs| < |ys| && xs == ys[..|xs|]) || exists k :: 0 <= k < |xs| && k < |ys| && xs[..k] == ys[..k] && xs[k] != ys[k] && Before(xs[k], ys[k])
    case _ => false
  }

  // At k the first text ends or goes on with the smaller character, and up to there they are the same.
  predicate TextsPart(s: string, t: string, k: int) {
    0 <= k <= |s| && k < |t| && s[..k] == t[..k] && (k < |s| ==> s[k] < t[k])
  }

  lemma {:induction false} TextOrder(s: string, t: string)
    ensures StringLess(s, t) <==> exists k :: TextsPart(s, t, k)
    decreases |s|
  {
    if s == "" {
      if t != "" {
        assert TextsPart(s, t, 0);
      }
    } else if t != "" {
      TextOrder(s[1..], t[1..]);
      forall k | TextsPart(s, t, k) && k > 0 ensures s[0] == t[0] {
        assert s[..k][0] == t[..k][0];
      }
      if s[0] == t[0] {
        if k :| TextsPart(s, t, k) {
          assert k > 0 && s[1..][..k - 1] == s[..k][1..] && t[1..][..k - 1] == t[..k][1..];
          assert TextsPart(s[1..], t[1..], k - 1);
        }
        if k :| TextsPart(s[1..], t[1..], k) {
          assert s[..k + 1] == [s[0]] + s[1..][..k] && t[..k + 1] == [t[0]] + t[1..][..k];
          assert TextsPart(s, t, k + 1);
        }
      } else {
        if s[0] < t[0] {
          assert TextsPart(s, t, 0);
        }
      }
    }
  }

  lemma HeadConforms(xs: seq<Value>, t: Type)
    requires Conforms(VList(xs), TList(t)) && xs != []
    ensures Conforms(xs[0], t) && Conforms(VList(xs[1..]), TList(t))
  {
  }

  lemma HeadsAgree(xs: seq<Value>, ys: seq<Value>)
    ensures forall k | 0 < k <= |xs| && k <= |ys| && xs[..k] == ys[..k] :: xs[0] == ys[0]
  {
    forall k | 0 < k <= |xs| && k <= |ys| && xs[..k] == ys[..k] ensures xs[0] == ys[0] {
      assert xs[..k][0] == xs[0] && ys[..k][0] == ys[0];
    }
  }

  lemma PartsNow(xs: seq<Value>, ys: seq<Value>)
    requires xs != [] && ys != [] && xs[0] != ys[0]
    ensures Before(VList(xs), VList(ys)) <==> Before(xs[0], ys[0])
  {
    HeadsAgree(xs, ys);
    assert xs[..|xs|] == xs && xs[..0] == ys[..0];
  }

  // Behind an equal head, the first difference is where it is in what follows.
  lemma PartsLater(xs: seq<Value>, ys: seq<Value>)
    requires xs != [] && ys != [] && xs[0] == ys[0]
    ensures Before(VList(xs), VList(ys)) <==> Before(VList(xs[1..]), VList(ys[1..]))
  {
    var us, vs := xs[1..], ys[1..];
    assert xs == [xs[0]] + us && ys == [ys[0]] + vs;
    if |us| < |vs| {
      assert ys[..|xs|] == [ys[0]] + vs[..|us|];
    }
    forall k | 0 < k < |xs| && k < |ys| ensures ListsPart(xs, ys, k) <==> ListsPart(us, vs, k - 1) {
      assert xs[..k] == [xs[0]] + us[..k - 1] && ys[..k] == [ys[0]] + vs[..k - 1];
      assert us[..k - 1] == xs[..k][1..] && vs[..k - 1] == ys[..k][1..];
      assert us[k - 1] == xs[k] && vs[k - 1] == ys[k];
    }
    ListBefore(xs, ys);
    ListBefore(us, vs);
    hide Before;
    if k :| 0 <= k < |us| && k < |vs| && ListsPart(us, vs, k) {
      assert ListsPart(xs, ys, k + 1);
    }
    if k :| 0 <= k < |xs| && k < |ys| && ListsPart(xs, ys, k) {
      assert k > 0 && ListsPart(us, vs, k - 1);
    }
  }

  ghost predicate ListsPart(xs: seq<Value>, ys: seq<Value>, k: int)
    requires 0 <= k < |xs| && k < |ys|
  {
    xs[..k] == ys[..k] && xs[k] != ys[k] && Before(xs[k], ys[k])
  }

  lemma ListBefore(xs: seq<Value>, ys: seq<Value>)
    ensures Before(VList(xs), VList(ys))
      <==> (|xs| < |ys| && xs == ys[..|xs|]) || exists k :: 0 <= k < |xs| && k < |ys| && ListsPart(xs, ys, k)
  {
    if k :| 0 <= k < |xs| && k < |ys| && xs[..k] == ys[..k] && xs[k] != ys[k] && Before(xs[k], ys[k]) {
      assert ListsPart(xs, ys, k);
    }
    if k :| 0 <= k < |xs| && k < |ys| && ListsPart(xs, ys, k) {
      assert xs[..k] == ys[..k] && xs[k] != ys[k] && Before(xs[k], ys[k]);
    }
  }

  // Values of one kind compare: instants only if both or neither have a zone, money only in one currency,
  // and lists if their first difference does.
  ghost predicate Comparable(a: Value, b: Value)
    decreases a
  {
    match (a, b)
    case (VBool(_), VBool(_)) => true
    case (VInt(_), VInt(_)) => true
    case (VDecimal(_), VDecimal(_)) => true
    case (VString(_), VString(_)) => true
    case (VDate(_), VDate(_)) => true
    case (VDateTime(p, _), VDateTime(q, _)) => p == q
    case (VMoney(_, c), VMoney(_, d)) => c == d
    case (VList(xs), VList(ys)) =>
      forall k | 0 <= k < |xs| && k < |ys| && xs[..k] == ys[..k] && xs[k] != ys[k] :: Comparable(xs[k], ys[k])
    case _ => false
  }

  ghost predicate DifferenceCompares(xs: seq<Value>, ys: seq<Value>, k: int)
    requires 0 <= k < |xs| && k < |ys|
  {
    xs[..k] == ys[..k] && xs[k] != ys[k] ==> Comparable(xs[k], ys[k])
  }

  lemma ListsCompare(xs: seq<Value>, ys: seq<Value>)
    ensures Comparable(VList(xs), VList(ys)) <==> forall k | 0 <= k < |xs| && k < |ys| :: DifferenceCompares(xs, ys, k)
  {
    if forall k | 0 <= k < |xs| && k < |ys| :: DifferenceCompares(xs, ys, k) {
      forall k | 0 <= k < |xs| && k < |ys| && xs[..k] == ys[..k] && xs[k] != ys[k] ensures Comparable(xs[k], ys[k]) {
        assert DifferenceCompares(xs, ys, k);
      }
    }
  }

  lemma SameHeadsCompare(xs: seq<Value>, ys: seq<Value>)
    requires xs != [] && ys != [] && xs[0] == ys[0]
    ensures Comparable(VList(xs), VList(ys)) <==> Comparable(VList(xs[1..]), VList(ys[1..]))
  {
    var us, vs := xs[1..], ys[1..];
    forall k | 0 <= k < |us| && k < |vs| ensures DifferenceCompares(us, vs, k) <==> DifferenceCompares(xs, ys, k + 1) {
      assert xs[..k + 1] == [xs[0]] + us[..k] && ys[..k + 1] == [ys[0]] + vs[..k];
      assert us[..k] == xs[..k + 1][1..] && vs[..k] == ys[..k + 1][1..];
    }
    ListsCompare(xs, ys);
    ListsCompare(us, vs);
    hide Comparable;
    if forall k | 0 <= k < |us| && k < |vs| :: DifferenceCompares(us, vs, k) {
      forall k | 0 <= k < |xs| && k < |ys| ensures DifferenceCompares(xs, ys, k) {
        if k > 0 {
          assert DifferenceCompares(us, vs, k - 1);
        }
      }
    }
  }

  lemma OtherHeadsCompare(xs: seq<Value>, ys: seq<Value>)
    requires xs != [] && ys != [] && xs[0] != ys[0]
    ensures Comparable(VList(xs), VList(ys)) <==> Comparable(xs[0], ys[0])
  {
    HeadsAgree(xs, ys);
    ListsCompare(xs, ys);
    assert xs[..0] == ys[..0];
    assert DifferenceCompares(xs, ys, 0) <==> Comparable(xs[0], ys[0]);
    hide Comparable;
  }

  // On all values, the host's comparison answers exactly when they compare, and then by that order.
  lemma {:induction false} ComparisonIsExact(a: Value, b: Value)
    ensures Less(a, b).Ok? <==> Comparable(a, b)
    ensures Less(a, b).Ok? ==> (Less(a, b).value <==> Before(a, b))
    decreases a, 1
  {
    if a.VList? && b.VList? {
      ListComparisonIsExact(a.items, b.items);
      hide ListLess;
    } else if a.VString? && b.VString? {
      TextOrder(a.s, b.s);
      hide StringLess, TextsPart;
    }
  }

  lemma {:induction false} ListComparisonIsExact(xs: seq<Value>, ys: seq<Value>)
    ensures ListLess(xs, ys).Ok? <==> Comparable(VList(xs), VList(ys))
    ensures ListLess(xs, ys).Ok? ==> (ListLess(xs, ys).value <==> Before(VList(xs), VList(ys)))
    decreases xs, 0
  {
    if xs != [] && ys != [] {
      if xs[0] == ys[0] {
        SameHeadsCompare(xs, ys);
        PartsLater(xs, ys);
        ListComparisonIsExact(xs[1..], ys[1..]);
      } else {
        OtherHeadsCompare(xs, ys);
        PartsNow(xs, ys);
        ComparisonIsExact(xs[0], ys[0]);
      }
      hide Comparable, Before, Less;
    }
  }

  // On values of one orderable type the host's comparison is that order.
  lemma {:induction false} OrderOfOneType(a: Value, b: Value, t: Type)
    requires Conforms(a, t) && Conforms(b, t) && Orderable(t)
    ensures Less(a, b).Ok? && (Less(a, b).value <==> Before(a, b))
  {
    LessOnOneType(a, b, t);
    ComparisonIsExact(a, b);
  }

  // ---------- that order is total ----------

  lemma {:induction false} TextsAreOrdered(a: string, b: string, c: string)
    ensures !StringLess(a, a) && (StringLess(a, b) || StringLess(b, a) || a == b)
    ensures StringLess(a, b) && StringLess(b, c) ==> StringLess(a, c)
    decreases |a|
  {
    if a != "" {
      TextsAreOrdered(a[1..], if b == "" then "" else b[1..], if c == "" then "" else c[1..]);
      assert b != "" && a[0] == b[0] && a[1..] == b[1..] ==> a == [a[0]] + a[1..] == b;
    }
  }

  // Values of one orderable type are strictly and totally ordered.
  lemma {:induction false} ValuesAreOrdered(a: Value, b: Value, c: Value, t: Type)
    requires Conforms(a, t) && Conforms(b, t) && Conforms(c, t) && Orderable(t)
    ensures Less(a, b).Ok? && Less(b, c).Ok? && Less(a, c).Ok? && Less(b, a).Ok? && Less(a, a).Ok?
    ensures !Less(a, a).value && (Less(a, b).value || Less(b, a).value || a == b)
    ensures Less(a, b).value && Less(b, c).value ==> Less(a, c).value
    decreases t, 0, 0
  {
    if t.TList? {
      ListsAreOrdered(a.items, b.items, c.items, t.item);
      hide ListLess;
    } else if a.VString? {
      TextsAreOrdered(a.s, b.s, c.s);
      hide StringLess;
    }
  }

  ghost predicate OrderedLists(xs: seq<Value>, ys: seq<Value>, zs: seq<Value>) {
    && ListLess(xs, ys).Ok? && ListLess(ys, zs).Ok? && ListLess(xs, zs).Ok? && ListLess(ys, xs).Ok? && ListLess(xs, xs).Ok?
    && !ListLess(xs, xs).value && (ListLess(xs, ys).value || ListLess(ys, xs).value || xs == ys)
    && (ListLess(xs, ys).value && ListLess(ys, zs).value ==> ListLess(xs, zs).value)
  }

  lemma {:induction false} ListsAreOrdered(xs: seq<Value>, ys: seq<Value>, zs: seq<Value>, t: Type)
    requires Conforms(VList(xs), TList(t)) && Conforms(VList(ys), TList(t)) && Conforms(VList(zs), TList(t)) && Orderable(t)
    ensures OrderedLists(xs, ys, zs)
    decreases t, 1, |xs|
  {
    ListLessOnOneType(xs, ys, TList(t));
    ListLessOnOneType(ys, zs, TList(t));
    ListLessOnOneType(xs, zs, TList(t));
    ListLessOnOneType(ys, xs, TList(t));
    ListLessOnOneType(xs, xs, TList(t));
    if xs != [] {
      HeadConforms(xs, t);
      if ys != [] {
        HeadConforms(ys, t);
        if zs != [] {
          HeadConforms(zs, t);
          ListsAreOrdered(xs[1..], ys[1..], zs[1..], t);
          ValuesAreOrdered(xs[0], ys[0], zs[0], t);
          ValuesAreOrdered(ys[0], xs[0], zs[0], t);
        } else {
          ListsAreOrdered(xs[1..], ys[1..], ys[1..], t);
          ValuesAreOrdered(xs[0], ys[0], ys[0], t);
        }
        assert xs[0] == ys[0] && xs[1..] == ys[1..] ==> xs == [xs[0]] + xs[1..] == ys;
      } else {
        ListsAreOrdered(xs[1..], xs[1..], xs[1..], t);
      }
    }
    hide Conforms, Orderable, Less;
  }

  // ---------- the built-ins ----------

  // For a minimum, the value is the other or comes before it; for a maximum, the other way round.
  ghost predicate Ends(f: Builtin, v: Value, other: Value) {
    v == other || if f.Min? then Before(v, other) else Before(other, v)
  }

  // The value is one of the items, and the least of them, or the greatest.
  ghost predicate EndOf(f: Builtin, v: Value, items: seq<Value>) {
    v in items && forall i | 0 <= i < |items| :: Ends(f, v, items[i])
  }

  lemma EndsChain(f: Builtin, v: Value, x: Value, y: Value, t: Type)
    requires Conforms(v, t) && Conforms(x, t) && Conforms(y, t) && Orderable(t) && Ends(f, v, x) && Ends(f, x, y)
    ensures Ends(f, v, y)
  {
    ValuesAreOrdered(v, x, y, t);
    ValuesAreOrdered(y, x, v, t);
    OrderOfOneType(v, x, t);
    OrderOfOneType(x, v, t);
    OrderOfOneType(x, y, t);
    OrderOfOneType(y, x, t);
    OrderOfOneType(v, y, t);
    OrderOfOneType(y, v, t);
    hide Before, Less, Conforms, Orderable;
  }

  // The better of two is before both.
  lemma BetterEnds(f: Builtin, x: Value, best: Value, t: Type)
    requires (f.Min? || f.Max?) && Conforms(x, t) && Conforms(best, t) && Orderable(t)
    ensures var better := if f.Min? then Less(x, best) else Less(best, x);
      better.Ok? && var next := if better.value then x else best; Ends(f, next, x) && Ends(f, next, best)
  {
    ValuesAreOrdered(x, best, x, t);
    OrderOfOneType(x, best, t);
    OrderOfOneType(best, x, t);
    hide Before, Less, Conforms, Orderable;
  }

  lemma {:induction false} ExtremumIsTheEnd(f: Builtin, best: Value, rest: seq<Value>, t: Type)
    requires (f.Min? || f.Max?) && Conforms(best, t) && Conforms(VList(rest), TList(t)) && Orderable(t)
    ensures var r := Extremum(f, best, rest); r.Ok? && Conforms(r.value, t) && EndOf(f, r.value, [best] + rest)
    decreases |rest|
  {
    if rest != [] {
      HeadConforms(rest, t);
      BetterEnds(f, rest[0], best, t);
      var better := if f.Min? then Less(rest[0], best) else Less(best, rest[0]);
      var next := if better.value then rest[0] else best;
      ExtremumIsTheEnd(f, next, rest[1..], t);
      var v := Extremum(f, next, rest[1..]).value;
      assert Extremum(f, best, rest) == Ok(v);
      hide Conforms, Orderable, Less, Extremum, Ends;
      assert ([next] + rest[1..])[0] == next;
      EndsChain(f, v, next, best, t);
      EndsChain(f, v, next, rest[0], t);
      forall i | 0 <= i < |[best] + rest| ensures Ends(f, v, ([best] + rest)[i]) {
        if i >= 2 {
          assert ([best] + rest)[i] == ([next] + rest[1..])[i - 1];
        }
      }
      InOneOf(v, next, best, rest);
    } else {
      assert [best] + rest == [best];
      hide Conforms, Orderable;
    }
  }

  lemma InOneOf(v: Value, next: Value, best: Value, rest: seq<Value>)
    requires rest != [] && v in [next] + rest[1..] && (next == best || next == rest[0])
    ensures v in [best] + rest
  {
    var i :| 0 <= i < |[next] + rest[1..]| && ([next] + rest[1..])[i] == v;
    if i == 0 {
      assert ([best] + rest)[0] == best && ([best] + rest)[1] == rest[0];
    } else {
      assert ([best] + rest)[i + 1] == v;
    }
  }

  // The sum of what the items stand for.
  function Total(items: seq<Value>): real
    requires forall i | 0 <= i < |items| :: IsNumber(items[i])
  {
    if items == [] then 0.0 else Amount(items[0]) + Total(items[1..])
  }

  lemma {:induction false} AddAllIsTotal(total: Value, items: seq<Value>, t: Type)
    requires NumberType(t) && Conforms(total, t) && forall i | 0 <= i < |items| :: Conforms(items[i], t) && IsNumber(items[i])
    ensures var r := AddAll(total, items); r.Ok? && Conforms(r.value, t) && Amount(r.value) == Amount(total) + Total(items)
    decreases |items|
  {
    if items != [] {
      OperatorsCompute(ADD, total, items[0], t);
      var next := Arithmetic(ADD, total, items[0], TInt);
      assert next == ApplyBinary(ADD, total, items[0], t) && BinaryResult(ADD, t, t) == Some(t);
      assert forall i | 0 <= i < |items[1..]| :: items[1..][i] == items[i + 1];
      AddAllIsTotal(next.value, items[1..], t);
      hide Arithmetic, ApplyBinary;
    }
  }

  // What a built-in yields on a list: the number of items, their total, or the least or greatest of them.
  ghost predicate Yields(f: Builtin, items: seq<Value>, v: Value) {
    match f
    case Count => v == VInt(|items|)
    case Sum => IsNumber(v) && (forall i | 0 <= i < |items| :: IsNumber(items[i])) && Amount(v) == Total(items)
    case Min => EndOf(f, v, items)
    case Max => EndOf(f, v, items)
  }

  lemma {:induction false} BuiltinsCompute(f: Builtin, v: Value, t: Type)
    requires BuiltinResult(f, [t]).Some? && Conforms(v, t) && (f.Min? || f.Max? ==> v.items != [] && Orderable(t.item))
    ensures var r := EvaluateBuiltin(f, [v], [t], BuiltinResult(f, [t]).value);
      r.Ok? && Conforms(r.value, BuiltinResult(f, [t]).value) && Yields(f, v.items, r.value)
  {
    var items := v.items;
    BuiltinIsSafe(f, v, t);
    if f.Min? || f.Max? {
      HeadConforms(items, t.item);
      ExtremumIsTheEnd(f, items[0], items[1..], t.item);
      assert [items[0]] + items[1..] == items;
      hide Extremum, Conforms, Orderable, EndOf;
    } else if f.Sum? {
      AddAllIsTotal(Zero(t.item), items, t.item);
      hide AddAll, Total;
    }
  }

  // ---------- expressions ----------

  // A call evaluates to what its built-in yields on the list its operand evaluates to.
  lemma {:induction false} CallComputes(env: Env, g: Typing.Scope, b: Bindings, e: Expr, w: Ledger)
    requires e.Call? && WellTyped(SignatureOf(env), g, e) && ScopeHolds(g, b, true) && EvalExpr(env, b, e, w).res.Ok?
    ensures |e.operands| == 1 && e.operands[0].ty.TList?
    ensures var r := EvalExpr(env, b, e.operands[0], w);
      && r.res.Ok? && r.res.value.value.VList? && EvalExpr(env, b, e, w).res.value.presence == PRESENT
      && (e.function_.Count? || e.function_.Sum? || (r.res.value.value.items != [] && Orderable(e.operands[0].ty.item)) ==>
            Yields(e.function_, r.res.value.value.items, EvalExpr(env, b, e, w).res.value.value))
  {
    var operand := e.operands[0];
    assert TypesOf(e.operands)[0] == operand.ty && e.operands == [operand] && e.operands[1..] == [];
    ExprIsSafe(env, g, b, operand, w, true);
    CalledValue(env, b, e, w);
    var r := EvalExpr(env, b, operand, w);
    hide EvalExpr, WellTyped, ScopeHolds, ClassOf, EvaluateBuiltin, Yields;
    assert TypesOf(e.operands) == [operand.ty];
    var x := r.res.value.value;
    if e.function_.Count? || e.function_.Sum? || (x.items != [] && Orderable(operand.ty.item)) {
      BuiltinsCompute(e.function_, x, operand.ty);
    }
  }

  lemma CalledValue(env: Env, b: Bindings, e: Expr, w: Ledger)
    requires e.Call? && |e.operands| == 1 && EvalExpr(env, b, e, w).res.Ok?
    ensures var r := EvalExpr(env, b, e.operands[0], w);
      r.res.Ok? && EvaluateBuiltin(e.function_, [r.res.value.value], [r.res.value.ty], e.ty) == Ok(EvalExpr(env, b, e, w).res.value.value)
        && EvalExpr(env, b, e, w).res.value.presence == PRESENT
  {
    hide EvaluateBuiltin;
    var r := EvalExpr(env, b, e.operands[0], w);
    assert e.operands == [e.operands[0]] && e.operands[1..] == [];
    var all := EvalOperands(env, b, e.operands, w);
    assert all.res.Ok? <==> r.res.Ok?;
    assert EvalNode(env, b, e, w).res.Ok? && all.res.Ok?;
    if r.res.Ok? {
      var xs := EvalOperands(env, b, e.operands, w).res.value;
      assert xs == [r.res.value] + [] == [r.res.value];
      assert seq(|xs|, i requires 0 <= i < |xs| => xs[i].value) == [r.res.value.value];
      assert seq(|xs|, i requires 0 <= i < |xs| => xs[i].ty) == [r.res.value.ty];
    }
  }

  // A compiled call calls the built-in of its name; there are no others.
  lemma CallsAreNamed(tools: Tools, t: Table, name: string, operands: seq<AstExpr>, n: Nodes)
    requires LowerExpr(tools, t, ACall(name, operands), n).Ok?
    ensures var e := LowerExpr(tools, t, ACall(name, operands), n).value.expr;
      && e.Call? && name in ["count", "sum", "min", "max"]
      && (e.function_.Count? <==> name == "count") && (e.function_.Sum? <==> name == "sum")
      && (e.function_.Min? <==> name == "min") && (e.function_.Max? <==> name == "max")
  {
    hide LowerOperands, BuiltinResult;
  }

  // A field of a record is the value under its name; a projection is that of every item, in order.
  lemma {:induction false} FieldsAreTaken(env: Env, b: Bindings, e: Expr, w: Ledger)
    requires (e.Field? || e.Projection?) && EvalExpr(env, b, e, w).res.Ok?
    ensures var r := EvalExpr(env, b, e.source, w); var v := EvalExpr(env, b, e, w).res.value.value;
      && r.res.Ok?
      && var x := r.res.value.value;
        && (e.Field? ==> x.VRecord? && e.field in x.fields && v == x.fields[e.field] && EvalExpr(env, b, e, w).res.value.presence == PRESENT)
        && (e.Projection? && x.VList? ==>
              && v.VList? && |v.items| == |x.items|
              && (EvalExpr(env, b, e, w).res.value.presence == EMPTY <==> |x.items| == 0)
              && forall i | 0 <= i < |x.items| :: x.items[i].VRecord? && e.field in x.items[i].fields && v.items[i] == x.items[i].fields[e.field])
  {
  }

  // A text is the list of its characters.
  lemma CharactersKeepOrder(s: string)
    ensures Elements(VString(s)).Some? && |Elements(VString(s)).value| == |s|
    ensures forall i | 0 <= i < |s| :: Elements(VString(s)).value[i] == VString(s[i..i + 1])
  {
    forall i | 0 <= i < |s| ensures Elements(VString(s)).value[i] == VString(s[i..i + 1]) {
      assert s[i..i + 1] == [s[i]];
    }
  }

  // From the n-th on, the rows hold the items under the name, one each, with the tags of their list.
  ghost predicate Holding(rows: seq<Row>, n: nat, collection: Envelope, items: seq<Value>, name: string) {
    |rows| == n + |items| && forall i | 0 <= i < |items| :: HasItem(rows[n + i], name, collection, items[i])
  }

  ghost predicate HasItem(row: Row, name: string, collection: Envelope, item: Value) {
    && name in row && row[name].value == item
    && collection.ty.TList? && row[name].ty == collection.ty.item && row[name].presence == PRESENT
    && row[name].completeness == collection.completeness && row[name].cls == collection.cls && row[name].prov == collection.prov
  }

  // A loop visits the items of a list in order: one that emits its variable emits them all, as they stand.
  lemma {:induction false} LoopsKeepOrder(env: Env, stmt: Stmt, collection: Envelope, items: seq<Value>, s: State, emitted: Stmt, field: Argument)
    requires stmt.Foreach? && stmt.body == [emitted] && emitted.Emit? && emitted.fields == [field] && Framed(s.b)
    requires field.value.SymbolRef? && field.value.symbol == stmt.loopVariable && collection.ty.TList? && field.value.ty == collection.ty.item
    requires ExecLoop(env, stmt, collection, items, s).error.None?
    ensures var rows := ExecLoop(env, stmt, collection, items, s).s.w.outputs;
      Holding(rows, |s.w.outputs|, collection, items, field.name) && rows[..|s.w.outputs|] == s.w.outputs
    decreases |items|
  {
    if items != [] {
      LoopStep(env, stmt, collection, items, s);
      EmitsTheItem(env, stmt, collection, items, s, emitted, field);
      var after := State(s.b, ExecBlock(env, stmt.body, LoopEntry(stmt, collection, items, s)).s.w, s.depth);
      hide ExecBlock, LoopEntry, ExecLoop;
      LoopsKeepOrder(env, stmt, collection, items[1..], after, emitted, field);
      RowsAhead(s.w.outputs, after.w.outputs, ExecLoop(env, stmt, collection, items, s).s.w.outputs, collection, items, field.name);
    }
  }

  lemma RowsAhead(before: seq<Row>, once: seq<Row>, rows: seq<Row>, collection: Envelope, items: seq<Value>, name: string)
    requires items != [] && |once| == |before| + 1 && once[..|before|] == before && HasItem(once[|before|], name, collection, items[0])
    requires Holding(rows, |once|, collection, items[1..], name) && rows[..|once|] == once
    ensures Holding(rows, |before|, collection, items, name) && rows[..|before|] == before
  {
    var n := |before|;
    assert rows[..n] == rows[..n + 1][..n] && rows[n] == rows[..n + 1][n];
    forall i | 0 <= i < |items| ensures HasItem(rows[n + i], name, collection, items[i]) {
      if i > 0 {
        var j := i - 1;
        assert HasItem(rows[|once| + j], name, collection, items[1..][j]);
      } else {
        assert rows[n + i] == rows[n];
      }
    }
  }

  lemma EmitsTheItem(env: Env, stmt: Stmt, collection: Envelope, items: seq<Value>, s: State, emitted: Stmt, field: Argument)
    requires stmt.Foreach? && stmt.body == [emitted] && emitted.Emit? && emitted.fields == [field] && Framed(s.b) && items != []
    requires field.value.SymbolRef? && field.value.symbol == stmt.loopVariable && !IsBound(Push(s.b), stmt.loopVariable) && collection.ty.TList?
    requires ExecBlock(env, stmt.body, LoopEntry(stmt, collection, items, s)).error.None?
    ensures var after := ExecBlock(env, stmt.body, LoopEntry(stmt, collection, items, s)).s.w.outputs;
      && |after| == |s.w.outputs| + 1 && after[..|s.w.outputs|] == s.w.outputs
      && HasItem(after[|s.w.outputs|], field.name, collection, items[0])
  {
    var entry := LoopEntry(stmt, collection, items, s);
    assert entry.w.outputs == s.w.outputs;
    BindResolves(Push(s.b), stmt.loopVariable, ItemEnvelope(collection, items[0]), stmt.loopVariable);
    assert Resolve(entry.b, field.value.symbol) == Some(ItemEnvelope(collection, items[0]));
    assert stmt.body[1..] == [] && ExecBlock(env, stmt.body, entry) == ExecStmt(env, emitted, entry);
    hide LoopEntry, ExecStmt, Resolve, IsBound, Bind;
    EmitsItsField(env, emitted, field, entry);
    SymbolsEvaluate(env, entry.b, field.value, entry.w);
  }

  lemma SymbolsEvaluate(env: Env, b: Bindings, e: Expr, w: Ledger)
    requires e.SymbolRef? && EvalExpr(env, b, e, w).res.Ok?
    ensures Resolve(b, e.symbol) == Some(EvalExpr(env, b, e, w).res.value)
  {
    hide Resolve;
  }

  // A row is appended that holds the field's value.
  lemma EmitsItsField(env: Env, emitted: Stmt, field: Argument, s: State)
    requires emitted.Emit? && emitted.fields == [field] && Framed(s.b) && ExecStmt(env, emitted, s).error.None?
    ensures var r := EvalExpr(env, s.b, field.value, s.w); var after := ExecStmt(env, emitted, s).s.w.outputs;
      && r.res.Ok? && |after| == |s.w.outputs| + 1 && after[..|s.w.outputs|] == s.w.outputs
      && field.name in after[|s.w.outputs|] && after[|s.w.outputs|][field.name] == r.res.value
  {
    hide EvalExpr;
    SchemaNamesKnown(env.outputs, emitted.fields);
    EmitFieldsOnlyCalls(env, s.b, emitted.fields, s.w);
    assert emitted.fields[1..] == [];
    var r := EvalExpr(env, s.b, field.value, s.w);
    var xs := EmitFields(env, s.b, emitted.fields, s.w).res.value;
    assert xs == [NamedEnvelope(field.name, r.res.value)] + [];
    assert xs[0] == NamedEnvelope(field.name, r.res.value);
    assert NamedEnvelope(field.name, RowOf(xs)[field.name]) in xs;
  }
}
