// The expression grammar in named strata, operators spelled out, and that the parser reads exactly it:
// equality under comparison under sum under product under primary, each to the left.

module Strata {
  import opened Wrappers
  import opened Core
  import opened Operators
  import opened Ast
  import opened Parser
  import opened Grammar

  // ---------- the strata ----------

  // equality ::= equality ("==" | "!=") comparison | comparison
  predicate Equality(controlled: bool, t: Tree, e: AstExpr)
    decreases t, 5
  {
    if t.Op? && (HasText(t.operator, "==") || HasText(t.operator, "!=")) then
      && e.ABinary? && e.op == (if HasText(t.operator, "==") then EQ else NE)
      && Equality(controlled, t.left, e.left) && Comparison(controlled, t.right, e.right)
    else Comparison(controlled, t, e)
  }

  // comparison ::= comparison ("<" | "<=" | ">" | ">=") sum | sum
  predicate Comparison(controlled: bool, t: Tree, e: AstExpr)
    decreases t, 4
  {
    if t.Op? && (HasText(t.operator, "<") || HasText(t.operator, "<=") || HasText(t.operator, ">") || HasText(t.operator, ">=")) then
      && e.ABinary?
      && e.op == (if HasText(t.operator, "<") then LT else if HasText(t.operator, "<=") then LE else if HasText(t.operator, ">") then GT else GE)
      && Comparison(controlled, t.left, e.left) && Sum(controlled, t.right, e.right)
    else Sum(controlled, t, e)
  }

  // sum ::= sum ("+" | "-") product | product
  predicate Sum(controlled: bool, t: Tree, e: AstExpr)
    decreases t, 3
  {
    if t.Op? && (HasText(t.operator, "+") || HasText(t.operator, "-")) then
      && e.ABinary? && e.op == (if HasText(t.operator, "+") then ADD else SUB)
      && Sum(controlled, t.left, e.left) && Product(controlled, t.right, e.right)
    else Product(controlled, t, e)
  }

  // product ::= product ("*" | "/") primary | primary
  predicate Product(controlled: bool, t: Tree, e: AstExpr)
    decreases t, 2
  {
    if t.Op? && (HasText(t.operator, "*") || HasText(t.operator, "/")) then
      && e.ABinary? && e.op == (if HasText(t.operator, "*") then MUL else DIV)
      && Product(controlled, t.left, e.left) && Primary(controlled, t.right, e.right)
    else Primary(controlled, t, e)
  }

  // primary ::= literal | name | "(" equality ")" | call | READ | WRITE
  predicate Primary(controlled: bool, t: Tree, e: AstExpr)
    decreases t, 1
  {
    match t
    case Leaf(IntegerToken(n)) => e == ALiteral(VInt(n), TInt)
    case Leaf(DecimalToken(d)) => e == ALiteral(VDecimal(d), TDecimal)
    case Leaf(StringToken(s)) => e == ALiteral(VString(s), TString)
    case Leaf(BooleanToken(b)) => e == ALiteral(VBool(b), TBool)
    case Leaf(_) => false
    case Name(root, tail) => IsName(root) && Dotted(tail) && e == APath(root.s, NamesOf(tail))
    case Group(open, inner, close) => open == SymbolToken("(") && HasText(close, ")") && Equality(controlled, inner, e)
    case Apply(name, open, operands) =>
      && IsName(name) && HasText(open, "(") && e.ACall? && e.name == name.s
      && (match operands
          case NoOperands(close) => HasText(close, ")") && e.operands == []
          case LastOperand(value, _) => !HasText(First(value), ")") && Listed(controlled, operands, e.operands)
          case MoreOperands(value, _, _) => !HasText(First(value), ")") && Listed(controlled, operands, e.operands))
    case Reading(read, tool, tail, open, arguments) =>
      && HasText(read, "read") && !read.StringToken? && tool.IdentifierToken? && Dotted(tail) && HasText(open, "(")
      && e.ARead? && e.tool == JoinDots([tool.s] + NamesOf(tail)) && Named(controlled, arguments, ":", e.arguments)
    case Writing(write, tool, tail, open, arguments, approvedBy, approval) =>
      && controlled && write == SymbolToken("write") && tool.IdentifierToken? && Dotted(tail) && HasText(open, "(")
      && HasText(approvedBy, "approved_by") && approval.IdentifierToken?
      && e.AWrite? && e.tool == JoinDots([tool.s] + NamesOf(tail)) && e.approval == approval.s && Named(controlled, arguments, "=", e.arguments)
    case Op(_, _, _) => false
  }

  // One or more operands, with commas between and a parenthesis behind.
  predicate Listed(controlled: bool, os: Operands, es: seq<AstExpr>)
    decreases os, 0
  {
    match os
    case NoOperands(_) => false
    case LastOperand(value, close) => |es| == 1 && Equality(controlled, value, es[0]) && HasText(close, ")")
    case MoreOperands(value, comma, more) =>
      es != [] && Equality(controlled, value, es[0]) && HasText(comma, ",") && Listed(controlled, more, es[1..])
  }

  predicate Named(controlled: bool, args: Arguments, separator: string, es: seq<AstArgument>)
    decreases args, 1
  {
    match args
    case NoArguments(close) => HasText(close, ")") && es == []
    case LastArgument(name, _, _, _) => name != IdentifierToken(")") && NamedList(controlled, args, separator, es)
    case MoreArguments(name, _, _, _, _) => name != IdentifierToken(")") && NamedList(controlled, args, separator, es)
  }

  predicate NamedList(controlled: bool, args: Arguments, separator: string, es: seq<AstArgument>)
    decreases args, 0
  {
    match args
    case NoArguments(_) => false
    case LastArgument(name, sep, value, close) =>
      && name.IdentifierToken? && HasText(sep, separator) && HasText(close, ")")
      && |es| == 1 && es[0].name == name.s && Equality(controlled, value, es[0].value)
    case MoreArguments(name, sep, value, comma, more) =>
      && name.IdentifierToken? && HasText(sep, separator) && HasText(comma, ",")
      && es != [] && es[0].name == name.s && Equality(controlled, value, es[0].value) && NamedList(controlled, more, separator, es[1..])
  }

  // The tokens stand for the tree.
  ghost predicate Reads(controlled: bool, ts: seq<Token>, e: AstExpr) {
    exists t :: Equality(controlled, t, e) && Onto(t, []) == ts
  }

  // ---------- the strata are the layers the parser climbs ----------

  // A tree stands in the layer of its precedence, with this meaning.
  predicate Stands(controlled: bool, t: Tree, minimum: nat, e: AstExpr) {
    Layered(controlled, t, minimum) && Meaning(t) == e
  }

  lemma {:induction false} EqualityIsLayered(controlled: bool, t: Tree, e: AstExpr)
    ensures Equality(controlled, t, e) <==> Stands(controlled, t, 0, e)
    ensures Equality(controlled, t, e) <==> Stands(controlled, t, 10, e)
    decreases t, 5
  {
    hide Comparison, HasText, OperatorAt;
    ComparisonIsLayered(controlled, t, e);
    if t.Op? {
      OperatorOf(t.operator);
      if e.ABinary? {
        EqualityIsLayered(controlled, t.left, e.left);
        ComparisonIsLayered(controlled, t.right, e.right);
      }
    } else {
      AnyLayer(controlled, t);
    }
  }

  lemma {:induction false} ComparisonIsLayered(controlled: bool, t: Tree, e: AstExpr)
    ensures Comparison(controlled, t, e) <==> Stands(controlled, t, 11, e)
    ensures Comparison(controlled, t, e) <==> Stands(controlled, t, 20, e)
    decreases t, 4
  {
    hide Sum, HasText, OperatorAt;
    SumIsLayered(controlled, t, e);
    if t.Op? {
      OperatorOf(t.operator);
      if e.ABinary? {
        ComparisonIsLayered(controlled, t.left, e.left);
        SumIsLayered(controlled, t.right, e.right);
      }
    } else {
      AnyLayer(controlled, t);
    }
  }

  lemma {:induction false} SumIsLayered(controlled: bool, t: Tree, e: AstExpr)
    ensures Sum(controlled, t, e) <==> Stands(controlled, t, 21, e)
    ensures Sum(controlled, t, e) <==> Stands(controlled, t, 30, e)
    decreases t, 3
  {
    hide Product, HasText, OperatorAt;
    ProductIsLayered(controlled, t, e);
    if t.Op? {
      OperatorOf(t.operator);
      if e.ABinary? {
        SumIsLayered(controlled, t.left, e.left);
        ProductIsLayered(controlled, t.right, e.right);
      }
    } else {
      AnyLayer(controlled, t);
    }
  }

  lemma {:induction false} ProductIsLayered(controlled: bool, t: Tree, e: AstExpr)
    ensures Product(controlled, t, e) <==> Stands(controlled, t, 31, e)
    ensures Product(controlled, t, e) <==> Stands(controlled, t, 40, e)
    decreases t, 2
  {
    hide Primary, HasText, OperatorAt;
    PrimaryIsLayered(controlled, t, e);
    if t.Op? {
      OperatorOf(t.operator);
      if e.ABinary? {
        ProductIsLayered(controlled, t.left, e.left);
        PrimaryIsLayered(controlled, t.right, e.right);
      }
    } else {
      AnyLayer(controlled, t);
    }
  }

  // Which operator a token spells, if any.
  lemma OperatorOf(t: Token)
    ensures HasText(t, "==") <==> OperatorAt(t) == Some(EQ)
    ensures HasText(t, "!=") <==> OperatorAt(t) == Some(NE)
    ensures HasText(t, "<") <==> OperatorAt(t) == Some(LT)
    ensures HasText(t, "<=") <==> OperatorAt(t) == Some(LE)
    ensures HasText(t, ">") <==> OperatorAt(t) == Some(GT)
    ensures HasText(t, ">=") <==> OperatorAt(t) == Some(GE)
    ensures HasText(t, "+") <==> OperatorAt(t) == Some(ADD)
    ensures HasText(t, "-") <==> OperatorAt(t) == Some(SUB)
    ensures HasText(t, "*") <==> OperatorAt(t) == Some(MUL)
    ensures HasText(t, "/") <==> OperatorAt(t) == Some(DIV)
  {
    OperatorTextsDiffer();
  }

  lemma AnyLayer(controlled: bool, t: Tree)
    requires !t.Op?
    ensures forall m: nat, n: nat :: Layered(controlled, t, m) == Layered(controlled, t, n)
  {
  }

  lemma {:induction false} PrimaryIsLayered(controlled: bool, t: Tree, e: AstExpr)
    ensures Primary(controlled, t, e) <==> Stands(controlled, t, 41, e)
    decreases t, 1
  {
    match t
    case Leaf(_) =>
    case Name(_, _) =>
    case Group(_, inner, _) => EqualityIsLayered(controlled, inner, e);
    case Apply(_, _, _) => ApplyIsLayered(controlled, t, e);
    case Reading(_, _, _, _, arguments) =>
      if e.ARead? {
        NamedIsLayered(controlled, arguments, ":", e.arguments);
      }
    case Writing(_, _, _, _, arguments, _, _) =>
      if e.AWrite? {
        NamedIsLayered(controlled, arguments, "=", e.arguments);
      }
    case Op(_, _, _) =>
  }

  lemma {:induction false} ApplyIsLayered(controlled: bool, t: Tree, e: AstExpr)
    requires t.Apply?
    ensures Primary(controlled, t, e) <==> Stands(controlled, t, 41, e)
    decreases t, 0
  {
    if e.ACall? {
      if t.operands.NoOperands? {
        assert Meanings(t.operands) == [];
      } else {
        ListedIsLayered(controlled, t.operands, e.operands);
        assert Meaning(t) == ACall(TokenText(t.name), Meanings(t.operands));
        assert Stands(controlled, t, 41, e) <==>
          IsName(t.name) && HasText(t.open, "(") && !HasText(First(t.operands.value), ")") && LayeredOperands(controlled, t.operands)
          && e.name == TokenText(t.name) && e.operands == Meanings(t.operands);
      }
    }
  }

  lemma {:induction false} ListedIsLayered(controlled: bool, os: Operands, es: seq<AstExpr>)
    ensures Listed(controlled, os, es) <==> LayeredOperands(controlled, os) && Meanings(os) == es
    decreases os, 0
  {
    hide Equality, Layered, Meaning;
    match os
    case NoOperands(_) =>
    case LastOperand(value, _) =>
      if |es| == 1 {
        EqualityStands(controlled, value, es[0]);
        assert es == [es[0]];
      }
    case MoreOperands(value, _, more) =>
      if es != [] {
        EqualityStands(controlled, value, es[0]);
        ListedIsLayered(controlled, more, es[1..]);
        assert es == [es[0]] + es[1..];
        assert ([Meaning(value)] + Meanings(more))[1..] == Meanings(more);
      }
  }

  lemma {:induction false} EqualityStands(controlled: bool, t: Tree, e: AstExpr)
    ensures Equality(controlled, t, e) <==> Layered(controlled, t, 0) && Meaning(t) == e
    decreases t, 6
  {
    EqualityIsLayered(controlled, t, e);
    hide Equality, Layered, Meaning;
  }

  lemma {:induction false} NamedIsLayered(controlled: bool, args: Arguments, separator: string, es: seq<AstArgument>)
    ensures Named(controlled, args, separator, es) <==> LayeredList(controlled, args, separator) && ArgumentMeanings(args) == es
    decreases args, 1
  {
    if !args.NoArguments? {
      NamedListIsLayered(controlled, args, separator, es);
      hide NamedList, LayeredArguments, ArgumentMeanings;
    }
  }

  lemma {:induction false} NamedListIsLayered(controlled: bool, args: Arguments, separator: string, es: seq<AstArgument>)
    requires !args.NoArguments?
    ensures NamedList(controlled, args, separator, es) <==> LayeredArguments(controlled, args, separator) && ArgumentMeanings(args) == es
    decreases args, 0
  {
    hide Equality, Layered, Meaning;
    match args
    case LastArgument(name, _, value, _) =>
      if |es| == 1 {
        EqualityStands(controlled, value, es[0].value);
        assert es == [es[0]];
      }
    case MoreArguments(name, _, value, _, more) =>
      if es != [] {
        EqualityStands(controlled, value, es[0].value);
        if !more.NoArguments? {
          NamedListIsLayered(controlled, more, separator, es[1..]);
        }
        assert es == [es[0]] + es[1..];
        assert ([AstArgument(TokenText(name), Meaning(value))] + ArgumentMeanings(more))[1..] == ArgumentMeanings(more);
      }
  }

  // The parser reads a whole token list as a tree exactly when the strata derive that tree from it.
  lemma {:induction false} ParserReadsTheStrata(controlled: bool, ts: seq<Token>, e: AstExpr)
    ensures ParseExpr(controlled, ts, 0) == Some(Parsed(e, [])) <==> Reads(controlled, ts, e)
  {
    ParserFollowsTheGrammar(controlled, ts, e, 0);
    hide ParseExpr;
    if Derives(controlled, ts, e, 0) {
      var t :| Layered(controlled, t, 0) && Onto(t, []) == ts && Meaning(t) == e;
      EqualityStands(controlled, t, e);
      hide Equality, Layered, Onto, Meaning;
      assert Equality(controlled, t, e) && Onto(t, []) == ts;
    }
    if Reads(controlled, ts, e) {
      var t :| Equality(controlled, t, e) && Onto(t, []) == ts;
      EqualityStands(controlled, t, e);
      hide Equality, Layered, Onto, Meaning;
      assert Layered(controlled, t, 0) && Onto(t, []) == ts && Meaning(t) == e;
    }
  }
}
