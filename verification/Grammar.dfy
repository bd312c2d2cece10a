// The grammar of expressions: which token lists stand for which trees, and that the parser accepts
// exactly these.

module Grammar {
  import opened Wrappers
  import opened Core
  import opened Operators
  import opened Ast
  import opened Parser

  // ---------- derivations ----------

  datatype Dots = NoDots | Dot(dot: Token, name: Token, more: Dots)

  // One way to read a list of tokens as an expression.
  datatype Tree =
    | Leaf(token: Token)
    | Name(root: Token, tail: Dots)
    | Group(open: Token, inner: Tree, close: Token)
    | Apply(name: Token, open: Token, operands: Operands)
    | Reading(read: Token, tool: Token, tail: Dots, open: Token, arguments: Arguments)
    | Writing(write: Token, tool: Token, tail: Dots, open: Token, arguments: Arguments, approvedBy: Token, approval: Token)
    | Op(left: Tree, operator: Token, right: Tree)

  datatype Operands =
    | NoOperands(close: Token)
    | LastOperand(value: Tree, close: Token)
    | MoreOperands(value: Tree, comma: Token, more: Operands)

  datatype Arguments =
    | NoArguments(close: Token)
    | LastArgument(name: Token, separator: Token, value: Tree, close: Token)
    | MoreArguments(name: Token, separator: Token, value: Tree, comma: Token, more: Arguments)

  // ---------- the tokens of a derivation, followed by others ----------

  function DotsOnto(d: Dots, rest: seq<Token>): seq<Token> {
    match d case NoDots => rest case Dot(dot, name, more) => [dot, name] + DotsOnto(more, rest)
  }

  function Onto(t: Tree, rest: seq<Token>): (ts: seq<Token>)
    ensures ts != [] && ts[0] == First(t)
    decreases t
  {
    match t
    case Leaf(token) => [token] + rest
    case Name(root, tail) => [root] + DotsOnto(tail, rest)
    case Group(open, inner, close) => [open] + Onto(inner, [close] + rest)
    case Apply(name, open, operands) => [name, open] + OperandsOnto(operands, rest)
    case Reading(read, tool, tail, open, arguments) => [read, tool] + DotsOnto(tail, [open] + ArgumentsOnto(arguments, rest))
    case Writing(write, tool, tail, open, arguments, approvedBy, approval) =>
      [write, tool] + DotsOnto(tail, [open] + ArgumentsOnto(arguments, [approvedBy, approval] + rest))
    case Op(left, operator, right) => Onto(left, [operator] + Onto(right, rest))
  }

  function OperandsOnto(os: Operands, rest: seq<Token>): seq<Token>
    decreases os
  {
    match os
    case NoOperands(close) => [close] + rest
    case LastOperand(value, close) => Onto(value, [close] + rest)
    case MoreOperands(value, comma, more) => Onto(value, [comma] + OperandsOnto(more, rest))
  }

  function ArgumentsOnto(args: Arguments, rest: seq<Token>): seq<Token>
    decreases args
  {
    match args
    case NoArguments(close) => [close] + rest
    case LastArgument(name, separator, value, close) => [name, separator] + Onto(value, [close] + rest)
    case MoreArguments(name, separator, value, comma, more) => [name, separator] + Onto(value, [comma] + ArgumentsOnto(more, rest))
  }

  function First(t: Tree): Token
    decreases t
  {
    match t
    case Leaf(token) => token
    case Name(root, _) => root
    case Group(open, _, _) => open
    case Apply(name, _, _) => name
    case Reading(read, _, _, _, _) => read
    case Writing(write, _, _, _, _, _, _) => write
    case Op(left, _, _) => First(left)
  }

  // ---------- what a derivation means ----------

  function TokenText(t: Token): string {
    if t.StringToken? || t.IdentifierToken? || t.SymbolToken? then t.s else ""
  }

  function NamesOf(d: Dots): seq<string> {
    match d case NoDots => [] case Dot(_, name, more) => [TokenText(name)] + NamesOf(more)
  }

  function LiteralOf(t: Token): AstExpr {
    match t
    case IntegerToken(n) => ALiteral(VInt(n), TInt)
    case DecimalToken(d) => ALiteral(VDecimal(d), TDecimal)
    case BooleanToken(b) => ALiteral(VBool(b), TBool)
    case _ => ALiteral(VString(TokenText(t)), TString)
  }

  function OperatorAt(t: Token): Option<BinOp> {
    NextOperator([t])
  }

  function Meaning(t: Tree): AstExpr
    decreases t
  {
    match t
    case Leaf(token) => LiteralOf(token)
    case Name(root, tail) => APath(TokenText(root), NamesOf(tail))
    case Group(_, inner, _) => Meaning(inner)
    case Apply(name, _, operands) => ACall(TokenText(name), Meanings(operands))
    case Reading(_, tool, tail, _, arguments) => ARead(JoinDots([TokenText(tool)] + NamesOf(tail)), ArgumentMeanings(arguments))
    case Writing(_, tool, tail, _, arguments, _, approval) =>
      AWrite(JoinDots([TokenText(tool)] + NamesOf(tail)), ArgumentMeanings(arguments), TokenText(approval))
    case Op(left, operator, right) =>
      ABinary(match OperatorAt(operator) case Some(op) => op case None => ADD, Meaning(left), Meaning(right))
  }

  function Meanings(os: Operands): seq<AstExpr>
    decreases os
  {
    match os
    case NoOperands(_) => []
    case LastOperand(value, _) => [Meaning(value)]
    case MoreOperands(value, _, more) => [Meaning(value)] + Meanings(more)
  }

  function ArgumentMeanings(args: Arguments): seq<AstArgument>
    decreases args
  {
    match args
    case NoArguments(_) => []
    case LastArgument(name, _, value, _) => [AstArgument(TokenText(name), Meaning(value))]
    case MoreArguments(name, _, value, _, more) => [AstArgument(TokenText(name), Meaning(value))] + ArgumentMeanings(more)
  }

  // ---------- which derivations there are ----------

  predicate IsLiteral(t: Token) {
    t.IntegerToken? || t.DecimalToken? || t.StringToken? || t.BooleanToken?
  }

  // A name that is not taken for the keyword.
  predicate IsName(t: Token) {
    t.IdentifierToken? && t.s != "read"
  }

  predicate Dotted(d: Dots) {
    match d case NoDots => true case Dot(dot, name, more) => HasText(dot, ".") && name.IdentifierToken? && Dotted(more)
  }

  // The rules, by layers of precedence: an operator takes a left operand of at least its own layer and
  // a right operand of a higher one. Marks are told by their text alone, and the mark that closes a
  // list closes it at once.
  predicate Layered(controlled: bool, t: Tree, minimum: nat)
    decreases t
  {
    match t
    case Leaf(token) => IsLiteral(token)
    case Name(root, tail) => IsName(root) && Dotted(tail)
    case Group(open, inner, close) => open == SymbolToken("(") && Layered(controlled, inner, 0) && HasText(close, ")")
    case Apply(name, open, operands) =>
      && IsName(name) && HasText(open, "(")
      && (match operands
          case NoOperands(close) => HasText(close, ")")
          case LastOperand(value, _) => !HasText(First(value), ")") && LayeredOperands(controlled, operands)
          case MoreOperands(value, _, _) => !HasText(First(value), ")") && LayeredOperands(controlled, operands))
    case Reading(read, tool, tail, open, arguments) =>
      && HasText(read, "read") && !read.StringToken? && tool.IdentifierToken? && Dotted(tail)
      && HasText(open, "(") && LayeredList(controlled, arguments, ":")
    case Writing(write, tool, tail, open, arguments, approvedBy, approval) =>
      && controlled && write == SymbolToken("write") && tool.IdentifierToken? && Dotted(tail)
      && HasText(open, "(") && LayeredList(controlled, arguments, "=")
      && HasText(approvedBy, "approved_by") && approval.IdentifierToken?
    case Op(left, operator, right) =>
      match OperatorAt(operator)
      case None => false
      case Some(op) => Precedence(op) >= minimum && Layered(controlled, left, Precedence(op)) && Layered(controlled, right, Precedence(op) + 1)
  }

  // One or more operands.
  predicate LayeredOperands(controlled: bool, os: Operands)
    decreases os
  {
    match os
    case NoOperands(_) => false
    case LastOperand(value, close) => Layered(controlled, value, 0) && HasText(close, ")")
    case MoreOperands(value, comma, more) => Layered(controlled, value, 0) && HasText(comma, ",") && LayeredOperands(controlled, more)
  }

  predicate LayeredList(controlled: bool, args: Arguments, separator: string)
    decreases args, 1
  {
    match args
    case NoArguments(close) => HasText(close, ")")
    case LastArgument(name, _, _, _) => name != IdentifierToken(")") && LayeredArguments(controlled, args, separator)
    case MoreArguments(name, _, _, _, _) => name != IdentifierToken(")") && LayeredArguments(controlled, args, separator)
  }

  // One or more arguments.
  predicate LayeredArguments(controlled: bool, args: Arguments, separator: string)
    decreases args, 0
  {
    match args
    case NoArguments(_) => false
    case LastArgument(name, sep, value, close) =>
      name.IdentifierToken? && HasText(sep, separator) && Layered(controlled, value, 0) && HasText(close, ")")
    case MoreArguments(name, sep, value, comma, more) =>
      name.IdentifierToken? && HasText(sep, separator) && Layered(controlled, value, 0) && HasText(comma, ",") && LayeredArguments(controlled, more, separator)
  }

  // The tokens stand for the tree, in a place that takes operators of at least the minimum precedence.
  ghost predicate Derives(controlled: bool, ts: seq<Token>, e: AstExpr, minimum: nat) {
    exists t :: Layered(controlled, t, minimum) && Onto(t, []) == ts && Meaning(t) == e
  }

  // ---------- what the parser accepts has a derivation ----------

  // No operator of that precedence follows.
  predicate Bounded(ts: seq<Token>, minimum: nat) {
    match NextOperator(ts) case None => true case Some(op) => Precedence(op) < minimum
  }

  // The derivation accounts for what was parsed, up to the rest.
  ghost predicate Accounts(controlled: bool, t: Tree, minimum: nat, ts: seq<Token>, p: Parsed<AstExpr>) {
    Layered(controlled, t, minimum) && Onto(t, p.rest) == ts && Meaning(t) == p.value
  }

  lemma {:induction false} TailDerives(ts: seq<Token>) returns (d: Dots)
    requires ParseTail(ts).Some?
    ensures Dotted(d) && DotsOnto(d, ParseTail(ts).value.rest) == ts && NamesOf(d) == ParseTail(ts).value.value
    decreases |ts|
  {
    if Accepts(ts, ".") {
      var more := TailDerives(ts[2..]);
      d := Dot(ts[0], ts[1], more);
      assert [ts[0], ts[1]] + ts[2..] == ts;
    } else {
      d := NoDots;
    }
  }

  lemma {:induction false} ExprDerives(controlled: bool, ts: seq<Token>, minimum: nat) returns (t: Tree)
    requires ParseExpr(controlled, ts, minimum).Some?
    ensures Accounts(controlled, t, minimum, ts, ParseExpr(controlled, ts, minimum).value) && Bounded(ParseExpr(controlled, ts, minimum).value.rest, minimum)
    decreases |ts|, 3
  {
    var left := PrimaryDerives(controlled, ts);
    var p := ParsePrimary(controlled, ts).value;
    PrimaryAtAnyLayer(controlled, left, minimum);
    if NextOperator(p.rest).Some? {
      PrimaryAtAnyLayer(controlled, left, Precedence(NextOperator(p.rest).value));
    }
    hide ParsePrimary, Layered, Onto, Meaning;
    t := ContinueDerives(controlled, left, p.rest, minimum);
  }

  lemma PrimaryAtAnyLayer(controlled: bool, t: Tree, minimum: nat)
    requires !t.Op? && Layered(controlled, t, 0)
    ensures Layered(controlled, t, minimum)
  {
  }

  lemma {:induction false} ContinueDerives(controlled: bool, left: Tree, ts: seq<Token>, minimum: nat) returns (t: Tree)
    requires Continue(controlled, Meaning(left), ts, minimum).Some? && Layered(controlled, left, minimum)
    requires NextOperator(ts).Some? ==> Layered(controlled, left, Precedence(NextOperator(ts).value))
    ensures var p := Continue(controlled, Meaning(left), ts, minimum).value;
      Layered(controlled, t, minimum) && Onto(t, p.rest) == Onto(left, ts) && Meaning(t) == p.value && Bounded(p.rest, minimum)
    decreases |ts|, 4
  {
    var op := NextOperator(ts);
    if op.Some? && Precedence(op.value) >= minimum {
      var p := Precedence(op.value);
      var q := ParseExpr(controlled, ts[1..], p + 1).value;
      var right := ExprDerives(controlled, ts[1..], p + 1);
      var joined := Op(left, ts[0], right);
      assert OperatorAt(ts[0]) == op;
      assert [ts[0]] + ts[1..] == ts;
      JoinedIsLayered(controlled, left, ts[0], right, p);
      assert Onto(joined, q.rest) == Onto(left, ts);
      assert Meaning(joined) == ABinary(op.value, Meaning(left), q.value);
      hide Layered, Onto, Meaning, ParseExpr;
      t := ContinueDerives(controlled, joined, q.rest, minimum);
    } else {
      t := left;
    }
  }

  lemma JoinedIsLayered(controlled: bool, left: Tree, operator: Token, right: Tree, p: nat)
    requires OperatorAt(operator).Some? && Precedence(OperatorAt(operator).value) == p
    requires Layered(controlled, left, p) && Layered(controlled, right, p + 1)
    ensures forall m: nat | m <= p :: Layered(controlled, Op(left, operator, right), m)
  {
  }

  lemma {:induction false} PrimaryDerives(controlled: bool, ts: seq<Token>) returns (t: Tree)
    requires ParsePrimary(controlled, ts).Some?
    ensures !t.Op? && Accounts(controlled, t, 0, ts, ParsePrimary(controlled, ts).value)
    decreases |ts|, 2
  {
    if IsLiteral(ts[0]) {
      t := Leaf(ts[0]);
    } else if HasText(ts[0], "read") {
      t := ReadDerives(controlled, ts);
    } else if controlled && ts[0] == SymbolToken("write") {
      t := WriteDerives(controlled, ts);
    } else if ts[0].IdentifierToken? {
      if Accepts(ts[1..], "(") {
        t := CallDerives(controlled, ts);
      } else {
        var tail := TailDerives(ts[1..]);
        t := Name(ts[0], tail);
        assert [ts[0]] + ts[1..] == ts;
      }
    } else {
      t := GroupDerives(controlled, ts);
    }
  }

  lemma {:induction false} GroupDerives(controlled: bool, ts: seq<Token>) returns (t: Tree)
    requires ts != [] && ts[0] == SymbolToken("(") && ParsePrimary(controlled, ts).Some?
    ensures !t.Op? && Accounts(controlled, t, 0, ts, ParsePrimary(controlled, ts).value)
    decreases |ts|, 1
  {
    var inner := ExprDerives(controlled, ts[1..], 0);
    var p := ParseExpr(controlled, ts[1..], 0).value;
    hide ParseExpr;
    t := Group(ts[0], inner, p.rest[0]);
    assert [p.rest[0]] + p.rest[1..] == p.rest && [ts[0]] + ts[1..] == ts;
  }

  lemma {:induction false} CallDerives(controlled: bool, ts: seq<Token>) returns (t: Tree)
    requires ts != [] && IsName(ts[0]) && Accepts(ts[1..], "(") && ParsePrimary(controlled, ts).Some?
    ensures !t.Op? && Accounts(controlled, t, 0, ts, ParsePrimary(controlled, ts).value)
    decreases |ts|, 1
  {
    assert [ts[0], ts[1]] + ts[2..] == ts;
    if Accepts(ts[2..], ")") {
      t := Apply(ts[0], ts[1], NoOperands(ts[2]));
      assert [ts[2]] + ts[2..][1..] == ts[2..];
      assert ts[2..][0] == ts[2] && Onto(t, ts[2..][1..]) == ts;
      assert ParsePrimary(controlled, ts) == ParseCall(controlled, ts[0].s, ts[2..]);
      assert Meanings(NoOperands(ts[2])) == [];
      assert Layered(controlled, t, 0);
    } else {
      hide ParseOperands;
      var operands := OperandsDerive(controlled, ts[2..]);
      t := Apply(ts[0], ts[1], operands);
      var p := ParseOperands(controlled, ts[2..]).value;
      assert Onto(t, p.rest) == [ts[0], ts[1]] + OperandsOnto(operands, p.rest) == ts;
    }
  }

  lemma {:induction false} OperandsDerive(controlled: bool, ts: seq<Token>) returns (os: Operands)
    requires ParseOperands(controlled, ts).Some?
    ensures var p := ParseOperands(controlled, ts).value;
      LayeredOperands(controlled, os) && !os.NoOperands? && OperandsOnto(os, p.rest) == ts && Meanings(os) == p.value && ts != [] && First(os.value) == ts[0]
    decreases |ts|, 4
  {
    var value := ExprDerives(controlled, ts, 0);
    var p := ParseExpr(controlled, ts, 0).value;
    hide ParseExpr, Layered, Onto, Meaning;
    assert [p.rest[0]] + p.rest[1..] == p.rest;
    if Accepts(p.rest, ")") {
      os := LastOperand(value, p.rest[0]);
    } else {
      var more := OperandsDerive(controlled, p.rest[1..]);
      os := MoreOperands(value, p.rest[0], more);
    }
  }

  lemma {:induction false} NamedDerive(controlled: bool, ts: seq<Token>, separator: string) returns (args: Arguments)
    requires ParseNamed(controlled, ts, separator).Some?
    ensures var p := ParseNamed(controlled, ts, separator).value;
      LayeredArguments(controlled, args, separator) && ArgumentsOnto(args, p.rest) == ts && ArgumentMeanings(args) == p.value && !args.NoArguments? && ts != [] && args.name == ts[0]
    decreases |ts|, 4
  {
    var value := ExprDerives(controlled, ts[2..], 0);
    var p := ParseExpr(controlled, ts[2..], 0).value;
    hide ParseExpr, Layered, Onto, Meaning;
    assert [p.rest[0]] + p.rest[1..] == p.rest && [ts[0], ts[1]] + ts[2..] == ts;
    if Accepts(p.rest, ")") {
      args := LastArgument(ts[0], ts[1], value, p.rest[0]);
    } else {
      var more := NamedDerive(controlled, p.rest[1..], separator);
      args := MoreArguments(ts[0], ts[1], value, p.rest[0], more);
    }
  }

  lemma {:induction false} ArgumentsDerive(controlled: bool, ts: seq<Token>, separator: string) returns (args: Arguments)
    requires ParseArguments(controlled, ts, separator).Some?
    ensures var p := ParseArguments(controlled, ts, separator).value;
      LayeredList(controlled, args, separator) && ArgumentsOnto(args, p.rest) == ts && ArgumentMeanings(args) == p.value
    decreases |ts|, 5
  {
    if Accepts(ts, ")") {
      args := NoArguments(ts[0]);
      assert [ts[0]] + ts[1..] == ts;
    } else {
      args := NamedDerive(controlled, ts, separator);
    }
  }

  lemma {:induction false} ReadDerives(controlled: bool, ts: seq<Token>) returns (t: Tree)
    requires ts != [] && HasText(ts[0], "read") && !ts[0].StringToken? && ParsePrimary(controlled, ts).Some?
    ensures !t.Op? && Accounts(controlled, t, 0, ts, ParsePrimary(controlled, ts).value)
    decreases |ts|, 1
  {
    hide ParseArguments, ParseTail;
    var tail := TailDerives(ts[1..][1..]);
    var open := ParseTail(ts[1..][1..]).value.rest;
    var arguments := ArgumentsDerive(controlled, open[1..], ":");
    t := Reading(ts[0], ts[1], tail, open[0], arguments);
    assert ts[1..][1..] == ts[2..] && [ts[0], ts[1]] + ts[2..] == ts && [open[0]] + open[1..] == open;
  }

  lemma {:induction false} WriteDerives(controlled: bool, ts: seq<Token>) returns (t: Tree)
    requires controlled && ts != [] && ts[0] == SymbolToken("write") && ParsePrimary(controlled, ts).Some?
    ensures !t.Op? && Accounts(controlled, t, 0, ts, ParsePrimary(controlled, ts).value)
    decreases |ts|, 1
  {
    hide ParseArguments, ParseTail;
    var tail := TailDerives(ts[1..][1..]);
    var open := ParseTail(ts[1..][1..]).value.rest;
    var arguments := ArgumentsDerive(controlled, open[1..], "=");
    var p := ParseArguments(controlled, open[1..], "=").value;
    t := Writing(ts[0], ts[1], tail, open[0], arguments, p.rest[0], p.rest[1]);
    assert ts[1..][1..] == ts[2..] && [ts[0], ts[1]] + ts[2..] == ts && [open[0]] + open[1..] == open;
    assert [p.rest[0], p.rest[1]] + p.rest[2..] == p.rest;
  }

  // ---------- what has a derivation is accepted ----------

  lemma {:induction false} DotsParse(d: Dots, rest: seq<Token>)
    requires Dotted(d) && !Accepts(rest, ".")
    ensures ParseTail(DotsOnto(d, rest)) == Some(Parsed(NamesOf(d), rest))
    decreases d
  {
    if d.Dot? {
      DotsParse(d.more, rest);
      var ts := DotsOnto(d, rest);
      assert ts[2..] == DotsOnto(d.more, rest);
    }
  }

  // A derivation in its place parses as its meaning, and goes on from there.
  lemma {:induction false} TreeParses(controlled: bool, t: Tree, place: nat, minimum: nat, rest: seq<Token>)
    requires Layered(controlled, t, place) && place >= minimum && Stops(rest, place + 1)
    ensures ParseExpr(controlled, Onto(t, rest), minimum) == Continue(controlled, Meaning(t), rest, minimum)
    decreases t, 3
  {
    if t.Op? {
      OpParses(controlled, t, place, minimum, rest);
    } else {
      PrimaryParses(controlled, t, place, rest);
      hide ParsePrimary, Continue;
    }
  }

  lemma {:induction false} OpParses(controlled: bool, t: Tree, place: nat, minimum: nat, rest: seq<Token>)
    requires t.Op? && Layered(controlled, t, place) && place >= minimum && Stops(rest, place + 1)
    ensures ParseExpr(controlled, Onto(t, rest), minimum) == Continue(controlled, Meaning(t), rest, minimum)
    decreases t, 2
  {
    var op := OperatorAt(t.operator).value;
    var p := Precedence(op);
    var after := [t.operator] + Onto(t.right, rest);
    assert Onto(t, rest) == Onto(t.left, after) && after[1..] == Onto(t.right, rest);
    assert NextOperator(after) == Some(op);
    assert Meaning(t) == ABinary(op, Meaning(t.left), Meaning(t.right));
    OperatorTextsDiffer();
    assert Stops(after, p + 1) && Stops(rest, p + 2) && Bounded(rest, p + 1);
    hide ParseExpr, Layered, Onto, Meaning, Stops, OperatorText;
    TreeParses(controlled, t.left, p, minimum, after);
    TreeParses(controlled, t.right, p + 1, p + 1, rest);
  }

  lemma {:induction false} PrimaryParses(controlled: bool, t: Tree, place: nat, rest: seq<Token>)
    requires !t.Op? && Layered(controlled, t, place) && !Accepts(rest, ".") && !Accepts(rest, "(")
    ensures ParsePrimary(controlled, Onto(t, rest)) == Some(Parsed(Meaning(t), rest))
    decreases t, 1
  {
    match t
    case Leaf(_) =>
    case Name(_, _) => NameParses(controlled, t, place, rest);
    case Group(_, _, _) => GroupParses(controlled, t, place, rest);
    case Apply(_, _, _) => ApplyParses(controlled, t, place, rest);
    case Reading(_, _, _, _, _) => ReadingParses(controlled, t, place, rest);
    case Writing(_, _, _, _, _, _, _) => WritingParses(controlled, t, place, rest);
  }

  lemma {:induction false} NameParses(controlled: bool, t: Tree, place: nat, rest: seq<Token>)
    requires t.Name? && Layered(controlled, t, place) && !Accepts(rest, ".") && !Accepts(rest, "(")
    ensures ParsePrimary(controlled, Onto(t, rest)) == Some(Parsed(Meaning(t), rest))
  {
    DotsParse(t.tail, rest);
    var tail := DotsOnto(t.tail, rest);
    assert Onto(t, rest)[1..] == tail;
    assert !Accepts(tail, "(");
    hide ParseTail, NamesOf;
  }

  lemma {:induction false} GroupParses(controlled: bool, t: Tree, place: nat, rest: seq<Token>)
    requires t.Group? && Layered(controlled, t, place)
    ensures ParsePrimary(controlled, Onto(t, rest)) == Some(Parsed(Meaning(t), rest))
    decreases t, 0
  {
    var close := [t.close] + rest;
    ClosesAnywhere(t.close, rest);
    TreeParses(controlled, t.inner, 0, 0, close);
    assert Onto(t, rest)[1..] == Onto(t.inner, close) && close[1..] == rest;
    assert Meaning(t) == Meaning(t.inner);
    hide ParseExpr, Onto, Meaning;
  }

  lemma ClosesAnywhere(mark: Token, rest: seq<Token>)
    requires HasText(mark, ")") || HasText(mark, ",")
    ensures NextOperator([mark] + rest) == None && forall n :: Stops([mark] + rest, n)
  {
    OperatorTextsDiffer();
    assert OperatorNamed(")") == None && OperatorNamed(",") == None;
  }

  lemma {:induction false} ApplyParses(controlled: bool, t: Tree, place: nat, rest: seq<Token>)
    requires t.Apply? && Layered(controlled, t, place)
    ensures ParsePrimary(controlled, Onto(t, rest)) == Some(Parsed(Meaning(t), rest))
    decreases t, 0
  {
    var ts := Onto(t, rest);
    var inner := OperandsOnto(t.operands, rest);
    assert ts[1..] == [t.open] + inner && ts[2..] == inner;
    if t.operands.NoOperands? {
      assert inner[1..] == rest;
    } else {
      assert inner != [] && inner[0] == First(t.operands.value);
      OperandsParse(controlled, t.operands, rest);
      hide ParseOperands, Meanings;
    }
  }

  lemma {:induction false} OperandsParse(controlled: bool, os: Operands, rest: seq<Token>)
    requires LayeredOperands(controlled, os)
    ensures ParseOperands(controlled, OperandsOnto(os, rest)) == Some(Parsed(Meanings(os), rest))
    decreases os, 4
  {
    match os
    case LastOperand(value, close) =>
      ClosesAnywhere(close, rest);
      TreeParses(controlled, value, 0, 0, [close] + rest);
      assert ([close] + rest)[1..] == rest;
      hide ParseExpr, Layered, Onto, Meaning;
    case MoreOperands(value, comma, more) =>
      var after := OperandsOnto(more, rest);
      ClosesAnywhere(comma, after);
      TreeParses(controlled, value, 0, 0, [comma] + after);
      OperandsParse(controlled, more, rest);
      assert ([comma] + after)[1..] == after;
      hide ParseExpr, Layered, Onto, Meaning;
  }

  lemma {:induction false} NamedParse(controlled: bool, args: Arguments, separator: string, rest: seq<Token>)
    requires LayeredArguments(controlled, args, separator)
    ensures ParseNamed(controlled, ArgumentsOnto(args, rest), separator) == Some(Parsed(ArgumentMeanings(args), rest))
    decreases args, 4
  {
    hide ParseExpr, Layered, Onto, Meaning;
    var ts := ArgumentsOnto(args, rest);
    match args
    case LastArgument(_, _, value, close) =>
      ClosesAnywhere(close, rest);
      TreeParses(controlled, value, 0, 0, [close] + rest);
      assert ([close] + rest)[1..] == rest && ts[2..] == Onto(value, [close] + rest);
    case MoreArguments(_, _, value, comma, more) =>
      var after := ArgumentsOnto(more, rest);
      ClosesAnywhere(comma, after);
      TreeParses(controlled, value, 0, 0, [comma] + after);
      NamedParse(controlled, more, separator, rest);
      assert ([comma] + after)[1..] == after && ts[2..] == Onto(value, [comma] + after);
  }

  lemma {:induction false} ListParses(controlled: bool, args: Arguments, separator: string, rest: seq<Token>)
    requires LayeredList(controlled, args, separator)
    ensures ParseArguments(controlled, ArgumentsOnto(args, rest), separator) == Some(Parsed(ArgumentMeanings(args), rest))
    decreases args, 5
  {
    if args.NoArguments? {
      assert ([args.close] + rest)[1..] == rest;
    } else {
      NamedParse(controlled, args, separator, rest);
      assert ArgumentsOnto(args, rest)[0] == args.name;
      hide ParseNamed, ArgumentMeanings;
    }
  }

  lemma {:induction false} ToolParses(tool: Token, tail: Dots, rest: seq<Token>)
    requires tool.IdentifierToken? && Dotted(tail) && !Accepts(rest, ".")
    ensures ParseQualifiedName([tool] + DotsOnto(tail, rest)) == Some(Parsed(JoinDots([TokenText(tool)] + NamesOf(tail)), rest))
  {
    DotsParse(tail, rest);
    assert ([tool] + DotsOnto(tail, rest))[1..] == DotsOnto(tail, rest);
    hide ParseTail, JoinDots;
  }

  lemma {:induction false} ReadingParses(controlled: bool, t: Tree, place: nat, rest: seq<Token>)
    requires t.Reading? && Layered(controlled, t, place)
    ensures ParsePrimary(controlled, Onto(t, rest)) == Some(Parsed(Meaning(t), rest))
    decreases t, 0
  {
    var arguments := ArgumentsOnto(t.arguments, rest);
    var call := [t.open] + arguments;
    ToolParses(t.tool, t.tail, call);
    ListParses(controlled, t.arguments, ":", rest);
    var ts := Onto(t, rest);
    assert ts[1..] == [t.tool] + DotsOnto(t.tail, call) && call[1..] == arguments;
    hide ParseQualifiedName, ParseArguments, ArgumentMeanings, JoinDots, DotsOnto;
  }

  lemma {:induction false} WritingParses(controlled: bool, t: Tree, place: nat, rest: seq<Token>)
    requires t.Writing? && Layered(controlled, t, place)
    ensures ParsePrimary(controlled, Onto(t, rest)) == Some(Parsed(Meaning(t), rest))
    decreases t, 0
  {
    var approval := [t.approvedBy, t.approval] + rest;
    var arguments := ArgumentsOnto(t.arguments, approval);
    var call := [t.open] + arguments;
    ToolParses(t.tool, t.tail, call);
    ListParses(controlled, t.arguments, "=", approval);
    var ts := Onto(t, rest);
    assert ts[1..] == [t.tool] + DotsOnto(t.tail, call) && call[1..] == arguments && approval[2..] == rest;
    hide ParseQualifiedName, ParseArguments, ArgumentMeanings, JoinDots, DotsOnto;
  }

  // The parser accepts exactly the token lists that have a derivation, with its meaning, whatever the
  // tokens are; in particular no list has derivations of two meanings.
  lemma {:induction false} ParserFollowsTheGrammar(controlled: bool, ts: seq<Token>, e: AstExpr, minimum: nat)
    ensures ParseExpr(controlled, ts, minimum) == Some(Parsed(e, [])) <==> Derives(controlled, ts, e, minimum)
  {
    if ParseExpr(controlled, ts, minimum) == Some(Parsed(e, [])) {
      var t := ExprDerives(controlled, ts, minimum);
      assert Layered(controlled, t, minimum) && Onto(t, []) == ts && Meaning(t) == e;
    }
    if Derives(controlled, ts, e, minimum) {
      var t :| Layered(controlled, t, minimum) && Onto(t, []) == ts && Meaning(t) == e;
      TreeParses(controlled, t, minimum, minimum, []);
    }
  }

  // What is consumed of a longer list derives the result, and no operator that could still be taken
  // follows it: every result is left-associative and ordered by precedence.
  lemma {:induction false} ConsumedTokensDerive(controlled: bool, ts: seq<Token>, minimum: nat)
    requires ParseExpr(controlled, ts, minimum).Some?
    ensures var p := ParseExpr(controlled, ts, minimum).value;
      && |p.rest| <= |ts| && ts[|ts| - |p.rest|..] == p.rest
      && Derives(controlled, ts[..|ts| - |p.rest|], p.value, minimum)
      && Bounded(p.rest, minimum)
  {
    var p := ParseExpr(controlled, ts, minimum).value;
    var t := ExprDerives(controlled, ts, minimum);
    TreeOnto(t, p.rest);
    var own := Onto(t, []);
    assert ts == own + p.rest;
    assert ts[..|own|] == own && ts[|own|..] == p.rest;
  }

  lemma {:induction false} DotsAppend(d: Dots, a: seq<Token>, b: seq<Token>)
    ensures DotsOnto(d, a + b) == DotsOnto(d, a) + b
    decreases d
  {
    if d.Dot? {
      DotsAppend(d.more, a, b);
    }
  }

  lemma {:induction false} TreeOnto(t: Tree, rest: seq<Token>)
    ensures Onto(t, rest) == Onto(t, []) + rest
  {
    TreeAppend(t, [], rest);
    assert [] + rest == rest;
  }

  lemma {:induction false} TreeAppend(t: Tree, a: seq<Token>, b: seq<Token>)
    ensures Onto(t, a + b) == Onto(t, a) + b
    decreases t
  {
    match t
    case Leaf(_) =>
    case Name(_, tail) => DotsAppend(tail, a, b);
    case Group(_, inner, close) =>
      assert [close] + (a + b) == ([close] + a) + b;
      TreeAppend(inner, [close] + a, b);
    case Apply(_, _, operands) => OperandsAppend(operands, a, b);
    case Reading(_, _, tail, open, arguments) =>
      ArgumentsAppend(arguments, a, b);
      var call := [open] + ArgumentsOnto(arguments, a);
      assert [open] + (ArgumentsOnto(arguments, a) + b) == call + b;
      DotsAppend(tail, call, b);
    case Writing(_, _, tail, open, arguments, approvedBy, approval) =>
      var ending := [approvedBy, approval] + a;
      assert [approvedBy, approval] + (a + b) == ending + b;
      ArgumentsAppend(arguments, ending, b);
      var call := [open] + ArgumentsOnto(arguments, ending);
      assert [open] + (ArgumentsOnto(arguments, ending) + b) == call + b;
      DotsAppend(tail, call, b);
    case Op(left, operator, right) =>
      TreeAppend(right, a, b);
      var after := [operator] + Onto(right, a);
      assert [operator] + (Onto(right, a) + b) == after + b;
      TreeAppend(left, after, b);
  }

  lemma {:induction false} OperandsAppend(os: Operands, a: seq<Token>, b: seq<Token>)
    ensures OperandsOnto(os, a + b) == OperandsOnto(os, a) + b
    decreases os
  {
    match os
    case NoOperands(_) =>
    case LastOperand(value, close) =>
      assert [close] + (a + b) == ([close] + a) + b;
      TreeAppend(value, [close] + a, b);
    case MoreOperands(value, comma, more) =>
      OperandsAppend(more, a, b);
      assert [comma] + (OperandsOnto(more, a) + b) == ([comma] + OperandsOnto(more, a)) + b;
      TreeAppend(value, [comma] + OperandsOnto(more, a), b);
  }

  lemma {:induction false} ArgumentsAppend(args: Arguments, a: seq<Token>, b: seq<Token>)
    ensures ArgumentsOnto(args, a + b) == ArgumentsOnto(args, a) + b
    decreases args
  {
    match args
    case NoArguments(_) =>
    case LastArgument(_, _, value, close) =>
      assert [close] + (a + b) == ([close] + a) + b;
      TreeAppend(value, [close] + a, b);
    case MoreArguments(_, _, value, comma, more) =>
      ArgumentsAppend(more, a, b);
      assert [comma] + (ArgumentsOnto(more, a) + b) == ([comma] + ArgumentsOnto(more, a)) + b;
      TreeAppend(value, [comma] + ArgumentsOnto(more, a), b);
  }
}
