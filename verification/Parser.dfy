// The expression parser: precedence climbing over tokens, and when printing undoes it.

module Parser {
  import opened Wrappers
  import opened Core
  import opened Operators
  import opened Ast

  // Keywords and punctuation are symbols. A string token carries its unescaped text.
  datatype Token =
    | IntegerToken(n: nat)
    | DecimalToken(d: real)
    | StringToken(s: string)
    | BooleanToken(b: bool)
    | IdentifierToken(s: string)
    | SymbolToken(s: string)

  datatype Parsed<+T> = Parsed(value: T, rest: seq<Token>)

  // What the parser compares: a token's text, whatever its kind.
  predicate HasText(t: Token, text: string) {
    (t.StringToken? || t.IdentifierToken? || t.SymbolToken?) && t.s == text
  }

  predicate Accepts(ts: seq<Token>, text: string) {
    ts != [] && HasText(ts[0], text)
  }

  function OperatorText(op: BinOp): string {
    match op
    case ADD => "+"
    case SUB => "-"
    case MUL => "*"
    case DIV => "/"
    case LT => "<"
    case LE => "<="
    case GT => ">"
    case GE => ">="
    case EQ => "=="
    case NE => "!="
  }

  function OperatorNamed(text: string): (r: Option<BinOp>)
    ensures r.Some? ==> OperatorText(r.value) == text
    ensures forall op :: OperatorText(op) == text ==> r == Some(op)
  {
    if text == "+" then Some(ADD)
    else if text == "-" then Some(SUB)
    else if text == "*" then Some(MUL)
    else if text == "/" then Some(DIV)
    else if text == "<" then Some(LT)
    else if text == "<=" then Some(LE)
    else if text == ">" then Some(GT)
    else if text == ">=" then Some(GE)
    else if text == "==" then Some(EQ)
    else if text == "!=" then Some(NE)
    else None
  }

  function Precedence(op: BinOp): nat {
    match op
    case EQ => 10
    case NE => 10
    case LT => 20
    case LE => 20
    case GT => 20
    case GE => 20
    case ADD => 30
    case SUB => 30
    case MUL => 40
    case DIV => 40
  }

  // The operator the next token spells, by its text alone.
  function NextOperator(ts: seq<Token>): Option<BinOp> {
    if ts == [] || !(ts[0].StringToken? || ts[0].IdentifierToken? || ts[0].SymbolToken?) then None else OperatorNamed(ts[0].s)
  }

  // ---------- parsing ----------

  function JoinDots(names: seq<string>): string {
    if names == [] then "" else if |names| == 1 then names[0] else names[0] + "." + JoinDots(names[1..])
  }

  // Further names after dots.
  function ParseTail(ts: seq<Token>): (r: Option<Parsed<seq<string>>>)
    ensures r.Some? ==> |r.value.rest| <= |ts|
    decreases |ts|
  {
    if !Accepts(ts, ".") then Some(Parsed([], ts))
    else if |ts| < 2 || !ts[1].IdentifierToken? then None
    else match ParseTail(ts[2..])
      case None => None
      case Some(p) => Some(Parsed([ts[1].s] + p.value, p.rest))
  }

  function ParseQualifiedName(ts: seq<Token>): (r: Option<Parsed<string>>)
    ensures r.Some? ==> |r.value.rest| < |ts|
  {
    if ts == [] || !ts[0].IdentifierToken? then None
    else match ParseTail(ts[1..])
      case None => None
      case Some(p) => Some(Parsed(JoinDots([ts[0].s] + p.value), p.rest))
  }

  // `controlled` selects the language version in which WRITE is an expression.
  function ParseExpr(controlled: bool, ts: seq<Token>, minimum: nat): (r: Option<Parsed<AstExpr>>)
    ensures r.Some? ==> |r.value.rest| < |ts|
    decreases |ts|, 3
  {
    match ParsePrimary(controlled, ts)
    case None => None
    case Some(p) => Continue(controlled, p.value, p.rest, minimum)
  }

  // Operators of at least the minimum precedence extend the expression to the left.
  function Continue(controlled: bool, left: AstExpr, ts: seq<Token>, minimum: nat): (r: Option<Parsed<AstExpr>>)
    ensures r.Some? ==> |r.value.rest| <= |ts|
    decreases |ts|, 4
  {
    match NextOperator(ts)
    case None => Some(Parsed(left, ts))
    case Some(op) =>
      if Precedence(op) < minimum then Some(Parsed(left, ts))
      else match ParseExpr(controlled, ts[1..], Precedence(op) + 1)
        case None => None
        case Some(p) => Continue(controlled, ABinary(op, left, p.value), p.rest, minimum)
  }

  function ParsePrimary(controlled: bool, ts: seq<Token>): (r: Option<Parsed<AstExpr>>)
    ensures r.Some? ==> |r.value.rest| < |ts|
    decreases |ts|, 2
  {
    if ts == [] then None
    else if ts[0].IntegerToken? then Some(Parsed(ALiteral(VInt(ts[0].n), TInt), ts[1..]))
    else if ts[0].DecimalToken? then Some(Parsed(ALiteral(VDecimal(ts[0].d), TDecimal), ts[1..]))
    else if ts[0].StringToken? then Some(Parsed(ALiteral(VString(ts[0].s), TString), ts[1..]))
    else if ts[0].BooleanToken? then Some(Parsed(ALiteral(VBool(ts[0].b), TBool), ts[1..]))
    else if HasText(ts[0], "read") then ParseRead(controlled, ts[1..])
    else if controlled && ts[0] == SymbolToken("write") then ParseWrite(controlled, ts[1..])
    else if ts[0].IdentifierToken? then
      (if Accepts(ts[1..], "(") then ParseCall(controlled, ts[0].s, ts[2..])
       else match ParseTail(ts[1..])
         case None => None
         case Some(p) => Some(Parsed(APath(ts[0].s, p.value), p.rest)))
    else if HasText(ts[0], "(") then
      (match ParseExpr(controlled, ts[1..], 0)
       case None => None
       case Some(p) => if Accepts(p.rest, ")") then Some(Parsed(p.value, p.rest[1..])) else None)
    else None
  }

  function ParseCall(controlled: bool, name: string, ts: seq<Token>): (r: Option<Parsed<AstExpr>>)
    ensures r.Some? ==> |r.value.rest| <= |ts|
    decreases |ts|, 5
  {
    if Accepts(ts, ")") then Some(Parsed(ACall(name, []), ts[1..]))
    else match ParseOperands(controlled, ts)
      case None => None
      case Some(p) => Some(Parsed(ACall(name, p.value), p.rest))
  }

  function ParseRead(controlled: bool, ts: seq<Token>): (r: Option<Parsed<AstExpr>>)
    ensures r.Some? ==> |r.value.rest| <= |ts|
    decreases |ts|, 5
  {
    match ParseQualifiedName(ts)
    case None => None
    case Some(tool) =>
      if !Accepts(tool.rest, "(") then None
      else match ParseArguments(controlled, tool.rest[1..], ":")
        case None => None
        case Some(p) => Some(Parsed(ARead(tool.value, p.value), p.rest))
  }

  function ParseWrite(controlled: bool, ts: seq<Token>): (r: Option<Parsed<AstExpr>>)
    ensures r.Some? ==> |r.value.rest| <= |ts|
    decreases |ts|, 5
  {
    match ParseQualifiedName(ts)
    case None => None
    case Some(tool) =>
      if !Accepts(tool.rest, "(") then None
      else match ParseArguments(controlled, tool.rest[1..], "=")
        case None => None
        case Some(p) =>
          if !Accepts(p.rest, "approved_by") || |p.rest| < 2 || !p.rest[1].IdentifierToken? then None
          else Some(Parsed(AWrite(tool.value, p.value, p.rest[1].s), p.rest[2..]))
  }

  // One or more operands, up to the closing parenthesis.
  function ParseOperands(controlled: bool, ts: seq<Token>): (r: Option<Parsed<seq<AstExpr>>>)
    ensures r.Some? ==> |r.value.rest| < |ts|
    decreases |ts|, 4
  {
    match ParseExpr(controlled, ts, 0)
    case None => None
    case Some(p) =>
      if Accepts(p.rest, ")") then Some(Parsed([p.value], p.rest[1..]))
      else if !Accepts(p.rest, ",") then None
      else match ParseOperands(controlled, p.rest[1..])
        case None => None
        case Some(q) => Some(Parsed([p.value] + q.value, q.rest))
  }

  function ParseArguments(controlled: bool, ts: seq<Token>, separator: string): (r: Option<Parsed<seq<AstArgument>>>)
    ensures r.Some? ==> |r.value.rest| < |ts|
    decreases |ts|, 5
  {
    if Accepts(ts, ")") then Some(Parsed([], ts[1..])) else ParseNamed(controlled, ts, separator)
  }

  // One or more named arguments, up to the closing parenthesis.
  function ParseNamed(controlled: bool, ts: seq<Token>, separator: string): (r: Option<Parsed<seq<AstArgument>>>)
    ensures r.Some? ==> |r.value.rest| < |ts|
    decreases |ts|, 4
  {
    if |ts| < 2 || !ts[0].IdentifierToken? || !HasText(ts[1], separator) then None
    else match ParseExpr(controlled, ts[2..], 0)
      case None => None
      case Some(p) =>
        var first := AstArgument(ts[0].s, p.value);
        if Accepts(p.rest, ")") then Some(Parsed([first], p.rest[1..]))
        else if !Accepts(p.rest, ",") then None
        else match ParseNamed(controlled, p.rest[1..], separator)
          case None => None
          case Some(q) => Some(Parsed([first] + q.value, q.rest))
  }

  // ---------- printing ----------

  function SplitDots(text: string): (r: seq<string>)
    ensures r != []
  {
    if text == [] then [""]
    else
      var rest := SplitDots(text[1..]);
      if text[0] == '.' then [""] + rest else [[text[0]] + rest[0]] + rest[1..]
  }

  function PrintTail(names: seq<string>): seq<Token> {
    if names == [] then [] else [SymbolToken("."), IdentifierToken(names[0])] + PrintTail(names[1..])
  }

  function PrintQualifiedName(text: string): seq<Token> {
    var names := SplitDots(text);
    [IdentifierToken(names[0])] + PrintTail(names[1..])
  }

  function PrintLiteral(v: Value): seq<Token> {
    match v
    case VInt(i) => if i >= 0 then [IntegerToken(i)] else []
    case VDecimal(d) => [DecimalToken(d)]
    case VString(s) => [StringToken(s)]
    case VBool(b) => [BooleanToken(b)]
    case _ => []
  }

  // An expression in a place that takes operators of at least the minimum precedence: parentheses
  // only around a looser operator.
  function Print(e: AstExpr, minimum: nat): seq<Token>
    decreases e, 1
  {
    if e.ABinary? && Precedence(e.op) < minimum
    then [SymbolToken("(")] + PrintBare(e) + [SymbolToken(")")]
    else PrintBare(e)
  }

  function PrintBare(e: AstExpr): seq<Token>
    decreases e, 0
  {
    match e
    case ALiteral(v, _) => PrintLiteral(v)
    case APath(root, parts) => [IdentifierToken(root)] + PrintTail(parts)
    case ACall(name, operands) => [IdentifierToken(name), SymbolToken("(")] + PrintOperands(operands)
    case ARead(tool, arguments) => [SymbolToken("read")] + PrintQualifiedName(tool) + [SymbolToken("(")] + PrintArguments(arguments, ":")
    case AWrite(tool, arguments, approval) =>
      [SymbolToken("write")] + PrintQualifiedName(tool) + [SymbolToken("(")] + PrintArguments(arguments, "=")
        + [SymbolToken("approved_by"), IdentifierToken(approval)]
    case ABinary(op, left, right) =>
      Print(left, Precedence(op)) + [SymbolToken(OperatorText(op))] + Print(right, Precedence(op) + 1)
  }

  function PrintOperands(es: seq<AstExpr>): seq<Token>
    decreases es, 2
  {
    if es == [] then [SymbolToken(")")]
    else Print(es[0], 0) + (if |es| == 1 then [SymbolToken(")")] else [SymbolToken(",")] + PrintOperands(es[1..]))
  }

  function PrintArguments(args: seq<AstArgument>, separator: string): seq<Token>
    decreases args, 2
  {
    if args == [] then [SymbolToken(")")]
    else
      [IdentifierToken(args[0].name), SymbolToken(separator)] + Print(args[0].value, 0)
        + (if |args| == 1 then [SymbolToken(")")] else [SymbolToken(",")] + PrintArguments(args[1..], separator))
  }

  predicate Letter(c: char) {
    'a' <= c <= 'z' || 'A' <= c <= 'Z' || '0' <= c <= '9' || c == '_'
  }

  // An identifier that is not the keyword `read`.
  predicate Word(s: string) {
    s != "" && s != "read" && forall i | 0 <= i < |s| :: Letter(s[i])
  }

  // Trees the surface language has words for: literals of the four written kinds, names that are
  // identifiers, WRITE only where the language has it.
  predicate Writable(controlled: bool, e: AstExpr)
    decreases e
  {
    match e
    case ALiteral(v, ty) =>
      (v.VInt? && v.i >= 0 && ty == TInt) || (v.VDecimal? && v.d >= 0.0 && ty == TDecimal) || (v.VString? && ty == TString) || (v.VBool? && ty == TBool)
    case APath(root, _) => Word(root)
    case ACall(name, operands) => Word(name) && forall i | 0 <= i < |operands| :: Writable(controlled, operands[i])
    case ARead(_, arguments) => forall i | 0 <= i < |arguments| :: Word(arguments[i].name) && Writable(controlled, arguments[i].value)
    case AWrite(_, arguments, _) => controlled && forall i | 0 <= i < |arguments| :: Word(arguments[i].name) && Writable(controlled, arguments[i].value)
    case ABinary(_, left, right) => Writable(controlled, left) && Writable(controlled, right)
  }

  // No call's first operand begins with the string literal ")".
  predicate Unmistakable(e: AstExpr)
    decreases e
  {
    match e
    case ALiteral(_, _) => true
    case APath(_, _) => true
    case ACall(_, operands) =>
      && (forall i | 0 <= i < |operands| :: Unmistakable(operands[i]))
      && (operands != [] ==> !Accepts(Print(operands[0], 0), ")"))
    case ARead(_, arguments) => forall i | 0 <= i < |arguments| :: Unmistakable(arguments[i].value)
    case AWrite(_, arguments, _) => forall i | 0 <= i < |arguments| :: Unmistakable(arguments[i].value)
    case ABinary(_, left, right) => Unmistakable(left) && Unmistakable(right)
  }

  // ---------- printing is undone by parsing ----------

  // Nothing here continues an expression of that precedence, or a name.
  predicate Stops(ts: seq<Token>, minimum: nat) {
    && (match NextOperator(ts) case None => true case Some(op) => Precedence(op) < minimum)
    && !Accepts(ts, ".") && !Accepts(ts, "(")
  }

  lemma TailStep(name: string, tail: seq<Token>)
    ensures ParseTail([SymbolToken("."), IdentifierToken(name)] + tail)
      == match ParseTail(tail) case None => None case Some(p) => Some(Parsed([name] + p.value, p.rest))
  {
    var ts := [SymbolToken("."), IdentifierToken(name)] + tail;
    assert ts[2..] == tail;
  }

  lemma {:induction false} TailReadsBack(names: seq<string>, rest: seq<Token>)
    requires !Accepts(rest, ".")
    ensures ParseTail(PrintTail(names) + rest) == Some(Parsed(names, rest))
    decreases |names|
  {
    if names == [] {
      assert PrintTail(names) + rest == rest;
    } else {
      hide ParseTail;
      TailReadsBack(names[1..], rest);
      TailStep(names[0], PrintTail(names[1..]) + rest);
      var dot := [SymbolToken("."), IdentifierToken(names[0])];
      assert PrintTail(names) == dot + PrintTail(names[1..]);
      hide PrintTail;
      assert dot + PrintTail(names[1..]) + rest == dot + (PrintTail(names[1..]) + rest);
      assert names == [names[0]] + names[1..];
    }
  }

  lemma {:induction false} DotsJoinBack(text: string)
    ensures JoinDots(SplitDots(text)) == text
  {
    if text != [] {
      DotsJoinBack(text[1..]);
      var rest := SplitDots(text[1..]);
      if text[0] == '.' {
        assert ([""] + rest)[1..] == rest;
      } else {
        assert ([[text[0]] + rest[0]] + rest[1..])[1..] == rest[1..];
      }
    }
  }

  lemma {:induction false} QualifiedNameReadsBack(text: string, rest: seq<Token>)
    requires !Accepts(rest, ".")
    ensures ParseQualifiedName(PrintQualifiedName(text) + rest) == Some(Parsed(text, rest))
  {
    var names := SplitDots(text);
    DotsJoinBack(text);
    TailReadsBack(names[1..], rest);
    var ts := PrintQualifiedName(text) + rest;
    assert ts[1..] == PrintTail(names[1..]) + rest;
    assert [names[0]] + names[1..] == names;
  }

  // What is printed, a punctuation mark, and what follows.
  lemma {:induction false} ExprReadsBack(controlled: bool, e: AstExpr, place: nat, minimum: nat, rest: seq<Token>)
    requires Writable(controlled, e) && Unmistakable(e) && place >= minimum && Stops(rest, place + 1)
    ensures ParseExpr(controlled, Print(e, place) + rest, minimum) == Continue(controlled, e, rest, minimum)
    decreases e, 3
  {
    var ts := Print(e, place) + rest;
    if e.ABinary? && Precedence(e.op) < place {
      var inner := PrintBare(e) + [SymbolToken(")")] + rest;
      assert ts == [SymbolToken("(")] + inner;
      var close := [SymbolToken(")")] + rest;
      assert inner == PrintBare(e) + close && ts[1..] == inner;
      BinaryReadsBack(controlled, e, 0, close);
      assert close[1..] == rest;
      assert ParsePrimary(controlled, ts) == Some(Parsed(e, rest));
    } else if e.ABinary? {
      BinaryReadsBack(controlled, e, minimum, rest);
    } else {
      PrimaryReadsBack(controlled, e, rest);
    }
  }

  lemma {:induction false} BinaryReadsBack(controlled: bool, e: AstExpr, minimum: nat, rest: seq<Token>)
    requires e.ABinary? && Writable(controlled, e) && Unmistakable(e) && Precedence(e.op) >= minimum && Stops(rest, Precedence(e.op) + 1)
    ensures ParseExpr(controlled, PrintBare(e) + rest, minimum) == Continue(controlled, e, rest, minimum)
    decreases e, 2
  {
    var p := Precedence(e.op);
    var after := AfterLeft(e, rest);
    BinaryBegins(e, rest);
    BinaryParts(controlled, e);
    StopsEarlier(rest, p + 1);
    hide ParseExpr, Print, PrintBare, Writable, Unmistakable, AfterLeft;
    ExprReadsBack(controlled, e.left, p, minimum, after);
    ExprReadsBack(controlled, e.right, p + 1, p + 1, rest);
  }

  lemma OperatorTextsDiffer()
    ensures forall op :: OperatorText(op) != "." && OperatorText(op) != "(" && OperatorText(op) != ")" && OperatorText(op) != ","
  {
  }

  lemma {:induction false} PrimaryReadsBack(controlled: bool, e: AstExpr, rest: seq<Token>)
    requires !e.ABinary? && Writable(controlled, e) && Unmistakable(e) && !Accepts(rest, ".") && !Accepts(rest, "(")
    ensures ParsePrimary(controlled, PrintBare(e) + rest) == Some(Parsed(e, rest))
    decreases e, 1
  {
    match e
    case ALiteral(_, _) =>
    case APath(_, _) => PathReadsBack(controlled, e, rest);
    case ACall(_, _) => CallReadsBack(controlled, e, rest);
    case ARead(_, _) => ReadReadsBack(controlled, e, rest);
    case AWrite(_, _, _) => WriteReadsBack(controlled, e, rest);
  }

  lemma {:induction false} PathReadsBack(controlled: bool, e: AstExpr, rest: seq<Token>)
    requires e.APath? && Writable(controlled, e) && !Accepts(rest, ".") && !Accepts(rest, "(")
    ensures ParsePrimary(controlled, PrintBare(e) + rest) == Some(Parsed(e, rest))
  {
    hide ParseTail, PrintTail, Word;
    var tail := PrintTail(e.parts) + rest;
    WordsAreNoMarks(e.root);
    TailReadsBack(e.parts, rest);
    TailBegins(e.parts, rest);
    assert PrintBare(e) + rest == [IdentifierToken(e.root)] + tail;
    hide PrintBare;
    assert ([IdentifierToken(e.root)] + tail)[1..] == tail;
  }

  lemma TailBegins(parts: seq<string>, rest: seq<Token>)
    requires !Accepts(rest, "(")
    ensures !Accepts(PrintTail(parts) + rest, "(")
  {
    if parts == [] {
      assert PrintTail(parts) + rest == rest;
    } else {
      assert (PrintTail(parts) + rest)[0] == SymbolToken(".");
    }
  }

  lemma {:induction false} CallReadsBack(controlled: bool, e: AstExpr, rest: seq<Token>)
    requires e.ACall? && Writable(controlled, e) && Unmistakable(e)
    ensures ParsePrimary(controlled, PrintBare(e) + rest) == Some(Parsed(e, rest))
    decreases e, 0
  {
    var ts := PrintBare(e) + rest;
    var inner := PrintOperands(e.operands) + rest;
    WordsAreNoMarks(e.name);
    assert ts[1..] == [SymbolToken("(")] + inner && ts[2..] == inner;
    if e.operands == [] {
      assert inner[1..] == rest;
    } else {
      OperandsBeginLikeTheFirst(e.operands, rest);
      OperandsReadBack(controlled, e.operands, rest);
    }
  }

  lemma {:induction false} OperandsBeginLikeTheFirst(es: seq<AstExpr>, rest: seq<Token>)
    requires es != [] && !Accepts(Print(es[0], 0), ")")
    ensures Print(es[0], 0) != [] ==> !Accepts(PrintOperands(es) + rest, ")")
  {
    if Print(es[0], 0) != [] {
      assert (PrintOperands(es) + rest)[0] == Print(es[0], 0)[0];
    }
  }

  lemma {:induction false} OperandsReadBack(controlled: bool, es: seq<AstExpr>, rest: seq<Token>)
    requires es != [] && forall i | 0 <= i < |es| :: Writable(controlled, es[i]) && Unmistakable(es[i])
    ensures ParseOperands(controlled, PrintOperands(es) + rest) == Some(Parsed(es, rest))
    decreases es, 4
  {
    hide ParseExpr, Print, PrintOperands, Writable, Unmistakable;
    var after := AfterFirstOperand(es, rest);
    OperandsBegin(es, rest);
    MarksStop(after);
    ExprReadsBack(controlled, es[0], 0, 0, after);
    if |es| == 1 {
      assert es == [es[0]];
    } else {
      OperandsReadBack(controlled, es[1..], rest);
      assert es == [es[0]] + es[1..];
    }
  }

  lemma {:induction false} ArgumentsReadBack(controlled: bool, args: seq<AstArgument>, separator: string, rest: seq<Token>)
    requires separator == ":" || separator == "="
    requires forall i | 0 <= i < |args| :: Word(args[i].name) && Writable(controlled, args[i].value) && Unmistakable(args[i].value)
    ensures ParseArguments(controlled, PrintArguments(args, separator) + rest, separator) == Some(Parsed(args, rest))
    decreases args, 4
  {
    if args == [] {
      assert (PrintArguments(args, separator) + rest)[1..] == rest;
    } else {
      NamedReadBack(controlled, args, separator, rest);
      assert (PrintArguments(args, separator) + rest)[0] == IdentifierToken(args[0].name);
      WordsAreNoMarks(args[0].name);
    }
  }

  lemma WordsAreNoMarks(s: string)
    requires Word(s)
    ensures s != ")" && s != "(" && s != "." && s != "," && s != "read"
  {
    assert Letter(s[0]);
  }

  lemma {:induction false} NamedReadBack(controlled: bool, args: seq<AstArgument>, separator: string, rest: seq<Token>)
    requires args != [] && (separator == ":" || separator == "=")
    requires forall i | 0 <= i < |args| :: Word(args[i].name) && Writable(controlled, args[i].value) && Unmistakable(args[i].value)
    ensures ParseNamed(controlled, PrintArguments(args, separator) + rest, separator) == Some(Parsed(args, rest))
    decreases args, 3
  {
    hide ParseExpr, Print, PrintArguments, Writable, Unmistakable, Word;
    var ts := PrintArguments(args, separator) + rest;
    var e := args[0].value;
    var after := AfterFirst(args, separator, rest);
    ArgumentsBegin(args, separator, rest);
    MarksStop(after);
    ExprReadsBack(controlled, e, 0, 0, after);
    assert AstArgument(args[0].name, e) == args[0];
    if |args| == 1 {
      assert args == [args[0]];
    } else {
      NamedReadBack(controlled, args[1..], separator, rest);
      assert args == [args[0]] + args[1..];
    }
  }

  function AfterFirstOperand(es: seq<AstExpr>, rest: seq<Token>): seq<Token>
    requires es != []
  {
    if |es| == 1 then [SymbolToken(")")] + rest else [SymbolToken(",")] + (PrintOperands(es[1..]) + rest)
  }

  lemma OperandsBegin(es: seq<AstExpr>, rest: seq<Token>)
    requires es != []
    ensures PrintOperands(es) + rest == Print(es[0], 0) + AfterFirstOperand(es, rest)
    ensures AfterFirstOperand(es, rest)[1..] == if |es| == 1 then rest else PrintOperands(es[1..]) + rest
  {
    var first := Print(es[0], 0);
    if |es| == 1 {
      Regroup([], first, [SymbolToken(")")], rest);
    } else {
      var more := PrintOperands(es[1..]);
      Regroup([], first, [SymbolToken(",")] + more, rest);
      Regroup([], [SymbolToken(",")], more, rest);
    }
    hide Print, PrintOperands;
  }

  // What follows the first argument.
  function AfterFirst(args: seq<AstArgument>, separator: string, rest: seq<Token>): seq<Token>
    requires args != []
  {
    if |args| == 1 then [SymbolToken(")")] + rest else [SymbolToken(",")] + (PrintArguments(args[1..], separator) + rest)
  }

  lemma ArgumentsBegin(args: seq<AstArgument>, separator: string, rest: seq<Token>)
    requires args != []
    ensures var ts := PrintArguments(args, separator) + rest;
      |ts| >= 2 && ts[0] == IdentifierToken(args[0].name) && ts[1] == SymbolToken(separator)
      && ts[2..] == Print(args[0].value, 0) + AfterFirst(args, separator, rest)
    ensures AfterFirst(args, separator, rest)[1..] == if |args| == 1 then rest else PrintArguments(args[1..], separator) + rest
  {
    var head := [IdentifierToken(args[0].name), SymbolToken(separator)];
    var first := Print(args[0].value, 0);
    if |args| == 1 {
      Regroup(head, first, [SymbolToken(")")], rest);
    } else {
      var more := PrintArguments(args[1..], separator);
      Regroup(head, first, [SymbolToken(",")] + more, rest);
      Regroup([], [SymbolToken(",")], more, rest);
    }
    hide Print, PrintArguments;
  }

  lemma Regroup(head: seq<Token>, first: seq<Token>, last: seq<Token>, rest: seq<Token>)
    ensures head + first + last + rest == head + (first + (last + rest))
    ensures (head + (first + (last + rest)))[|head|..] == first + (last + rest)
    ensures head == [] ==> first + last + rest == first + (last + rest)
  {
  }

  lemma MarksStop(ts: seq<Token>)
    requires ts != [] && (ts[0] == SymbolToken(")") || ts[0] == SymbolToken(","))
    ensures NextOperator(ts) == None && forall n :: Stops(ts, n)
  {
  }

  lemma {:induction false} ReadReadsBack(controlled: bool, e: AstExpr, rest: seq<Token>)
    requires e.ARead? && Writable(controlled, e) && Unmistakable(e)
    ensures ParsePrimary(controlled, PrintBare(e) + rest) == Some(Parsed(e, rest))
    decreases e, 0
  {
    hide Print, PrintArguments, ParseArguments, ParseQualifiedName, PrintQualifiedName;
    var ts := PrintBare(e) + rest;
    var arguments := PrintArguments(e.arguments, ":") + rest;
    var call := [SymbolToken("(")] + arguments;
    assert ts == [SymbolToken("read")] + (PrintQualifiedName(e.tool) + call) by {
      Regroup([SymbolToken("read")] + PrintQualifiedName(e.tool), [SymbolToken("(")], PrintArguments(e.arguments, ":"), rest);
    }
    assert call[1..] == arguments;
    hide PrintBare;
    QualifiedNameReadsBack(e.tool, call);
    ArgumentsReadBack(controlled, e.arguments, ":", rest);
  }

  lemma {:induction false} WriteReadsBack(controlled: bool, e: AstExpr, rest: seq<Token>)
    requires e.AWrite? && Writable(controlled, e) && Unmistakable(e)
    ensures ParsePrimary(controlled, PrintBare(e) + rest) == Some(Parsed(e, rest))
    decreases e, 0
  {
    hide Print, PrintArguments, ParseArguments, ParseQualifiedName, PrintQualifiedName;
    var ts := PrintBare(e) + rest;
    var ending := [SymbolToken("approved_by"), IdentifierToken(e.approval)];
    var approval := ending + rest;
    var arguments := PrintArguments(e.arguments, "=") + approval;
    var call := [SymbolToken("(")] + arguments;
    assert ts == [SymbolToken("write")] + (PrintQualifiedName(e.tool) + call) by {
      Regroup([SymbolToken("write")] + PrintQualifiedName(e.tool) + [SymbolToken("(")], PrintArguments(e.arguments, "="), ending, rest);
    }
    assert approval[2..] == rest && call[1..] == arguments;
    hide PrintBare;
    QualifiedNameReadsBack(e.tool, call);
    ArgumentsReadBack(controlled, e.arguments, "=", approval);
  }

  // ---------- and only then ----------

  // The string tokens of a list, and the string literals of a tree.
  function Strings(ts: seq<Token>): nat {
    if ts == [] then 0 else (if ts[0].StringToken? then 1 else 0) + Strings(ts[1..])
  }

  function Texts(e: AstExpr): nat
    decreases e, 0
  {
    match e
    case ALiteral(v, _) => if v.VString? then 1 else 0
    case APath(_, _) => 0
    case ACall(_, operands) => OperandTexts(operands)
    case ARead(_, arguments) => ArgumentTexts(arguments)
    case AWrite(_, arguments, _) => ArgumentTexts(arguments)
    case ABinary(_, left, right) => Texts(left) + Texts(right)
  }

  function OperandTexts(es: seq<AstExpr>): nat
    decreases es, 1
  {
    if es == [] then 0 else Texts(es[0]) + OperandTexts(es[1..])
  }

  function ArgumentTexts(args: seq<AstArgument>): nat
    decreases args, 1
  {
    if args == [] then 0 else Texts(args[0].value) + ArgumentTexts(args[1..])
  }

  lemma {:induction false} StringsJoin(a: seq<Token>, b: seq<Token>)
    ensures Strings(a + b) == Strings(a) + Strings(b)
    decreases |a|
  {
    if a == [] {
      assert a + b == b;
    } else {
      assert (a + b)[1..] == a[1..] + b;
      StringsJoin(a[1..], b);
    }
  }

  lemma {:induction false} StringsAfter(ts: seq<Token>, n: nat)
    requires n <= |ts|
    ensures Strings(ts) == Strings(ts[..n]) + Strings(ts[n..])
  {
    assert ts == ts[..n] + ts[n..];
    StringsJoin(ts[..n], ts[n..]);
  }

  // ---------- the parser never finds more literals than there are string tokens ----------

  lemma {:induction false} TailKeepsStrings(ts: seq<Token>)
    ensures ParseTail(ts).Some? ==> Strings(ParseTail(ts).value.rest) <= Strings(ts)
    decreases |ts|
  {
    if Accepts(ts, ".") && |ts| >= 2 && ts[1].IdentifierToken? {
      StringsAfter(ts, 2);
      TailKeepsStrings(ts[2..]);
    }
  }

  lemma {:induction false} QualifiedNameKeepsStrings(ts: seq<Token>)
    ensures ParseQualifiedName(ts).Some? ==> Strings(ParseQualifiedName(ts).value.rest) <= Strings(ts)
  {
    if ts != [] {
      TailKeepsStrings(ts[1..]);
    }
  }

  predicate Within(r: Option<Parsed<AstExpr>>, strings: nat) {
    r.Some? ==> Texts(r.value.value) + Strings(r.value.rest) <= strings
  }

  lemma {:induction false} ExprIsWithin(controlled: bool, ts: seq<Token>, minimum: nat)
    ensures Within(ParseExpr(controlled, ts, minimum), Strings(ts))
    decreases |ts|, 3
  {
    PrimaryIsWithin(controlled, ts);
    var p := ParsePrimary(controlled, ts);
    if p.Some? {
      ContinueIsWithin(controlled, p.value.value, p.value.rest, minimum);
    }
  }

  lemma {:induction false} ContinueIsWithin(controlled: bool, left: AstExpr, ts: seq<Token>, minimum: nat)
    ensures Within(Continue(controlled, left, ts, minimum), Texts(left) + Strings(ts))
    decreases |ts|, 4
  {
    var op := NextOperator(ts);
    if op.Some? && Precedence(op.value) >= minimum {
      ExprIsWithin(controlled, ts[1..], Precedence(op.value) + 1);
      var p := ParseExpr(controlled, ts[1..], Precedence(op.value) + 1);
      hide ParseExpr;
      if p.Some? {
        ContinueIsWithin(controlled, ABinary(op.value, left, p.value.value), p.value.rest, minimum);
      }
    }
  }

  lemma {:induction false} PrimaryIsWithin(controlled: bool, ts: seq<Token>)
    ensures Within(ParsePrimary(controlled, ts), Strings(ts))
    decreases |ts|, 2
  {
    hide ParseExpr, ParseCall, ParseRead, ParseWrite, ParseTail;
    if ts != [] && !(ts[0].IntegerToken? || ts[0].DecimalToken? || ts[0].StringToken? || ts[0].BooleanToken?) {
      if HasText(ts[0], "read") {
        ReadIsWithin(controlled, ts[1..]);
      } else if controlled && ts[0] == SymbolToken("write") {
        WriteIsWithin(controlled, ts[1..]);
      } else if ts[0].IdentifierToken? {
        if Accepts(ts[1..], "(") {
          StringsAfter(ts, 2);
          CallIsWithin(controlled, ts[0].s, ts[2..]);
        } else {
          TailKeepsStrings(ts[1..]);
        }
      } else if HasText(ts[0], "(") {
        ExprIsWithin(controlled, ts[1..], 0);
      }
    }
  }

  lemma {:induction false} CallIsWithin(controlled: bool, name: string, ts: seq<Token>)
    ensures Within(ParseCall(controlled, name, ts), Strings(ts))
    decreases |ts|, 5
  {
    hide ParseOperands;
    if Accepts(ts, ")") {
      assert Texts(ACall(name, [])) == OperandTexts([]) == 0;
    } else {
      OperandsAreWithin(controlled, ts);
    }
  }

  lemma {:induction false} OperandsAreWithin(controlled: bool, ts: seq<Token>)
    ensures var r := ParseOperands(controlled, ts); r.Some? ==> OperandTexts(r.value.value) + Strings(r.value.rest) <= Strings(ts)
    decreases |ts|, 4
  {
    ExprIsWithin(controlled, ts, 0);
    var p := ParseExpr(controlled, ts, 0);
    hide ParseExpr;
    if p.Some? && !Accepts(p.value.rest, ")") && Accepts(p.value.rest, ",") {
      OperandsAreWithin(controlled, p.value.rest[1..]);
      var q := ParseOperands(controlled, p.value.rest[1..]);
      if q.Some? {
        assert ([p.value.value] + q.value.value)[1..] == q.value.value;
      }
    }
  }

  lemma {:induction false} ReadIsWithin(controlled: bool, ts: seq<Token>)
    ensures Within(ParseRead(controlled, ts), Strings(ts))
    decreases |ts|, 5
  {
    QualifiedNameKeepsStrings(ts);
    var tool := ParseQualifiedName(ts);
    hide ParseQualifiedName, ParseArguments;
    if tool.Some? && Accepts(tool.value.rest, "(") {
      ArgumentsAreWithin(controlled, tool.value.rest[1..], ":");
    }
  }

  lemma {:induction false} WriteIsWithin(controlled: bool, ts: seq<Token>)
    ensures Within(ParseWrite(controlled, ts), Strings(ts))
    decreases |ts|, 5
  {
    QualifiedNameKeepsStrings(ts);
    var tool := ParseQualifiedName(ts);
    hide ParseQualifiedName, ParseArguments;
    if tool.Some? && Accepts(tool.value.rest, "(") {
      ArgumentsAreWithin(controlled, tool.value.rest[1..], "=");
      var p := ParseArguments(controlled, tool.value.rest[1..], "=");
      if p.Some? && |p.value.rest| >= 2 {
        StringsAfter(p.value.rest, 2);
      }
    }
  }

  lemma {:induction false} ArgumentsAreWithin(controlled: bool, ts: seq<Token>, separator: string)
    ensures var r := ParseArguments(controlled, ts, separator); r.Some? ==> ArgumentTexts(r.value.value) + Strings(r.value.rest) <= Strings(ts)
    decreases |ts|, 5
  {
    hide ParseNamed;
    if !Accepts(ts, ")") {
      NamedAreWithin(controlled, ts, separator);
    }
  }

  lemma {:induction false} NamedAreWithin(controlled: bool, ts: seq<Token>, separator: string)
    ensures var r := ParseNamed(controlled, ts, separator); r.Some? ==> ArgumentTexts(r.value.value) + Strings(r.value.rest) <= Strings(ts)
    decreases |ts|, 4
  {
    if |ts| >= 2 && ts[0].IdentifierToken? && HasText(ts[1], separator) {
      StringsAfter(ts, 2);
      ExprIsWithin(controlled, ts[2..], 0);
      var p := ParseExpr(controlled, ts[2..], 0);
      hide ParseExpr;
      if p.Some? && !Accepts(p.value.rest, ")") && Accepts(p.value.rest, ",") {
        NamedAreWithin(controlled, p.value.rest[1..], separator);
        var q := ParseNamed(controlled, p.value.rest[1..], separator);
        if q.Some? {
          assert ([AstArgument(ts[0].s, p.value.value)] + q.value.value)[1..] == q.value.value;
        }
      }
    }
  }

  // ---------- a mistaken call loses a literal for good ----------

  predicate Loses(r: Option<Parsed<AstExpr>>, strings: nat) {
    r.Some? ==> Texts(r.value.value) + Strings(r.value.rest) < strings
  }

  lemma {:induction false} MistakenExprLoses(controlled: bool, e: AstExpr, place: nat, minimum: nat, rest: seq<Token>)
    requires Writable(controlled, e) && !Unmistakable(e) && place >= minimum && Stops(rest, place + 1)
    ensures Loses(ParseExpr(controlled, Print(e, place) + rest, minimum), Strings(Print(e, place) + rest))
    decreases e, 3
  {
    var ts := Print(e, place) + rest;
    if e.ABinary? && Precedence(e.op) < place {
      var close := [SymbolToken(")")] + rest;
      assert ts == [SymbolToken("(")] + (PrintBare(e) + close) && ts[1..] == PrintBare(e) + close;
      MistakenBinaryLoses(controlled, e, 0, close);
      LosingPrimary(controlled, ts, minimum);
    } else if e.ABinary? {
      MistakenBinaryLoses(controlled, e, minimum, rest);
    } else {
      MistakenPrimaryLoses(controlled, e, rest);
      LosingPrimary(controlled, ts, minimum);
    }
  }

  // What the first part has lost, the operators after it do not find again.
  lemma LosingPrimary(controlled: bool, ts: seq<Token>, minimum: nat)
    requires Loses(ParsePrimary(controlled, ts), Strings(ts))
    ensures Loses(ParseExpr(controlled, ts, minimum), Strings(ts))
  {
    hide ParsePrimary, Continue;
    var p := ParsePrimary(controlled, ts);
    if p.Some? {
      ContinueIsWithin(controlled, p.value.value, p.value.rest, minimum);
    }
  }

  // A printed operator application: its left operand, then the sign and the right operand.
  function AfterLeft(e: AstExpr, rest: seq<Token>): seq<Token>
    requires e.ABinary?
  {
    [SymbolToken(OperatorText(e.op))] + (Print(e.right, Precedence(e.op) + 1) + rest)
  }

  lemma BinaryBegins(e: AstExpr, rest: seq<Token>)
    requires e.ABinary?
    ensures PrintBare(e) + rest == Print(e.left, Precedence(e.op)) + AfterLeft(e, rest)
    ensures var after := AfterLeft(e, rest);
      && after != [] && NextOperator(after) == Some(e.op) && Stops(after, Precedence(e.op) + 1)
      && after[1..] == Print(e.right, Precedence(e.op) + 1) + rest && Strings(after) == Strings(after[1..])
  {
    var sign := [SymbolToken(OperatorText(e.op))];
    assert PrintBare(e) == Print(e.left, Precedence(e.op)) + sign + Print(e.right, Precedence(e.op) + 1);
    hide Print, PrintBare;
    Regroup(Print(e.left, Precedence(e.op)), sign, Print(e.right, Precedence(e.op) + 1), rest);
    OperatorTextsDiffer();
  }

  lemma BinaryParts(controlled: bool, e: AstExpr)
    requires e.ABinary?
    ensures Writable(controlled, e) <==> Writable(controlled, e.left) && Writable(controlled, e.right)
    ensures Unmistakable(e) <==> Unmistakable(e.left) && Unmistakable(e.right)
  {
  }

  lemma StopsEarlier(ts: seq<Token>, minimum: nat)
    requires Stops(ts, minimum)
    ensures Stops(ts, minimum + 1)
  {
  }

  lemma {:induction false} MistakenBinaryLoses(controlled: bool, e: AstExpr, minimum: nat, rest: seq<Token>)
    requires e.ABinary? && Writable(controlled, e) && !Unmistakable(e) && Precedence(e.op) >= minimum && Stops(rest, Precedence(e.op) + 1)
    ensures Loses(ParseExpr(controlled, PrintBare(e) + rest, minimum), Strings(PrintBare(e) + rest))
    decreases e, 2
  {
    hide *;
    var p := Precedence(e.op);
    var after := AfterLeft(e, rest);
    BinaryBegins(e, rest);
    BinaryParts(controlled, e);
    StopsEarlier(rest, p + 1);
    if !Unmistakable(e.left) {
      MistakenExprLoses(controlled, e.left, p, minimum, after);
    } else {
      ExprReadsBack(controlled, e.left, p, minimum, after);
      MistakenExprLoses(controlled, e.right, p + 1, p + 1, rest);
      PrintedTexts(controlled, e.left, p);
      StringsJoin(Print(e.left, p), after);
      LosingRight(controlled, e.left, e.op, after, minimum);
    }
  }

  // What the right operand has lost, the operators after it do not find again.
  lemma LosingRight(controlled: bool, left: AstExpr, op: BinOp, ts: seq<Token>, minimum: nat)
    requires NextOperator(ts) == Some(op) && Precedence(op) >= minimum && Strings(ts) == Strings(ts[1..])
    requires Loses(ParseExpr(controlled, ts[1..], Precedence(op) + 1), Strings(ts[1..]))
    ensures Loses(Continue(controlled, left, ts, minimum), Texts(left) + Strings(ts))
  {
    hide ParseExpr, Strings;
    var q := ParseExpr(controlled, ts[1..], Precedence(op) + 1);
    if q.Some? {
      ContinueIsWithin(controlled, ABinary(op, left, q.value.value), q.value.rest, minimum);
    }
  }

  lemma {:induction false} MistakenPrimaryLoses(controlled: bool, e: AstExpr, rest: seq<Token>)
    requires !e.ABinary? && Writable(controlled, e) && !Unmistakable(e)
    ensures Loses(ParsePrimary(controlled, PrintBare(e) + rest), Strings(PrintBare(e) + rest))
    decreases e, 1
  {
    match e
    case ACall(_, _) => MistakenCallLoses(controlled, e, rest);
    case ARead(_, _) => MistakenReadLoses(controlled, e, rest);
    case AWrite(_, _, _) => MistakenWriteLoses(controlled, e, rest);
  }

  lemma {:induction false} MistakenCallLoses(controlled: bool, e: AstExpr, rest: seq<Token>)
    requires e.ACall? && Writable(controlled, e) && !Unmistakable(e)
    ensures Loses(ParsePrimary(controlled, PrintBare(e) + rest), Strings(PrintBare(e) + rest))
    decreases e, 0
  {
    var ts := PrintBare(e) + rest;
    var inner := PrintOperands(e.operands) + rest;
    WordsAreNoMarks(e.name);
    assert ts == [IdentifierToken(e.name), SymbolToken("(")] + inner && ts[1..] == [SymbolToken("(")] + inner && ts[2..] == inner;
    assert ParsePrimary(controlled, ts) == ParseCall(controlled, e.name, inner);
    StringsAfter(ts, 2);
    OperandsBegin(e.operands, rest);
    if Accepts(Print(e.operands[0], 0), ")") {
      FirstTokenIsText(controlled, e.operands[0], 0);
      assert inner[0] == Print(e.operands[0], 0)[0];
      assert inner[0].StringToken?;
    } else {
      PrintedSomething(controlled, e.operands[0], 0);
      OperandsBeginLikeTheFirst(e.operands, rest);
      MistakenOperandsLose(controlled, e.operands, rest);
    }
  }

  // A printed expression begins with a token, and with the text of a mark only as a string literal.
  lemma {:induction false} PrintedSomething(controlled: bool, e: AstExpr, minimum: nat)
    requires Writable(controlled, e)
    ensures Print(e, minimum) != []
    decreases e, 1
  {
    if e.ABinary? {
      PrintedSomething(controlled, e.left, Precedence(e.op));
    }
  }

  lemma {:induction false} FirstTokenIsText(controlled: bool, e: AstExpr, minimum: nat)
    requires Writable(controlled, e) && Accepts(Print(e, minimum), ")")
    ensures Print(e, minimum)[0].StringToken?
    decreases e, 1
  {
    match e
    case ABinary(op, left, _) =>
      PrintedSomething(controlled, left, Precedence(op));
      if Precedence(op) >= minimum {
        assert Print(e, minimum)[0] == Print(left, Precedence(op))[0];
        FirstTokenIsText(controlled, left, Precedence(op));
      }
    case APath(root, _) => WordsAreNoMarks(root);
    case ACall(name, _) => WordsAreNoMarks(name);
    case _ =>
  }

  lemma {:induction false} MistakenOperandsLose(controlled: bool, es: seq<AstExpr>, rest: seq<Token>)
    requires es != [] && forall i | 0 <= i < |es| :: Writable(controlled, es[i])
    requires exists i :: 0 <= i < |es| && !Unmistakable(es[i])
    ensures var ts := PrintOperands(es) + rest; var r := ParseOperands(controlled, ts);
      r.Some? ==> OperandTexts(r.value.value) + Strings(r.value.rest) < Strings(ts)
    decreases es, 4
  {
    var ts := PrintOperands(es) + rest;
    hide ParseExpr, Print, PrintOperands, Writable, Unmistakable;
    var after := AfterFirstOperand(es, rest);
    OperandsBegin(es, rest);
    MarksStop(after);
    if !Unmistakable(es[0]) {
      MistakenExprLoses(controlled, es[0], 0, 0, after);
      LosingOperands(controlled, ts);
    } else {
      ExprReadsBack(controlled, es[0], 0, 0, after);
      assert Continue(controlled, es[0], after, 0) == Some(Parsed(es[0], after));
      assert |es| > 1 && after[0] == SymbolToken(",");
      assert exists i :: 0 <= i < |es[1..]| && !Unmistakable(es[1..][i]) by {
        var i :| 0 <= i < |es| && !Unmistakable(es[i]);
        assert es[1..][i - 1] == es[i];
      }
      MistakenOperandsLose(controlled, es[1..], rest);
      PrintedTexts(controlled, es[0], 0);
      StringsJoin(Print(es[0], 0), after);
      var q := ParseOperands(controlled, after[1..]);
      if q.Some? {
        assert ([es[0]] + q.value.value)[1..] == q.value.value;
      }
    }
  }

  lemma LosingOperands(controlled: bool, ts: seq<Token>)
    requires Loses(ParseExpr(controlled, ts, 0), Strings(ts))
    ensures var r := ParseOperands(controlled, ts); r.Some? ==> OperandTexts(r.value.value) + Strings(r.value.rest) < Strings(ts)
  {
    var p := ParseExpr(controlled, ts, 0);
    hide ParseExpr;
    if p.Some? && !Accepts(p.value.rest, ")") && Accepts(p.value.rest, ",") {
      OperandsAreWithin(controlled, p.value.rest[1..]);
      var q := ParseOperands(controlled, p.value.rest[1..]);
      if q.Some? {
        assert ([p.value.value] + q.value.value)[1..] == q.value.value;
      }
    }
  }

  lemma {:induction false} MistakenNamedLose(controlled: bool, args: seq<AstArgument>, separator: string, rest: seq<Token>)
    requires args != [] && (separator == ":" || separator == "=")
    requires forall i | 0 <= i < |args| :: Word(args[i].name) && Writable(controlled, args[i].value)
    requires exists i :: 0 <= i < |args| && !Unmistakable(args[i].value)
    ensures var ts := PrintArguments(args, separator) + rest; var r := ParseArguments(controlled, ts, separator);
      r.Some? ==> ArgumentTexts(r.value.value) + Strings(r.value.rest) < Strings(ts)
    decreases args, 4
  {
    var ts := PrintArguments(args, separator) + rest;
    WordsAreNoMarks(args[0].name);
    hide ParseExpr, Print, PrintArguments, Writable, Unmistakable, Word;
    var e := args[0].value;
    var after := AfterFirst(args, separator, rest);
    ArgumentsBegin(args, separator, rest);
    MarksStop(after);
    StringsAfter(ts, 2);
    assert Strings(ts[..2]) == 0;
    if !Unmistakable(e) {
      MistakenExprLoses(controlled, e, 0, 0, after);
      LosingNamed(controlled, ts, separator);
    } else {
      ExprReadsBack(controlled, e, 0, 0, after);
      assert Continue(controlled, e, after, 0) == Some(Parsed(e, after));
      assert |args| > 1 && after[0] == SymbolToken(",");
      assert exists i :: 0 <= i < |args[1..]| && !Unmistakable(args[1..][i].value) by {
        var i :| 0 <= i < |args| && !Unmistakable(args[i].value);
        assert args[1..][i - 1] == args[i];
      }
      MistakenNamedLose(controlled, args[1..], separator, rest);
      MoreArguments(controlled, args[1..], separator, rest);
      PrintedTexts(controlled, e, 0);
      StringsJoin(Print(e, 0), after);
      LosingMore(controlled, ts, separator, e, after);
    }
  }

  // What later arguments have lost, the earlier ones do not make up for.
  lemma LosingMore(controlled: bool, ts: seq<Token>, separator: string, e: AstExpr, after: seq<Token>)
    requires |ts| >= 2 && ts[0].IdentifierToken? && ts[1] == SymbolToken(separator) && ts[0].s != ")"
    requires ParseExpr(controlled, ts[2..], 0) == Some(Parsed(e, after)) && after != [] && after[0] == SymbolToken(",")
    requires Strings(ts[2..]) == Texts(e) + Strings(after)
    requires var q := ParseNamed(controlled, after[1..], separator); q.Some? ==> ArgumentTexts(q.value.value) + Strings(q.value.rest) < Strings(after[1..])
    ensures var r := ParseArguments(controlled, ts, separator); r.Some? ==> ArgumentTexts(r.value.value) + Strings(r.value.rest) < Strings(ts)
  {
    hide ParseExpr;
    StringsAfter(ts, 2);
    StringsAfter(after, 1);
    var q := ParseNamed(controlled, after[1..], separator);
    if q.Some? {
      assert ([AstArgument(ts[0].s, e)] + q.value.value)[1..] == q.value.value;
    }
  }

  // Where an argument is printed, the parser looks for one.
  lemma MoreArguments(controlled: bool, args: seq<AstArgument>, separator: string, rest: seq<Token>)
    requires args != [] && Word(args[0].name)
    ensures var ts := PrintArguments(args, separator) + rest; ParseArguments(controlled, ts, separator) == ParseNamed(controlled, ts, separator)
  {
    WordsAreNoMarks(args[0].name);
    ArgumentsBegin(args, separator, rest);
    hide ParseNamed, PrintArguments;
  }

  lemma LosingNamed(controlled: bool, ts: seq<Token>, separator: string)
    requires |ts| >= 2 && ts[0].IdentifierToken? && HasText(ts[1], separator) && !Accepts(ts, ")") && !ts[1].StringToken?
    requires Loses(ParseExpr(controlled, ts[2..], 0), Strings(ts[2..]))
    ensures var r := ParseArguments(controlled, ts, separator); r.Some? ==> ArgumentTexts(r.value.value) + Strings(r.value.rest) < Strings(ts)
  {
    StringsAfter(ts, 2);
    var p := ParseExpr(controlled, ts[2..], 0);
    hide ParseExpr;
    if p.Some? && !Accepts(p.value.rest, ")") && Accepts(p.value.rest, ",") {
      NamedAreWithin(controlled, p.value.rest[1..], separator);
      var q := ParseNamed(controlled, p.value.rest[1..], separator);
      if q.Some? {
        assert ([AstArgument(ts[0].s, p.value.value)] + q.value.value)[1..] == q.value.value;
      }
    }
  }

  lemma {:induction false} MistakenReadLoses(controlled: bool, e: AstExpr, rest: seq<Token>)
    requires e.ARead? && Writable(controlled, e) && !Unmistakable(e)
    ensures Loses(ParsePrimary(controlled, PrintBare(e) + rest), Strings(PrintBare(e) + rest))
    decreases e, 0
  {
    hide Print, PrintArguments, ParseArguments, ParseQualifiedName, PrintQualifiedName;
    var ts := PrintBare(e) + rest;
    var arguments := PrintArguments(e.arguments, ":") + rest;
    var call := [SymbolToken("(")] + arguments;
    assert ts == [SymbolToken("read")] + (PrintQualifiedName(e.tool) + call) by {
      Regroup([SymbolToken("read")] + PrintQualifiedName(e.tool), [SymbolToken("(")], PrintArguments(e.arguments, ":"), rest);
    }
    assert call[1..] == arguments && ts[1..] == PrintQualifiedName(e.tool) + call;
    hide PrintBare;
    QualifiedNameReadsBack(e.tool, call);
    MistakenNamedLose(controlled, e.arguments, ":", rest);
    StringsJoin(PrintQualifiedName(e.tool), call);
  }

  lemma {:induction false} MistakenWriteLoses(controlled: bool, e: AstExpr, rest: seq<Token>)
    requires e.AWrite? && Writable(controlled, e) && !Unmistakable(e)
    ensures Loses(ParsePrimary(controlled, PrintBare(e) + rest), Strings(PrintBare(e) + rest))
    decreases e, 0
  {
    hide Print, PrintArguments, ParseArguments, ParseQualifiedName, PrintQualifiedName;
    var ts := PrintBare(e) + rest;
    var ending := [SymbolToken("approved_by"), IdentifierToken(e.approval)];
    var arguments := PrintArguments(e.arguments, "=") + (ending + rest);
    var call := [SymbolToken("(")] + arguments;
    assert ts == [SymbolToken("write")] + (PrintQualifiedName(e.tool) + call) by {
      Regroup([SymbolToken("write")] + PrintQualifiedName(e.tool) + [SymbolToken("(")], PrintArguments(e.arguments, "="), ending, rest);
    }
    assert call[1..] == arguments && ts[1..] == PrintQualifiedName(e.tool) + call;
    hide PrintBare;
    QualifiedNameReadsBack(e.tool, call);
    MistakenNamedLose(controlled, e.arguments, "=", ending + rest);
    StringsJoin(PrintQualifiedName(e.tool), call);
    var p := ParseArguments(controlled, arguments, "=");
    if p.Some? && |p.value.rest| >= 2 {
      StringsAfter(p.value.rest, 2);
    }
  }

  // ---------- printing writes each literal once ----------

  lemma {:induction false} TailHasNoStrings(names: seq<string>)
    ensures Strings(PrintTail(names)) == 0
  {
    if names != [] {
      TailHasNoStrings(names[1..]);
      StringsJoin([SymbolToken("."), IdentifierToken(names[0])], PrintTail(names[1..]));
    }
  }

  lemma QualifiedNameHasNoStrings(text: string)
    ensures Strings(PrintQualifiedName(text)) == 0
  {
    var names := SplitDots(text);
    TailHasNoStrings(names[1..]);
    StringsJoin([IdentifierToken(names[0])], PrintTail(names[1..]));
  }

  lemma {:induction false} PrintedTexts(controlled: bool, e: AstExpr, minimum: nat)
    requires Writable(controlled, e)
    ensures Strings(Print(e, minimum)) == Texts(e)
    decreases e, 1
  {
    BareTexts(controlled, e);
    if e.ABinary? && Precedence(e.op) < minimum {
      StringsJoin([SymbolToken("(")] + PrintBare(e), [SymbolToken(")")]);
      StringsJoin([SymbolToken("(")], PrintBare(e));
    }
  }

  lemma {:induction false} BareTexts(controlled: bool, e: AstExpr)
    requires Writable(controlled, e)
    ensures Strings(PrintBare(e)) == Texts(e)
    decreases e, 0
  {
    match e
    case ALiteral(_, _) =>
    case APath(root, parts) =>
      TailHasNoStrings(parts);
      StringsJoin([IdentifierToken(root)], PrintTail(parts));
    case ACall(name, operands) =>
      OperandsTexts(controlled, operands);
      StringsJoin([IdentifierToken(name), SymbolToken("(")], PrintOperands(operands));
    case ARead(_, _) => ReadTexts(controlled, e);
    case AWrite(_, _, _) => WriteTexts(controlled, e);
    case ABinary(op, left, right) =>
      var sign := [SymbolToken(OperatorText(op))];
      PrintedTexts(controlled, left, Precedence(op));
      PrintedTexts(controlled, right, Precedence(op) + 1);
      StringsJoin(Print(left, Precedence(op)), sign);
      StringsJoin(Print(left, Precedence(op)) + sign, Print(right, Precedence(op) + 1));
      hide Print, Writable;
  }

  lemma {:induction false} ReadTexts(controlled: bool, e: AstExpr)
    requires e.ARead? && Writable(controlled, e)
    ensures Strings(PrintBare(e)) == Texts(e)
    decreases e, 0, 0
  {
    var name := [SymbolToken("read")] + PrintQualifiedName(e.tool);
    assert PrintBare(e) == name + [SymbolToken("(")] + PrintArguments(e.arguments, ":");
    hide PrintBare, PrintArguments, PrintQualifiedName;
    QualifiedNameHasNoStrings(e.tool);
    ArgumentsTexts(controlled, e.arguments, ":");
    StringsJoin([SymbolToken("read")], PrintQualifiedName(e.tool));
    StringsJoin(name, [SymbolToken("(")]);
    StringsJoin(name + [SymbolToken("(")], PrintArguments(e.arguments, ":"));
  }

  lemma {:induction false} WriteTexts(controlled: bool, e: AstExpr)
    requires e.AWrite? && Writable(controlled, e)
    ensures Strings(PrintBare(e)) == Texts(e)
    decreases e, 0, 0
  {
    var name := [SymbolToken("write")] + PrintQualifiedName(e.tool);
    var ending := [SymbolToken("approved_by"), IdentifierToken(e.approval)];
    assert PrintBare(e) == name + [SymbolToken("(")] + PrintArguments(e.arguments, "=") + ending;
    hide PrintBare, PrintArguments, PrintQualifiedName;
    QualifiedNameHasNoStrings(e.tool);
    ArgumentsTexts(controlled, e.arguments, "=");
    StringsJoin([SymbolToken("write")], PrintQualifiedName(e.tool));
    StringsJoin(name, [SymbolToken("(")]);
    StringsJoin(name + [SymbolToken("(")], PrintArguments(e.arguments, "="));
    StringsJoin(name + [SymbolToken("(")] + PrintArguments(e.arguments, "="), ending);
    StringsJoin([SymbolToken("approved_by")], [IdentifierToken(e.approval)]);
  }

  lemma {:induction false} OperandsTexts(controlled: bool, es: seq<AstExpr>)
    requires forall i | 0 <= i < |es| :: Writable(controlled, es[i])
    ensures Strings(PrintOperands(es)) == OperandTexts(es)
    decreases es, 2
  {
    if es != [] {
      PrintedTexts(controlled, es[0], 0);
      OperandsTexts(controlled, es[1..]);
      if |es| == 1 {
        StringsJoin(Print(es[0], 0), [SymbolToken(")")]);
      } else {
        StringsJoin([SymbolToken(",")], PrintOperands(es[1..]));
        StringsJoin(Print(es[0], 0), [SymbolToken(",")] + PrintOperands(es[1..]));
      }
    }
  }

  lemma {:induction false} ArgumentsTexts(controlled: bool, args: seq<AstArgument>, separator: string)
    requires forall i | 0 <= i < |args| :: Writable(controlled, args[i].value)
    ensures Strings(PrintArguments(args, separator)) == ArgumentTexts(args)
    decreases args, 2
  {
    if args != [] {
      PrintedTexts(controlled, args[0].value, 0);
      ArgumentsTexts(controlled, args[1..], separator);
      var head := [IdentifierToken(args[0].name), SymbolToken(separator)];
      StringsJoin(head, Print(args[0].value, 0));
      if |args| == 1 {
        StringsJoin(head + Print(args[0].value, 0), [SymbolToken(")")]);
      } else {
        StringsJoin([SymbolToken(",")], PrintArguments(args[1..], separator));
        StringsJoin(head + Print(args[0].value, 0), [SymbolToken(",")] + PrintArguments(args[1..], separator));
      }
    }
  }

  // ---------- the theorem ----------

  // Parsing the minimally parenthesised print of a tree gives the tree back exactly when no call in
  // it has a first operand that begins with the string literal ")": the parser compares tokens by
  // text, and takes that literal for the closing parenthesis of an empty call.
  lemma PrintingIsUndoneExactly(controlled: bool, e: AstExpr, rest: seq<Token>)
    requires Writable(controlled, e) && Stops(rest, 0)
    ensures ParseExpr(controlled, Print(e, 0) + rest, 0) == Some(Parsed(e, rest)) <==> Unmistakable(e)
  {
    hide ParseExpr, Print, Writable, Unmistakable;
    if Unmistakable(e) {
      ExprReadsBack(controlled, e, 0, 0, rest);
    } else {
      MistakenExprLoses(controlled, e, 0, 0, rest);
      PrintedTexts(controlled, e, 0);
      StringsJoin(Print(e, 0), rest);
    }
  }

  // ---------- every parsed literal is of its own type ----------

  predicate GivesProperLiterals(r: Option<Parsed<AstExpr>>) {
    r.Some? ==> LiteralsOk(r.value.value)
  }

  lemma {:induction false} ParsedLiteralsAreProper(controlled: bool, ts: seq<Token>, minimum: nat)
    ensures GivesProperLiterals(ParseExpr(controlled, ts, minimum))
    decreases |ts|, 3
  {
    PrimaryLiteralsAreProper(controlled, ts);
    var p := ParsePrimary(controlled, ts);
    if p.Some? {
      ContinuedLiteralsAreProper(controlled, p.value.value, p.value.rest, minimum);
    }
  }

  lemma {:induction false} ContinuedLiteralsAreProper(controlled: bool, left: AstExpr, ts: seq<Token>, minimum: nat)
    requires LiteralsOk(left)
    ensures GivesProperLiterals(Continue(controlled, left, ts, minimum))
    decreases |ts|, 4
  {
    var op := NextOperator(ts);
    if op.Some? && Precedence(op.value) >= minimum {
      ParsedLiteralsAreProper(controlled, ts[1..], Precedence(op.value) + 1);
      var p := ParseExpr(controlled, ts[1..], Precedence(op.value) + 1);
      hide ParseExpr;
      if p.Some? {
        ContinuedLiteralsAreProper(controlled, ABinary(op.value, left, p.value.value), p.value.rest, minimum);
      }
    }
  }

  lemma {:induction false} PrimaryLiteralsAreProper(controlled: bool, ts: seq<Token>)
    ensures GivesProperLiterals(ParsePrimary(controlled, ts))
    decreases |ts|, 2
  {
    hide ParseExpr, ParseOperands, ParseArguments, ParseQualifiedName, ParseTail;
    if ts != [] && !(ts[0].IntegerToken? || ts[0].DecimalToken? || ts[0].StringToken? || ts[0].BooleanToken?) {
      if HasText(ts[0], "read") || (controlled && ts[0] == SymbolToken("write")) {
        var tool := ParseQualifiedName(ts[1..]);
        if tool.Some? && Accepts(tool.value.rest, "(") {
          var separator := if HasText(ts[0], "read") then ":" else "=";
          ArgumentLiteralsAreProper(controlled, tool.value.rest[1..], separator);
          var p := ParseArguments(controlled, tool.value.rest[1..], separator);
          if p.Some? {
            ToolCallLiteralsAreProper(tool.value.value, p.value.value);
          }
        }
      } else if ts[0].IdentifierToken? {
        if Accepts(ts[1..], "(") && !Accepts(ts[2..], ")") {
          OperandLiteralsAreProper(controlled, ts[2..]);
        }
      } else if HasText(ts[0], "(") {
        ParsedLiteralsAreProper(controlled, ts[1..], 0);
      }
    }
  }

  predicate ProperOperands(es: seq<AstExpr>) {
    forall i | 0 <= i < |es| :: LiteralsOk(es[i])
  }

  lemma OneMoreProperOperand(first: AstExpr, rest: seq<AstExpr>)
    requires LiteralsOk(first) && ProperOperands(rest)
    ensures ProperOperands([first] + rest)
  {
    var all := [first] + rest;
    forall i | 0 <= i < |all| ensures LiteralsOk(all[i]) {
      assert i > 0 ==> all[i] == rest[i - 1];
    }
  }

  lemma {:induction false} OperandLiteralsAreProper(controlled: bool, ts: seq<Token>)
    ensures var r := ParseOperands(controlled, ts); r.Some? ==> ProperOperands(r.value.value)
    decreases |ts|, 4
  {
    ParsedLiteralsAreProper(controlled, ts, 0);
    var p := ParseExpr(controlled, ts, 0);
    hide ParseExpr, LiteralsOk;
    if p.Some? {
      OneMoreProperOperand(p.value.value, []);
      if !Accepts(p.value.rest, ")") && Accepts(p.value.rest, ",") {
        OperandLiteralsAreProper(controlled, p.value.rest[1..]);
        var q := ParseOperands(controlled, p.value.rest[1..]);
        if q.Some? {
          OneMoreProperOperand(p.value.value, q.value.value);
        }
      }
    }
  }

  lemma {:induction false} ArgumentLiteralsAreProper(controlled: bool, ts: seq<Token>, separator: string)
    ensures var r := ParseArguments(controlled, ts, separator); r.Some? ==> ProperArguments(r.value.value)
    decreases |ts|, 5
  {
    hide ParseNamed;
    if !Accepts(ts, ")") {
      NamedLiteralsAreProper(controlled, ts, separator);
    }
  }

  lemma {:induction false} NamedLiteralsAreProper(controlled: bool, ts: seq<Token>, separator: string)
    ensures var r := ParseNamed(controlled, ts, separator); r.Some? ==> ProperArguments(r.value.value)
    decreases |ts|, 4
  {
    if |ts| >= 2 && ts[0].IdentifierToken? && HasText(ts[1], separator) {
      ParsedLiteralsAreProper(controlled, ts[2..], 0);
      var p := ParseExpr(controlled, ts[2..], 0);
      hide ParseExpr, LiteralsOk;
      if p.Some? {
        OneMoreProper(AstArgument(ts[0].s, p.value.value), []);
      }
      if p.Some? && !Accepts(p.value.rest, ")") && Accepts(p.value.rest, ",") {
        NamedLiteralsAreProper(controlled, p.value.rest[1..], separator);
        var q := ParseNamed(controlled, p.value.rest[1..], separator);
        if q.Some? {
          var first := AstArgument(ts[0].s, p.value.value);
          OneMoreProper(first, q.value.value);
        }
      }
    }
  }

  predicate ProperArguments(args: seq<AstArgument>) {
    forall i | 0 <= i < |args| :: LiteralsOk(args[i].value)
  }

  lemma OneMoreProper(first: AstArgument, rest: seq<AstArgument>)
    requires LiteralsOk(first.value) && ProperArguments(rest)
    ensures ProperArguments([first] + rest)
  {
    var all := [first] + rest;
    forall i | 0 <= i < |all| ensures LiteralsOk(all[i].value) {
      assert i > 0 ==> all[i] == rest[i - 1];
    }
  }

  lemma ToolCallLiteralsAreProper(tool: string, args: seq<AstArgument>)
    requires ProperArguments(args)
    ensures LiteralsOk(ARead(tool, args))
    ensures forall approval :: LiteralsOk(AWrite(tool, args, approval))
  {
  }

  // ---------- the parser, as it runs ----------

  function Prefixed<T>(done: seq<T>, rest: Option<Parsed<seq<T>>>): Option<Parsed<seq<T>>> {
    match rest case None => None case Some(p) => Some(Parsed(done + p.value, p.rest))
  }

  lemma PrefixedEnds<T>(done: seq<T>, x: T, rest: seq<Token>, more: Option<Parsed<seq<T>>>)
    ensures Prefixed(done, Some(Parsed([x], rest))) == Some(Parsed(done + [x], rest))
    ensures Prefixed(done, match more case None => None case Some(q) => Some(Parsed([x] + q.value, q.rest))) == Prefixed(done + [x], more)
    ensures Prefixed([], more) == more
  {
    if more.Some? {
      assert done + ([x] + more.value.value) == done + [x] + more.value.value;
      assert [] + more.value.value == more.value.value;
    }
  }

  // The end of the token list stands for the end-of-file token.
  class ExpressionParser {
    const tokens: seq<Token>
    const controlled: bool
    var index: nat

    constructor (tokens: seq<Token>, controlled: bool)
      ensures this.tokens == tokens && this.controlled == controlled && index == 0
    {
      this.tokens, this.controlled, index := tokens, controlled, 0;
    }

    function Ahead(): seq<Token>
      requires index <= |tokens|
      reads this
    {
      tokens[index..]
    }

    method Accept(text: string) returns (ok: bool)
      requires index <= |tokens|
      modifies this
      ensures ok == Accepts(old(Ahead()), text) && index == old(index) + (if ok then 1 else 0) <= |tokens|
      ensures Ahead() == if ok then old(Ahead())[1..] else old(Ahead())
    {
      ok := index < |tokens| && HasText(tokens[index], text);
      if ok {
        index := index + 1;
      }
    }

    method Identifier() returns (r: Option<string>)
      requires index <= |tokens|
      modifies this
      ensures r == if old(Ahead()) != [] && old(Ahead())[0].IdentifierToken? then Some(old(Ahead())[0].s) else None
      ensures index == old(index) + (if r.Some? then 1 else 0) <= |tokens|
      ensures Ahead() == if r.Some? then old(Ahead())[1..] else old(Ahead())
    {
      if index == |tokens| || !tokens[index].IdentifierToken? {
        return None;
      }
      r := Some(tokens[index].s);
      index := index + 1;
    }

    // Names after dots.
    method Tail() returns (r: Option<seq<string>>)
      requires index <= |tokens|
      modifies this
      ensures old(index) <= index <= |tokens|
      ensures match ParseTail(old(Ahead())) case None => r == None case Some(p) => r == Some(p.value) && Ahead() == p.rest
    {
      var names: seq<string> := [];
      PrefixedEnds<string>([], "", [], ParseTail(Ahead()));
      while true
        invariant old(index) <= index <= |tokens|
        invariant ParseTail(old(Ahead())) == Prefixed(names, ParseTail(Ahead()))
        decreases |tokens| - index
      {
        ghost var before := Ahead();
        var dot := Accept(".");
        if !dot {
          assert names + [] == names;
          return Some(names);
        }
        var name := Identifier();
        if name.None? {
          return None;
        }
        assert before[2..] == Ahead();
        PrefixedEnds(names, name.value, [], ParseTail(Ahead()));
        names := names + [name.value];
      }
    }

    method QualifiedName() returns (r: Option<string>)
      requires index <= |tokens|
      modifies this
      ensures old(index) <= index <= |tokens|
      ensures match ParseQualifiedName(old(Ahead())) case None => r == None case Some(p) => r == Some(p.value) && Ahead() == p.rest
    {
      var first := Identifier();
      if first.None? {
        return None;
      }
      var names := Tail();
      return match names case None => None case Some(rest) => Some(JoinDots([first.value] + rest));
    }

    method Expression(minimum: nat) returns (r: Option<AstExpr>)
      requires index <= |tokens|
      modifies this
      ensures old(index) <= index <= |tokens|
      ensures match ParseExpr(controlled, old(Ahead()), minimum) case None => r == None case Some(p) => r == Some(p.value) && Ahead() == p.rest
      decreases |tokens| - index, 3
    {
      hide ParsePrimary;
      var left := Primary();
      if left.None? {
        return None;
      }
      r := left;
      while true
        invariant old(index) < index <= |tokens| && r.Some?
        invariant ParseExpr(controlled, old(Ahead()), minimum) == Continue(controlled, r.value, Ahead(), minimum)
        decreases |tokens| - index
      {
        hide ParseExpr;
        var op := NextOperator(Ahead());
        if op.None? || Precedence(op.value) < minimum {
          return;
        }
        ghost var before := Ahead();
        index := index + 1;
        assert Ahead() == before[1..];
        var right := Expression(Precedence(op.value) + 1);
        if right.None? {
          return None;
        }
        r := Some(ABinary(op.value, r.value, right.value));
      }
    }

    method Primary() returns (r: Option<AstExpr>)
      requires index <= |tokens|
      modifies this
      ensures old(index) <= index <= |tokens| && (r.Some? ==> old(index) < index)
      ensures match ParsePrimary(controlled, old(Ahead())) case None => r == None case Some(p) => r == Some(p.value) && Ahead() == p.rest
      decreases |tokens| - index, 2
    {
      hide ParseExpr, ParseCall, ParseRead, ParseWrite, ParseTail;
      if index == |tokens| {
        return None;
      }
      var token := tokens[index];
      ghost var ahead := Ahead();
      index := index + 1;
      assert Ahead() == ahead[1..];
      if token.IntegerToken? {
        return Some(ALiteral(VInt(token.n), TInt));
      } else if token.DecimalToken? {
        return Some(ALiteral(VDecimal(token.d), TDecimal));
      } else if token.StringToken? {
        return Some(ALiteral(VString(token.s), TString));
      } else if token.BooleanToken? {
        return Some(ALiteral(VBool(token.b), TBool));
      } else if HasText(token, "read") {
        r := ToolCall(false);
      } else if controlled && token == SymbolToken("write") {
        r := ToolCall(true);
      } else if token.IdentifierToken? {
        var call := Accept("(");
        if call {
          assert Ahead() == ahead[2..];
          r := CallOf(token.s);
        } else {
          var parts := Tail();
          return match parts case None => None case Some(ps) => Some(APath(token.s, ps));
        }
      } else if HasText(token, "(") {
        r := Expression(0);
        if r.Some? {
          var closed := Accept(")");
          if !closed {
            return None;
          }
        }
      } else {
        return None;
      }
    }

    method CallOf(name: string) returns (r: Option<AstExpr>)
      requires index <= |tokens|
      modifies this
      ensures old(index) <= index <= |tokens|
      ensures match ParseCall(controlled, name, old(Ahead())) case None => r == None case Some(p) => r == Some(p.value) && Ahead() == p.rest
      decreases |tokens| - index, 5
    {
      hide ParseOperands;
      var empty := Accept(")");
      if empty {
        return Some(ACall(name, []));
      }
      var operands := Operands();
      return match operands case None => None case Some(es) => Some(ACall(name, es));
    }

    method Operands() returns (r: Option<seq<AstExpr>>)
      requires index <= |tokens|
      modifies this
      ensures old(index) <= index <= |tokens|
      ensures match ParseOperands(controlled, old(Ahead())) case None => r == None case Some(p) => r == Some(p.value) && Ahead() == p.rest
      decreases |tokens| - index, 4
    {
      hide ParseExpr;
      var operands: seq<AstExpr> := [];
      PrefixedEnds<AstExpr>([], ALiteral(VNull, TBool), [], ParseOperands(controlled, Ahead()));
      while true
        invariant old(index) <= index <= |tokens|
        invariant ParseOperands(controlled, old(Ahead())) == Prefixed(operands, ParseOperands(controlled, Ahead()))
        decreases |tokens| - index
      {
        ghost var before := Ahead();
        var e := Expression(0);
        if e.None? {
          return None;
        }
        ghost var after := Ahead();
        assert |after| < |before|;
        var closed := Accept(")");
        if closed {
          PrefixedEnds(operands, e.value, Ahead(), None);
          return Some(operands + [e.value]);
        }
        var comma := Accept(",");
        if !comma {
          return None;
        }
        PrefixedEnds(operands, e.value, [], ParseOperands(controlled, Ahead()));
        operands := operands + [e.value];
      }
    }

    // A READ, or a WRITE with the approval it is made under.
    method ToolCall(write: bool) returns (r: Option<AstExpr>)
      requires index <= |tokens|
      modifies this
      ensures old(index) <= index <= |tokens|
      ensures match (if write then ParseWrite(controlled, old(Ahead())) else ParseRead(controlled, old(Ahead())))
        case None => r == None
        case Some(p) => r == Some(p.value) && Ahead() == p.rest
      decreases |tokens| - index, 6
    {
      hide ParseQualifiedName, ParseArguments;
      var tool := QualifiedName();
      if tool.None? {
        return None;
      }
      var open := Accept("(");
      if !open {
        return None;
      }
      var arguments := Arguments(if write then "=" else ":");
      if arguments.None? {
        return None;
      }
      if !write {
        return Some(ARead(tool.value, arguments.value));
      }
      ghost var before := Ahead();
      var approved := Accept("approved_by");
      if !approved {
        return None;
      }
      var approval := Identifier();
      assert approval.Some? ==> Ahead() == before[2..];
      return match approval case None => None case Some(id) => Some(AWrite(tool.value, arguments.value, id));
    }

    method Arguments(separator: string) returns (r: Option<seq<AstArgument>>)
      requires index <= |tokens|
      modifies this
      ensures old(index) <= index <= |tokens|
      ensures match ParseArguments(controlled, old(Ahead()), separator) case None => r == None case Some(p) => r == Some(p.value) && Ahead() == p.rest
      decreases |tokens| - index, 5
    {
      hide ParseNamed;
      var empty := Accept(")");
      if empty {
        return Some([]);
      }
      r := NamedArguments(separator);
    }

    method NamedArguments(separator: string) returns (r: Option<seq<AstArgument>>)
      requires index <= |tokens|
      modifies this
      ensures old(index) <= index <= |tokens|
      ensures match ParseNamed(controlled, old(Ahead()), separator) case None => r == None case Some(p) => r == Some(p.value) && Ahead() == p.rest
      decreases |tokens| - index, 4
    {
      hide ParseExpr;
      var arguments: seq<AstArgument> := [];
      PrefixedEnds<AstArgument>([], AstArgument("", ALiteral(VNull, TBool)), [], ParseNamed(controlled, Ahead(), separator));
      while true
        invariant old(index) <= index <= |tokens|
        invariant ParseNamed(controlled, old(Ahead()), separator) == Prefixed(arguments, ParseNamed(controlled, Ahead(), separator))
        decreases |tokens| - index
      {
        ghost var before := Ahead();
        var name := Identifier();
        if name.None? {
          return None;
        }
        var separated := Accept(separator);
        if !separated {
          return None;
        }
        assert Ahead() == before[2..];
        var e := Expression(0);
        if e.None? {
          return None;
        }
        var argument := AstArgument(name.value, e.value);
        var closed := Accept(")");
        if closed {
          PrefixedEnds(arguments, argument, Ahead(), None);
          return Some(arguments + [argument]);
        }
        var comma := Accept(",");
        if !comma {
          return None;
        }
        PrefixedEnds(arguments, argument, [], ParseNamed(controlled, Ahead(), separator));
        arguments := arguments + [argument];
      }
    }
  }
}
