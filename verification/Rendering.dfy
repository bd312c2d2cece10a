// From text to trees and back: the lexer and the parser, one after the other.

module Rendering {
  import opened Wrappers
  import opened Core
  import opened Numerals
  import opened Operators
  import opened Ast
  import opened Parser
  import Lexer

  const END_TOKEN := SymbolToken("<eof>")

  // What the parser sees of a scanned token.
  function TokenOf(t: Lexer.Plain): Token {
    match t.kind
    case INTEGER => IntegerToken(Number(t.lexeme))
    case DECIMAL => DecimalToken(match ReadDecimal(t.lexeme) case Some(d) => d case None => 0.0)
    case STRING => StringToken(if t.value.Text? then t.value.s else "")
    case BOOLEAN => BooleanToken(t.value == Lexer.Flag(true))
    case IDENTIFIER => IdentifierToken(t.lexeme)
    case EOF => END_TOKEN
    case _ => SymbolToken(t.lexeme)
  }

  function TokensOf(ts: seq<Lexer.Token>): seq<Token> {
    if ts == [] then [] else [TokenOf(Lexer.PlainOf(ts[0]))] + TokensOf(ts[1..])
  }

  // ---------- writing tokens ----------

  function Escaped(s: string): string {
    if s == "" then ""
    else EscapedChar(s[0]) + Escaped(s[1..])
  }

  // A text with a point for a decimal fraction that is not negative.
  ghost predicate Pointable(d: real, n: nat, k: nat) {
    k > 0 && d == Scaled(n, k)
  }

  ghost function DecimalLexeme(d: real): string {
    if exists n: nat, k: nat :: Pointable(d, n, k) then
      var n: nat, k: nat :| Pointable(d, n, k);
      ScaledText(n, k)
    else ""
  }

  ghost function LexemeFor(t: Token): string {
    match t
    case IntegerToken(n) => Digits(n)
    case DecimalToken(d) => DecimalLexeme(d)
    case StringToken(s) => "\"" + Escaped(s) + "\""
    case BooleanToken(b) => if b then "true" else "false"
    case IdentifierToken(s) => s
    case SymbolToken(s) => s
  }

  predicate WordShaped(s: string) {
    s != "" && Lexer.IsWordStart(s[0]) && forall i | 0 <= i < |s| :: Lexer.IsWord(s[i])
  }

  // An identifier of the language version.
  predicate Spelled(controlled: bool, s: string) {
    WordShaped(s) && Lexer.WordKind(controlled, s) == Lexer.IDENTIFIER
  }

  predicate IsMark(s: string) {
    (|s| == 1 && Lexer.Single(s[0]) != Lexer.EOF) || (|s| == 2 && Lexer.Double(s[0], s[1]) != Lexer.EOF)
  }

  // A token that can be written.
  ghost predicate Renderable(controlled: bool, t: Token) {
    match t
    case IntegerToken(_) => true
    case DecimalToken(d) => d >= 0.0 && Fraction(d)
    case StringToken(_) => true
    case BooleanToken(_) => true
    case IdentifierToken(s) => Spelled(controlled, s)
    case SymbolToken(s) => IsMark(s) || (WordShaped(s) && Lexer.WordKind(controlled, s) == Lexer.KEYWORD)
  }

  ghost predicate AllRenderable(controlled: bool, ts: seq<Token>) {
    forall i | 0 <= i < |ts| :: Renderable(controlled, ts[i])
  }

  // The tokens, each followed by a space.
  ghost function Rendered(ts: seq<Token>): string {
    if ts == [] then "" else LexemeFor(ts[0]) + " " + Rendered(ts[1..])
  }

  // ---------- each written token scans as itself ----------

  // The lexeme, followed by a space, is one piece, and stands for the token.
  ghost predicate ScansAs(controlled: bool, lexeme: string, t: Token) {
    && lexeme != ""
    && var p := Lexer.PieceOf(controlled, lexeme + " ", 0);
      p.Lexeme? && p.end == |lexeme| && TokenOf(Lexer.Plain(p.kind, Lexer.ValueOf(p.kind, lexeme), lexeme)) == t
  }

  lemma {:induction false} DigitsRun(text: string, i: nat, d: nat)
    requires i <= d <= |text| && (forall k | i <= k < d :: IsDigit(text[k])) && (d == |text| || !IsDigit(text[d]))
    ensures Lexer.DigitsEnd(text, i) == d
    decreases d - i
  {
    if i < d {
      DigitsRun(text, i + 1, d);
    }
  }

  lemma {:induction false} WordRun(text: string, i: nat, d: nat)
    requires i <= d <= |text| && (forall k | i <= k < d :: Lexer.IsWord(text[k])) && (d == |text| || !Lexer.IsWord(text[d]))
    ensures Lexer.WordEnd(text, i) == d
    decreases d - i
  {
    if i < d {
      WordRun(text, i + 1, d);
    }
  }

  lemma IntegerScans(controlled: bool, n: nat)
    ensures ScansAs(controlled, Digits(n), IntegerToken(n))
  {
    DigitsReadBack(n);
    hide *;
    DigitsScan(controlled, Digits(n));
    IntegerTokenOf(Digits(n));
    ScansByParts(controlled, Digits(n), Lexer.INTEGER, IntegerToken(n));
  }

  lemma DigitsScan(controlled: bool, s: string)
    requires s != "" && AllDigits(s)
    ensures Lexer.PieceOf(controlled, s + " ", 0) == Lexer.Lexeme(Lexer.INTEGER, |s|)
  {
    var text := s + " ";
    assert forall k | 0 <= k < |s| :: text[k] == s[k];
    assert text[|s|] == ' ';
    DigitsRun(text, 0, |s|);
    assert Lexer.SortOf(text, 0) == Lexer.NumberSort;
    hide AllDigits, Lexer.DigitsEnd, Lexer.SortOf;
    assert Lexer.NumberOf(text, 0) == Lexer.Lexeme(Lexer.INTEGER, |s|);
  }

  lemma IntegerTokenOf(lexeme: string)
    ensures TokenOf(Lexer.Plain(Lexer.INTEGER, Lexer.ValueOf(Lexer.INTEGER, lexeme), lexeme)) == IntegerToken(Number(lexeme))
  {
    hide Lexer.ValueOf, Number;
  }

  lemma DecimalScans(controlled: bool, d: real)
    requires d >= 0.0 && Fraction(d)
    ensures ScansAs(controlled, DecimalLexeme(d), DecimalToken(d))
  {
    PointableExists(d);
    var n: nat, k: nat :| Pointable(d, n, k) && DecimalLexeme(d) == ScaledText(n, k);
    assert k > 0 && d == Scaled(n, k);
    hide *;
    ScaledReadsBack(n, k);
    ScaledScans(controlled, n, k);
    DecimalTokenOf(DecimalLexeme(d), d);
    ScansByParts(controlled, DecimalLexeme(d), Lexer.DECIMAL, DecimalToken(d));
  }

  lemma ScaledScans(controlled: bool, n: nat, k: nat)
    requires k > 0
    ensures var lexeme := ScaledText(n, k);
      lexeme != "" && Lexer.PieceOf(controlled, lexeme + " ", 0) == Lexer.Lexeme(Lexer.DECIMAL, |lexeme|)
  {
    var s := Padded(Digits(n), k);
    DigitsReadBack(n);
    PaddingKeepsNumber(Digits(n), k);
    assert ScaledText(n, k) == Pointed(s, k);
    hide *;
    PointedScans(controlled, s, k);
  }

  lemma DecimalTokenOf(lexeme: string, d: real)
    requires ReadDecimal(lexeme) == Some(d)
    ensures TokenOf(Lexer.Plain(Lexer.DECIMAL, Lexer.ValueOf(Lexer.DECIMAL, lexeme), lexeme)) == DecimalToken(d)
  {
    hide ReadDecimal, Lexer.ValueOf;
  }

  lemma ScansByParts(controlled: bool, lexeme: string, kind: Lexer.Kind, t: Token)
    requires lexeme != "" && Lexer.PieceOf(controlled, lexeme + " ", 0) == Lexer.Lexeme(kind, |lexeme|)
    requires TokenOf(Lexer.Plain(kind, Lexer.ValueOf(kind, lexeme), lexeme)) == t
    ensures ScansAs(controlled, lexeme, t)
  {
    hide Lexer.PieceOf, TokenOf, Lexer.ValueOf;
  }

  lemma PointedScans(controlled: bool, s: string, k: nat)
    requires AllDigits(s) && 0 < k < |s|
    ensures var lexeme := Pointed(s, k);
      lexeme != "" && Lexer.PieceOf(controlled, lexeme + " ", 0) == Lexer.Lexeme(Lexer.DECIMAL, |lexeme|)
  {
    var a, b := s[..|s| - k], s[|s| - k..];
    var lexeme := a + "." + b;
    var text := lexeme + " ";
    assert forall i | 0 <= i < |a| :: text[i] == s[i];
    assert forall i | |a| < i < |lexeme| :: text[i] == s[i - 1];
    assert text[|a|] == '.' && text[|lexeme|] == ' ';
    DigitsRun(text, 0, |a|);
    DigitsRun(text, |a| + 1, |lexeme|);
    hide Lexer.DigitsEnd;
    assert IsDigit(text[|a| + 1]);
    assert Lexer.SortOf(text, 0) == Lexer.NumberSort;
  }

  lemma PointableExists(d: real)
    requires d >= 0.0 && Fraction(d)
    ensures exists n: nat, k: nat :: Pointable(d, n, k)
  {
    var n: int, k: nat :| d == Scaled(n, k);
    ScaledUp(n, k);
    SignOfScaled(n, k);
    assert Pointable(d, 10 * n, k + 1);
  }

  lemma ScaledUp(n: int, k: nat)
    ensures Scaled(10 * n, k + 1) == Scaled(n, k)
  {
    var p := Pow10(k) as real;
    assert Pow10(k + 1) as real == 10.0 * p;
    assert (10 * n) as real == 10.0 * (n as real);
    var q := (n as real) / p;
    assert q * p == n as real;
    assert q * (10.0 * p) == 10.0 * (q * p);
    assert (q * (10.0 * p)) / (10.0 * p) == q;
  }

  lemma SignOfScaled(n: int, k: nat)
    requires Scaled(n, k) >= 0.0
    ensures n >= 0
  {
    var p := Pow10(k) as real;
    var q := (n as real) / p;
    assert q * p == n as real;
    assert q >= 0.0 && p > 0.0;
    assert q * p >= 0.0;
  }

  function EscapedChar(c: char): string {
    if c == '\"' || c == '\\' then ['\\', c] else [c]
  }

  // One written character, and what follows it.
  lemma HeadOfText(text: string, i: nat, head: string, more: string)
    requires Lexer.Reads(text, i, head + more) && head != ""
    ensures i + |head| <= |text| && Lexer.Reads(text, i + |head|, more)
    ensures text[i] == head[0] && (|head| == 2 ==> text[i + 1] == head[1])
  {
    var rest := text[i..];
    assert rest[..|head|] == head && rest[|head|..] == more;
    assert text[i + |head|..] == rest[|head|..];
    assert text[i] == rest[..|head|][0] && (|head| == 2 ==> text[i + 1] == rest[..|head|][1]);
  }

  lemma {:induction false} EscapesReadBack(text: string, i: nat, s: string, z: string)
    requires Lexer.Reads(text, i, Escaped(s) + "\"" + z)
    ensures Lexer.BodyOf(text, i) == Lexer.Closed(i + |Escaped(s)| + 1) && Lexer.Spelled(text, i) == s
    decreases |s|
  {
    if s == "" {
      assert Escaped(s) + "\"" + z == "\"" + z;
      HeadOfText(text, i, "\"", z);
    } else {
      var head := EscapedChar(s[0]);
      assert Escaped(s) + "\"" + z == head + (Escaped(s[1..]) + "\"" + z);
      HeadOfText(text, i, head, Escaped(s[1..]) + "\"" + z);
      hide Lexer.Reads;
      EscapesReadBack(text, i + |head|, s[1..], z);
      assert s == [s[0]] + s[1..];
      assert |Escaped(s)| == |head| + |Escaped(s[1..])|;
    }
  }

  lemma StringScans(controlled: bool, s: string)
    ensures ScansAs(controlled, LexemeFor(StringToken(s)), StringToken(s))
  {
    var lexeme := "\"" + Escaped(s) + "\"";
    var text := lexeme + " ";
    assert text[1..] == Escaped(s) + "\"" + " ";
    EscapesReadBack(text, 1, s, " ");
    assert lexeme[1..] == Escaped(s) + "\"" + "";
    EscapesReadBack(lexeme, 1, s, "");
    assert text[0] == '\"';
    hide Escaped, Lexer.BodyOf, Lexer.Spelled;
    assert Lexer.SortOf(text, 0) == Lexer.StringSort;
  }

  lemma WordScans(controlled: bool, s: string)
    requires WordShaped(s)
    ensures s != "" && Lexer.PieceOf(controlled, s + " ", 0) == Lexer.Lexeme(Lexer.WordKind(controlled, s), |s|)
  {
    var text := s + " ";
    assert forall k | 0 <= k < |s| :: text[k] == s[k];
    assert text[|s|] == ' ';
    WordRun(text, 0, |s|);
    assert text[0..|s|] == s;
    hide Lexer.WordKind, Lexer.WordEnd;
    assert Lexer.SortOf(text, 0) == Lexer.WordSort;
  }

  lemma MarkScans(controlled: bool, s: string)
    requires IsMark(s)
    ensures ScansAs(controlled, s, SymbolToken(s))
  {
    var text := s + " ";
    assert text[0] == s[0] && text[|s|] == ' ' && (|s| == 2 ==> text[1] == s[1]);
    assert Lexer.SortOf(text, 0) == Lexer.SymbolSort;
  }

  lemma TokenScans(controlled: bool, t: Token)
    requires Renderable(controlled, t)
    ensures ScansAs(controlled, LexemeFor(t), t)
  {
    match t
    case IntegerToken(n) => IntegerScans(controlled, n);
    case DecimalToken(d) =>
      DecimalScans(controlled, d);
    case StringToken(s) => StringScans(controlled, s);
    case BooleanToken(b) =>
      WordScans(controlled, LexemeFor(t));
    case IdentifierToken(s) =>
      WordScans(controlled, s);
      hide Lexer.PieceOf, Lexer.WordKind;
    case SymbolToken(s) =>
      if IsMark(s) {
        MarkScans(controlled, s);
      } else {
        WordScans(controlled, s);
        hide Lexer.PieceOf, Lexer.WordKind;
      }
  }

  // ---------- written token lists scan as themselves ----------

  lemma TokensMore(t: Lexer.Token, rest: seq<Lexer.Token>)
    ensures TokensOf([t] + rest) == [TokenOf(Lexer.PlainOf(t))] + TokensOf(rest)
  {
    assert ([t] + rest)[1..] == rest;
  }

  lemma {:induction false} RenderedScans(controlled: bool, ts: seq<Token>, text: string, j: nat)
    requires AllRenderable(controlled, ts) && Lexer.Reads(text, j, Rendered(ts))
    ensures ScannedAs(controlled, text, j, ts)
    decreases |ts|
  {
    if ts == [] {
      EndScans(controlled, text, j);
    } else {
      hide *;
      var next := NextPlace(controlled, ts, text, j);
      RenderedScans(controlled, ts[1..], text, next);
      OneMoreScanned(controlled, text, j, next, ts);
    }
  }

  lemma NextPlace(controlled: bool, ts: seq<Token>, text: string, j: nat) returns (next: nat)
    requires AllRenderable(controlled, ts) && ts != [] && Lexer.Reads(text, j, Rendered(ts))
    ensures AllRenderable(controlled, ts[1..]) && Lexer.Reads(text, next, Rendered(ts[1..]))
    ensures j <= |text| && next <= |text| && FirstScanned(controlled, text, j, next, ts[0])
  {
    RenderedParts(controlled, ts);
    hide ScannedAs, FirstScanned, AllRenderable, Renderable, LexemeFor, ScansAs, Rendered, Lexer.Reads;
    TokenScans(controlled, ts[0]);
    next := FirstScans(controlled, ts[0], text, j, Rendered(ts[1..]));
  }

  lemma RenderedParts(controlled: bool, ts: seq<Token>)
    requires AllRenderable(controlled, ts) && ts != []
    ensures Rendered(ts) == LexemeFor(ts[0]) + " " + Rendered(ts[1..])
    ensures Renderable(controlled, ts[0]) && AllRenderable(controlled, ts[1..])
  {
    hide LexemeFor, Renderable;
  }

  // From there on, the text scans cleanly to the tokens.
  ghost predicate ScannedAs(controlled: bool, text: string, j: nat, ts: seq<Token>)
    requires j <= |text|
  {
    var r := Lexer.ScanFrom(controlled, text, j);
    r.diagnostics == [] && TokensOf(r.tokens) == ts + [END_TOKEN]
  }

  // The scan from one place is a token and the scan from the other.
  ghost predicate FirstScanned(controlled: bool, text: string, j: nat, next: nat, t: Token)
    requires j <= |text| && next <= |text|
  {
    var r, rest := Lexer.ScanFrom(controlled, text, j), Lexer.ScanFrom(controlled, text, next);
    r.diagnostics == rest.diagnostics && TokensOf(r.tokens) == [t] + TokensOf(rest.tokens)
  }

  lemma OneMoreScanned(controlled: bool, text: string, j: nat, next: nat, ts: seq<Token>)
    requires ts != [] && j <= |text| && next <= |text| && ScannedAs(controlled, text, next, ts[1..])
    requires FirstScanned(controlled, text, j, next, ts[0])
    ensures ScannedAs(controlled, text, j, ts)
  {
    hide Lexer.ScanFrom, TokensOf;
    assert [ts[0]] + (ts[1..] + [END_TOKEN]) == ts + [END_TOKEN];
  }

  lemma EndScans(controlled: bool, text: string, j: nat)
    requires Lexer.Reads(text, j, "")
    ensures j <= |text| && ScannedAs(controlled, text, j, [])
  {
    assert j == |text|;
    var t := Lexer.EndOfText(text);
    assert TokenOf(Lexer.PlainOf(t)) == END_TOKEN by {
      hide Lexer.PositionAt;
    }
    hide Lexer.EndOfText, Lexer.PlainOf, TokenOf;
    assert Lexer.ScanFrom(controlled, text, j) == Lexer.LexResult([t], []);
    TokensMore(t, []);
    assert [t] + [] == [t] && [] + [END_TOKEN] == [END_TOKEN];
  }

  // The lexeme's one piece, by its kind.
  lemma KindOfScan(controlled: bool, lexeme: string, t: Token) returns (kind: Lexer.Kind)
    requires ScansAs(controlled, lexeme, t)
    ensures lexeme != "" && Lexer.PieceOf(controlled, lexeme + " ", 0) == Lexer.Lexeme(kind, |lexeme|)
    ensures TokenOf(Lexer.Plain(kind, Lexer.ValueOf(kind, lexeme), lexeme)) == t
  {
    kind := Lexer.PieceOf(controlled, lexeme + " ", 0).kind;
    hide Lexer.PieceOf, TokenOf, Lexer.ValueOf;
  }

  lemma FirstScans(controlled: bool, t: Token, text: string, j: nat, rest: string) returns (next: nat)
    requires ScansAs(controlled, LexemeFor(t), t) && Lexer.Reads(text, j, LexemeFor(t) + " " + rest)
    ensures j <= |text| && next <= |text| && Lexer.Reads(text, next, rest)
    ensures FirstScanned(controlled, text, j, next, t)
  {
    hide LexemeFor, ScansAs, TokenOf, Lexer.Reads, Lexer.PieceOf, Lexer.ValueOf, Lexer.PlainOf, Lexer.TokenAt, Lexer.After;
    var lexeme := LexemeFor(t);
    var kind := KindOfScan(controlled, lexeme, t);
    var e := j + |lexeme|;
    Lexer.Ahead(text, j, lexeme, rest);
    ScansOnce(controlled, lexeme, kind, text, j);
    var token := Lexer.TokenAt(kind, text, j, e);
    var after := Lexer.ScanFrom(controlled, text, e + 1);
    Lexer.AfterOne(token, after);
    TokensMore(token, after.tokens);
    next := e + 1;
  }

  lemma ScansOnce(controlled: bool, lexeme: string, kind: Lexer.Kind, text: string, j: nat)
    requires lexeme != "" && Lexer.PieceOf(controlled, lexeme + " ", 0) == Lexer.Lexeme(kind, |lexeme|)
    requires var e := j + |lexeme|; e < |text| && text[j..e] == lexeme && text[e] == ' '
    ensures var e := j + |lexeme|;
      && Lexer.ScanFrom(controlled, text, j) == Lexer.After([Lexer.TokenAt(kind, text, j, e)], [], Lexer.ScanFrom(controlled, text, e + 1))
      && Lexer.PlainOf(Lexer.TokenAt(kind, text, j, e)) == Lexer.Plain(kind, Lexer.ValueOf(kind, lexeme), lexeme)
  {
    hide *;
    var alone := lexeme + " ";
    assert alone[0..|lexeme|] == lexeme;
    Lexer.LexemeScansAgain(controlled, alone, 0, text, j);
    PlainAt(kind, text, j, j + |lexeme|);
  }

  lemma PlainAt(kind: Lexer.Kind, text: string, i: nat, end: nat)
    requires i <= end <= |text|
    ensures Lexer.PlainOf(Lexer.TokenAt(kind, text, i, end)) == Lexer.Plain(kind, Lexer.ValueOf(kind, text[i..end]), text[i..end])
  {
    hide Lexer.PositionAt, Lexer.ValueOf;
  }

  // ---------- printed trees can be written ----------

  // Every name in the tree is an identifier of the language version, every decimal has a finite text.
  ghost predicate Spellable(controlled: bool, e: AstExpr)
    decreases e
  {
    match e
    case ALiteral(v, _) => v.VDecimal? ==> Fraction(v.d)
    case APath(root, parts) => Spelled(controlled, root) && forall i | 0 <= i < |parts| :: Spelled(controlled, parts[i])
    case ACall(name, operands) => Spelled(controlled, name) && forall i | 0 <= i < |operands| :: Spellable(controlled, operands[i])
    case ARead(tool, arguments) => SpelledName(controlled, tool) && forall i | 0 <= i < |arguments| :: Spelled(controlled, arguments[i].name) && Spellable(controlled, arguments[i].value)
    case AWrite(tool, arguments, approval) =>
      && SpelledName(controlled, tool) && Spelled(controlled, approval)
      && forall i | 0 <= i < |arguments| :: Spelled(controlled, arguments[i].name) && Spellable(controlled, arguments[i].value)
    case ABinary(_, left, right) => Spellable(controlled, left) && Spellable(controlled, right)
  }

  predicate SpelledName(controlled: bool, text: string) {
    forall i | 0 <= i < |SplitDots(text)| :: Spelled(controlled, SplitDots(text)[i])
  }

  lemma JoinRenderable(controlled: bool, a: seq<Token>, b: seq<Token>)
    requires AllRenderable(controlled, a) && AllRenderable(controlled, b)
    ensures AllRenderable(controlled, a + b)
  {
  }

  lemma MarksAreRenderable(controlled: bool)
    ensures forall s | s in {"(", ")", ",", ".", ":", "="} :: AllRenderable(controlled, [SymbolToken(s)])
    ensures forall op :: AllRenderable(controlled, [SymbolToken(OperatorText(op))])
    ensures AllRenderable(controlled, [SymbolToken("read")])
    ensures controlled ==> AllRenderable(controlled, [SymbolToken("write")]) && AllRenderable(controlled, [SymbolToken("approved_by")])
  {
    assert WordShaped("read") && Lexer.WordKind(controlled, "read") == Lexer.KEYWORD;
    assert WordShaped("write") && WordShaped("approved_by");
    forall op ensures IsMark(OperatorText(op)) {
    }
  }

  lemma {:induction false} TailIsRenderable(controlled: bool, names: seq<string>)
    requires forall i | 0 <= i < |names| :: Spelled(controlled, names[i])
    ensures AllRenderable(controlled, PrintTail(names))
  {
    hide Spelled, IsMark;
    if names != [] {
      MarksAreRenderable(controlled);
      TailIsRenderable(controlled, names[1..]);
      assert [SymbolToken("."), IdentifierToken(names[0])] == [SymbolToken(".")] + [IdentifierToken(names[0])];
      JoinRenderable(controlled, [SymbolToken(".")], [IdentifierToken(names[0])]);
      JoinRenderable(controlled, [SymbolToken("."), IdentifierToken(names[0])], PrintTail(names[1..]));
    }
  }

  lemma NameIsRenderable(controlled: bool, text: string)
    requires SpelledName(controlled, text)
    ensures AllRenderable(controlled, PrintQualifiedName(text))
  {
    hide Spelled, SplitDots, IsMark;
    var names := SplitDots(text);
    TailIsRenderable(controlled, names[1..]);
    hide PrintTail;
    JoinRenderable(controlled, [IdentifierToken(names[0])], PrintTail(names[1..]));
  }

  lemma {:induction false} PrintIsRenderable(controlled: bool, e: AstExpr, minimum: nat)
    requires Writable(controlled, e) && Spellable(controlled, e)
    ensures AllRenderable(controlled, Print(e, minimum))
    decreases e, 2
  {
    BareIsRenderable(controlled, e);
    MarksAreRenderable(controlled);
    var open, bare, close := [SymbolToken("(")], PrintBare(e), [SymbolToken(")")];
    hide AllRenderable, PrintBare, Writable, Spellable;
    JoinRenderable(controlled, open, bare);
    JoinRenderable(controlled, open + bare, close);
  }

  lemma {:induction false} BareIsRenderable(controlled: bool, e: AstExpr)
    requires Writable(controlled, e) && Spellable(controlled, e)
    ensures AllRenderable(controlled, PrintBare(e))
    decreases e, 1
  {
    match e
    case ALiteral(_, _) =>
    case APath(root, parts) =>
      TailIsRenderable(controlled, parts);
      hide PrintTail, Spelled;
      assert AllRenderable(controlled, [IdentifierToken(root)]);
      JoinRenderable(controlled, [IdentifierToken(root)], PrintTail(parts));
    case ACall(name, operands) =>
      OperandsAreRenderable(controlled, operands);
      MarksAreRenderable(controlled);
      hide PrintOperands, Spelled, IsMark;
      var open := [IdentifierToken(name), SymbolToken("(")];
      assert open == [IdentifierToken(name)] + [SymbolToken("(")];
      assert AllRenderable(controlled, [IdentifierToken(name)]);
      JoinRenderable(controlled, [IdentifierToken(name)], [SymbolToken("(")]);
      JoinRenderable(controlled, open, PrintOperands(operands));
    case ARead(_, _) => ReadIsRenderable(controlled, e);
    case AWrite(_, _, _) => WriteIsRenderable(controlled, e);
    case ABinary(op, left, right) =>
      PrintIsRenderable(controlled, left, Precedence(op));
      PrintIsRenderable(controlled, right, Precedence(op) + 1);
      MarksAreRenderable(controlled);
      var a, sign, b := Print(left, Precedence(op)), [SymbolToken(OperatorText(op))], Print(right, Precedence(op) + 1);
      assert PrintBare(e) == a + sign + b;
      hide AllRenderable, Print, PrintBare;
      JoinRenderable(controlled, a, sign);
      JoinRenderable(controlled, a + sign, b);
  }

  lemma {:induction false} ReadIsRenderable(controlled: bool, e: AstExpr)
    requires e.ARead? && Writable(controlled, e) && Spellable(controlled, e)
    ensures AllRenderable(controlled, PrintBare(e))
    decreases e, 0
  {
    NameIsRenderable(controlled, e.tool);
    ArgumentsAreRenderable(controlled, e.arguments, ":");
    MarksAreRenderable(controlled);
    var read, name, open, arguments := [SymbolToken("read")], PrintQualifiedName(e.tool), [SymbolToken("(")], PrintArguments(e.arguments, ":");
    assert PrintBare(e) == read + name + open + arguments;
    hide AllRenderable, PrintBare, PrintQualifiedName, PrintArguments;
    JoinRenderable(controlled, read, name);
    JoinRenderable(controlled, read + name, open);
    JoinRenderable(controlled, read + name + open, arguments);
  }

  lemma {:induction false} WriteIsRenderable(controlled: bool, e: AstExpr)
    requires e.AWrite? && Writable(controlled, e) && Spellable(controlled, e)
    ensures AllRenderable(controlled, PrintBare(e))
    decreases e, 0
  {
    NameIsRenderable(controlled, e.tool);
    ArgumentsAreRenderable(controlled, e.arguments, "=");
    MarksAreRenderable(controlled);
    var write, name, open, arguments := [SymbolToken("write")], PrintQualifiedName(e.tool), [SymbolToken("(")], PrintArguments(e.arguments, "=");
    var mark, approval := [SymbolToken("approved_by")], [IdentifierToken(e.approval)];
    assert AllRenderable(controlled, approval);
    assert [SymbolToken("approved_by"), IdentifierToken(e.approval)] == mark + approval;
    assert PrintBare(e) == write + name + open + arguments + (mark + approval);
    hide AllRenderable, PrintBare, PrintQualifiedName, PrintArguments;
    JoinRenderable(controlled, write, name);
    JoinRenderable(controlled, write + name, open);
    JoinRenderable(controlled, write + name + open, arguments);
    JoinRenderable(controlled, mark, approval);
    JoinRenderable(controlled, write + name + open + arguments, mark + approval);
  }

  lemma {:induction false} OperandsAreRenderable(controlled: bool, es: seq<AstExpr>)
    requires forall i | 0 <= i < |es| :: Writable(controlled, es[i]) && Spellable(controlled, es[i])
    ensures AllRenderable(controlled, PrintOperands(es))
    decreases es, 2
  {
    MarksAreRenderable(controlled);
    if es != [] {
      PrintIsRenderable(controlled, es[0], 0);
      OperandsAreRenderable(controlled, es[1..]);
      hide AllRenderable, Print;
      JoinRenderable(controlled, [SymbolToken(",")], PrintOperands(es[1..]));
      JoinRenderable(controlled, Print(es[0], 0), if |es| == 1 then [SymbolToken(")")] else [SymbolToken(",")] + PrintOperands(es[1..]));
    }
  }

  lemma {:induction false} ArgumentsAreRenderable(controlled: bool, args: seq<AstArgument>, separator: string)
    requires separator == ":" || separator == "="
    requires forall i | 0 <= i < |args| :: Spelled(controlled, args[i].name) && Writable(controlled, args[i].value) && Spellable(controlled, args[i].value)
    ensures AllRenderable(controlled, PrintArguments(args, separator))
    decreases args, 2
  {
    MarksAreRenderable(controlled);
    if args != [] {
      PrintIsRenderable(controlled, args[0].value, 0);
      ArgumentsAreRenderable(controlled, args[1..], separator);
      var name, sign := [IdentifierToken(args[0].name)], [SymbolToken(separator)];
      assert AllRenderable(controlled, name) && AllRenderable(controlled, sign);
      assert [IdentifierToken(args[0].name), SymbolToken(separator)] == name + sign;
      var more := if |args| == 1 then [SymbolToken(")")] else [SymbolToken(",")] + PrintArguments(args[1..], separator);
      var first := Print(args[0].value, 0);
      assert PrintArguments(args, separator) == name + sign + first + more;
      hide AllRenderable, Print, PrintArguments;
      JoinRenderable(controlled, [SymbolToken(",")], PrintArguments(args[1..], separator));
      JoinRenderable(controlled, name, sign);
      JoinRenderable(controlled, name + sign, first);
      JoinRenderable(controlled, name + sign + first, more);
    }
  }

  // A printed tree, written out as text, scans without a diagnostic, and its tokens parse back to the
  // tree exactly when printing it is undone by parsing at all.
  lemma {:induction false} TextRoundTrip(controlled: bool, e: AstExpr)
    requires Writable(controlled, e) && Spellable(controlled, e)
    ensures var r := Lexer.ScanFrom(controlled, Rendered(Print(e, 0)), 0);
      && r.diagnostics == []
      && (ParseExpr(controlled, TokensOf(r.tokens), 0) == Some(Parsed(e, [END_TOKEN])) <==> Unmistakable(e))
  {
    var ts := Print(e, 0);
    var text := Rendered(ts);
    PrintIsRenderable(controlled, e, 0);
    assert text[0..] == text;
    RenderedScans(controlled, ts, text, 0);
    assert NextOperator([END_TOKEN]) == None && Stops([END_TOKEN], 0);
    assert TokensOf(Lexer.ScanFrom(controlled, text, 0).tokens) == ts + [END_TOKEN];
    hide *;
    PrintingIsUndoneExactly(controlled, e, [END_TOKEN]);
  }
}
