// The lexer: source text to tokens, with the place of each in the text.

module Lexer {
  import opened Numerals

  // ---------- tokens ----------

  datatype Kind =
    | KEYWORD | IDENTIFIER | STRING | INTEGER | DECIMAL | BOOLEAN | DURATION
    | LBRACE | RBRACE | LPAREN | RPAREN | COLON | SEMICOLON | COMMA | DOT | ASSIGN
    | PLUS | MINUS | STAR | SLASH | EQ | NE | LT | LE | GT | GE
    | EOF

  datatype TokenValue = Text(s: string) | Flag(b: bool) | Milliseconds(n: nat)

  datatype Position = Position(offset: nat, line: nat, column: nat)

  datatype Token = Token(kind: Kind, value: TokenValue, lexeme: string, start: Position, end: Position)

  datatype Problem = UnterminatedString | UnterminatedEscape | UnexpectedCharacter

  datatype Diagnostic = Diagnostic(problem: Problem, line: nat, column: nat)

  datatype LexResult = LexResult(tokens: seq<Token>, diagnostics: seq<Diagnostic>)

  const KEYWORDS: set<string> := {
    "language", "skill", "version", "description", "risk", "include", "requires", "limits", "input", "context", "output", "tool",
    "let", "read", "foreach", "in", "max", "check", "assert", "severity", "on_fail", "message", "emit"
  }

  predicate IsKeyword(controlled: bool, word: string) {
    word in KEYWORDS || (controlled && word in {"write", "approve", "approved_by"})
  }

  // ---------- places ----------

  function Newlines(s: string): nat {
    if s == "" then 0 else Newlines(s[..|s| - 1]) + if s[|s| - 1] == '\n' then 1 else 0
  }

  // How far the end of the text is from its last line break.
  function SinceNewline(s: string): nat {
    if s == "" || s[|s| - 1] == '\n' then 0 else SinceNewline(s[..|s| - 1]) + 1
  }

  function PositionAt(text: string, offset: nat): (p: Position)
    requires offset <= |text|
    ensures p.offset == offset
  {
    Position(offset, 1 + Newlines(text[..offset]), 1 + SinceNewline(text[..offset]))
  }

  // ---------- characters ----------

  predicate IsWordStart(c: char) {
    'a' <= c <= 'z' || 'A' <= c <= 'Z' || c == '_'
  }

  predicate IsWord(c: char) {
    IsWordStart(c) || IsDigit(c)
  }

  predicate IsSpace(c: char) {
    c == ' ' || c == '\t' || c == '\r' || c == '\n'
  }

  function Single(c: char): Kind {
    if c == '{' then LBRACE
    else if c == '}' then RBRACE
    else if c == '(' then LPAREN
    else if c == ')' then RPAREN
    else if c == ':' then COLON
    else if c == ';' then SEMICOLON
    else if c == ',' then COMMA
    else if c == '.' then DOT
    else if c == '=' then ASSIGN
    else if c == '+' then PLUS
    else if c == '-' then MINUS
    else if c == '*' then STAR
    else if c == '/' then SLASH
    else if c == '<' then LT
    else if c == '>' then GT
    else EOF
  }

  // The operator two characters spell, or EOF.
  function Double(c: char, d: char): Kind {
    if d != '=' then EOF
    else if c == '<' then LE
    else if c == '>' then GE
    else if c == '=' then EQ
    else if c == '!' then NE
    else EOF
  }

  function Unescaped(c: char): char {
    if c == 'n' then '\n' else if c == 'r' then '\r' else if c == 't' then '\t' else c
  }

  // ---------- what the next piece of a text is ----------

  function LineEnd(text: string, i: nat): (e: nat)
    requires i <= |text|
    ensures i <= e <= |text| && (e == |text| || text[e] == '\n')
    decreases |text| - i
  {
    if i == |text| || text[i] == '\n' then i else LineEnd(text, i + 1)
  }

  function DigitsEnd(text: string, i: nat): (e: nat)
    requires i <= |text|
    ensures i <= e <= |text| && (e == |text| || !IsDigit(text[e]))
    decreases |text| - i
  {
    if i == |text| || !IsDigit(text[i]) then i else DigitsEnd(text, i + 1)
  }

  function WordEnd(text: string, i: nat): (e: nat)
    requires i <= |text|
    ensures i <= e <= |text| && (e == |text| || !IsWord(text[e]))
    decreases |text| - i
  {
    if i == |text| || !IsWord(text[i]) then i else WordEnd(text, i + 1)
  }

  predicate CommentStarts(text: string, i: nat) {
    i + 1 < |text| && text[i] == '/' && text[i + 1] == '/'
  }

  // Where a string's text ends: behind the closing quote, or nowhere.
  datatype Body = Closed(end: nat) | OpenString | OpenEscape

  function BodyOf(text: string, i: nat): (b: Body)
    requires i <= |text|
    ensures b.Closed? ==> i < b.end <= |text|
    decreases |text| - i
  {
    if i == |text| then OpenString
    else if text[i] == '\"' then Closed(i + 1)
    else if text[i] != '\\' then BodyOf(text, i + 1)
    else if i + 1 == |text| then OpenEscape
    else BodyOf(text, i + 2)
  }

  // The text a string stands for, read to its closing quote.
  function Spelled(text: string, i: nat): string
    requires i <= |text|
    decreases |text| - i
  {
    if i == |text| || text[i] == '\"' then ""
    else if text[i] != '\\' then [text[i]] + Spelled(text, i + 1)
    else if i + 1 == |text| then ""
    else [Unescaped(text[i + 1])] + Spelled(text, i + 2)
  }

  predicate NoWordAt(text: string, i: nat) {
    i >= |text| || !IsWord(text[i])
  }

  // The length of a duration's unit.
  function UnitLength(text: string, i: nat): (n: nat)
    ensures n > 0 ==> i + n <= |text|
  {
    if i + 1 < |text| && text[i] == 'm' && text[i + 1] == 's' && NoWordAt(text, i + 2) then 2
    else if i < |text| && text[i] == 's' && NoWordAt(text, i + 1) then 1
    else if i < |text| && text[i] == 'm' && NoWordAt(text, i + 1) then 1
    else 0
  }

  datatype Piece = Blank(end: nat) | Lexeme(kind: Kind, end: nat) | Broken(problem: Problem) | Stray

  function NumberOf(text: string, i: nat): (p: Piece)
    requires i < |text| && IsDigit(text[i])
    ensures p.Lexeme? && i < p.end <= |text| && p.kind != EOF
  {
    var d := DigitsEnd(text, i);
    if d + 1 < |text| && text[d] == '.' && IsDigit(text[d + 1]) then Lexeme(DECIMAL, DigitsEnd(text, d + 1))
    else Lexeme(if UnitLength(text, d) > 0 then DURATION else INTEGER, d + UnitLength(text, d))
  }

  function WordKind(controlled: bool, word: string): (k: Kind)
    ensures k != EOF
  {
    if word == "true" || word == "false" then BOOLEAN else if IsKeyword(controlled, word) then KEYWORD else IDENTIFIER
  }

  function WordOf(controlled: bool, text: string, i: nat): (p: Piece)
    requires i < |text| && IsWordStart(text[i])
    ensures p.Lexeme? && i < p.end <= |text| && p.kind != EOF
  {
    Lexeme(WordKind(controlled, text[i..WordEnd(text, i)]), WordEnd(text, i))
  }

  function StringOf(text: string, i: nat): (p: Piece)
    requires i < |text|
    ensures p.Broken? || (p.Lexeme? && i < p.end <= |text| && p.kind == STRING)
  {
    match BodyOf(text, i + 1)
    case Closed(end) => Lexeme(STRING, end)
    case OpenString => Broken(UnterminatedString)
    case OpenEscape => Broken(UnterminatedEscape)
  }

  function SymbolOf(text: string, i: nat): (p: Piece)
    requires i < |text|
    ensures p.Stray? || (p.Lexeme? && i < p.end <= |text| && p.kind != EOF)
  {
    if i + 1 < |text| && Double(text[i], text[i + 1]) != EOF then Lexeme(Double(text[i], text[i + 1]), i + 2)
    else if Single(text[i]) != EOF then Lexeme(Single(text[i]), i + 1)
    else Stray
  }

  datatype Sort = SpaceSort | CommentSort | StringSort | NumberSort | WordSort | SymbolSort

  // What the next characters announce.
  function SortOf(text: string, i: nat): (s: Sort)
    requires i < |text|
    ensures s.NumberSort? ==> IsDigit(text[i])
    ensures s.WordSort? ==> IsWordStart(text[i])
    ensures s.CommentSort? ==> CommentStarts(text, i)
  {
    if IsSpace(text[i]) then SpaceSort
    else if CommentStarts(text, i) then CommentSort
    else if text[i] == '\"' then StringSort
    else if IsDigit(text[i]) then NumberSort
    else if IsWordStart(text[i]) then WordSort
    else SymbolSort
  }

  function PieceOf(controlled: bool, text: string, i: nat): (p: Piece)
    requires i < |text|
    ensures p.Blank? || p.Lexeme? ==> i < p.end <= |text|
    ensures p.Lexeme? ==> p.kind != EOF
  {
    match SortOf(text, i)
    case SpaceSort => Blank(i + 1)
    case CommentSort => Blank(LineEnd(text, i))
    case StringSort => StringOf(text, i)
    case NumberSort => NumberOf(text, i)
    case WordSort => WordOf(controlled, text, i)
    case SymbolSort => SymbolOf(text, i)
  }

  // ---------- what a lexeme stands for ----------

  // Milliseconds per unit.
  function UnitValue(unit: string): nat {
    if unit == "s" then 1000 else if unit == "m" then 60000 else 1
  }

  function ValueOf(kind: Kind, lexeme: string): TokenValue {
    match kind
    case STRING => Text(if lexeme == "" then "" else Spelled(lexeme, 1))
    case BOOLEAN => Flag(lexeme == "true")
    case DURATION => Milliseconds(DurationOf(lexeme[..DigitsEnd(lexeme, 0)], lexeme[DigitsEnd(lexeme, 0)..]))
    case _ => Text(lexeme)
  }

  function DurationOf(digits: string, unit: string): nat {
    Number(digits) * UnitValue(unit)
  }

  // ---------- scanning ----------

  function EndOfText(text: string): Token {
    Token(EOF, Text("<eof>"), "", PositionAt(text, |text|), PositionAt(text, |text|))
  }

  function DiagnosticAt(problem: Problem, at: Position): Diagnostic {
    Diagnostic(problem, at.line, at.column)
  }

  function TokenAt(kind: Kind, text: string, i: nat, end: nat): Token
    requires i <= end <= |text|
  {
    Token(kind, ValueOf(kind, text[i..end]), text[i..end], PositionAt(text, i), PositionAt(text, end))
  }

  // A string that is never closed swallows the rest of the text; a stray character is skipped.
  function ScanFrom(controlled: bool, text: string, i: nat): LexResult
    requires i <= |text|
    decreases |text| - i
  {
    if i == |text| then LexResult([EndOfText(text)], [])
    else match PieceOf(controlled, text, i)
      case Blank(end) => ScanFrom(controlled, text, end)
      case Lexeme(kind, end) => After([TokenAt(kind, text, i, end)], [], ScanFrom(controlled, text, end))
      case Broken(problem) =>
        var at := if problem.UnterminatedEscape? then PositionAt(text, |text|) else PositionAt(text, i);
        After([], [DiagnosticAt(problem, at)], ScanFrom(controlled, text, |text|))
      case Stray => After([], [DiagnosticAt(UnexpectedCharacter, PositionAt(text, i))], ScanFrom(controlled, text, i + 1))
  }

  function After(tokens: seq<Token>, diagnostics: seq<Diagnostic>, rest: LexResult): LexResult {
    LexResult(tokens + rest.tokens, diagnostics + rest.diagnostics)
  }

  lemma OneStep(text: string, i: nat)
    requires i < |text|
    ensures var at := PositionAt(text, i);
      PositionAt(text, i + 1) == if text[i] == '\n' then Position(i + 1, at.line + 1, 1) else Position(i + 1, at.line, at.column + 1)
  {
    assert text[..i + 1][..i] == text[..i];
  }

  predicate OneLine(text: string, i: nat, j: nat)
    requires j <= |text|
  {
    forall k | i <= k < j :: text[k] != '\n'
  }

  // Without a line break, only the column moves.
  lemma {:induction false} SameLine(text: string, i: nat, j: nat)
    requires i <= j <= |text| && OneLine(text, i, j)
    ensures var at := PositionAt(text, i); PositionAt(text, j) == Position(j, at.line, at.column + (j - i))
    decreases j - i
  {
    hide PositionAt;
    if i < j {
      SameLine(text, i, j - 1);
      OneStep(text, j - 1);
    }
  }

  method SkipComment(text: string, start: nat, startColumn: nat) returns (index: nat, column: nat)
    requires start <= |text|
    ensures index == LineEnd(text, start) && column == startColumn + (index - start) && OneLine(text, start, index)
  {
    index, column := start, startColumn;
    while index < |text| && text[index] != '\n'
      invariant start <= index <= |text| && column == startColumn + (index - start)
      invariant LineEnd(text, index) == LineEnd(text, start) && OneLine(text, start, index)
    {
      index, column := index + 1, column + 1;
    }
  }

  method ScanDigits(text: string, start: nat) returns (index: nat)
    requires start <= |text|
    ensures index == DigitsEnd(text, start) && OneLine(text, start, index)
  {
    index := start;
    while index < |text| && IsDigit(text[index])
      invariant start <= index <= |text| && DigitsEnd(text, index) == DigitsEnd(text, start) && OneLine(text, start, index)
    {
      index := index + 1;
    }
  }

  method ScanWord(text: string, start: nat) returns (index: nat)
    requires start <= |text|
    ensures index == WordEnd(text, start) && OneLine(text, start, index)
  {
    index := start;
    while index < |text| && IsWord(text[index])
      invariant start <= index <= |text| && WordEnd(text, index) == WordEnd(text, start) && OneLine(text, start, index)
    {
      index := index + 1;
    }
  }

  // Line and column are followed through the string's line breaks, escaped ones too.
  method ScanString(text: string, start: Position) returns (end: Position, value: string, body: Body)
    requires start.offset < |text| && text[start.offset] == '\"' && PositionAt(text, start.offset) == start
    ensures body == BodyOf(text, start.offset + 1)
    ensures end.offset == (if body.Closed? then body.end else |text|) && PositionAt(text, end.offset) == end
    ensures body.Closed? ==> value == Spelled(text, start.offset + 1)
  {
    hide PositionAt, BodyOf, Spelled;
    OneStep(text, start.offset);
    var index: nat, line: nat, column: nat := start.offset + 1, start.line, start.column + 1;
    value := "";
    while index < |text| && text[index] != '\"'
      invariant start.offset + 1 <= index <= |text| && PositionAt(text, index) == Position(index, line, column)
      invariant BodyOf(text, start.offset + 1) == BodyOf(text, index)
      invariant Spelled(text, start.offset + 1) == value + Spelled(text, index)
    {
      OneStep(text, index);
      BodyUnfolds(text, index, value);
      if text[index] == '\\' {
        index, column := index + 1, column + 1;
        if index >= |text| {
          return Position(index, line, column), value, OpenEscape;
        }
        OneStep(text, index);
        value := value + [Unescaped(text[index])];
      } else {
        value := value + [text[index]];
      }
      if text[index] == '\n' {
        line, column := line + 1, 1;
      } else {
        column := column + 1;
      }
      index := index + 1;
    }
    BodyEnds(text, index);
    if index >= |text| {
      return Position(index, line, column), value, OpenString;
    }
    OneStep(text, index);
    assert value + "" == value;
    return Position(index + 1, line, column + 1), value, Closed(index + 1);
  }

  // One character of a string's text, or one escape, after what was read of it.
  lemma BodyUnfolds(text: string, i: nat, read: string)
    requires i < |text| && text[i] != '\"'
    ensures text[i] != '\\' ==>
      BodyOf(text, i) == BodyOf(text, i + 1) && read + Spelled(text, i) == read + [text[i]] + Spelled(text, i + 1)
    ensures text[i] == '\\' && i + 1 == |text| ==> BodyOf(text, i) == OpenEscape
    ensures text[i] == '\\' && i + 1 < |text| ==>
      BodyOf(text, i) == BodyOf(text, i + 2) && read + Spelled(text, i) == read + [Unescaped(text[i + 1])] + Spelled(text, i + 2)
  {
    if text[i] != '\\' {
      assert read + ([text[i]] + Spelled(text, i + 1)) == read + [text[i]] + Spelled(text, i + 1);
    } else if i + 1 < |text| {
      assert read + ([Unescaped(text[i + 1])] + Spelled(text, i + 2)) == read + [Unescaped(text[i + 1])] + Spelled(text, i + 2);
    }
  }

  lemma BodyEnds(text: string, i: nat)
    requires i <= |text| && (i == |text| || text[i] == '\"')
    ensures Spelled(text, i) == "" && BodyOf(text, i) == if i == |text| then OpenString else Closed(i + 1)
  {
  }

  method ScanNumber(text: string, start: nat) returns (index: nat, kind: Kind, value: TokenValue)
    requires start < |text| && IsDigit(text[start])
    ensures start <= index <= |text| && Lexeme(kind, index) == NumberOf(text, start) && OneLine(text, start, index)
    ensures value == ValueOf(kind, text[start..index])
  {
    hide DigitsEnd;
    index := ScanDigits(text, start);
    if index + 1 < |text| && text[index] == '.' && IsDigit(text[index + 1]) {
      index := ScanDigits(text, index + 1);
      return index, DECIMAL, Text(text[start..index]);
    }
    var d := index;
    var n := UnitLength(text, d);
    index := d + n;
    if n > 0 {
      DurationSplits(text, start, d, index);
      return index, DURATION, Milliseconds(DurationOf(text[start..d], text[d..index]));
    }
    return index, INTEGER, Text(text[start..index]);
  }

  // A word, a number, an operator or a punctuation mark.
  method ScanPlain(controlled: bool, text: string, start: nat) returns (index: nat, kind: Kind, value: TokenValue)
    requires start < |text| && !IsSpace(text[start]) && !CommentStarts(text, start) && text[start] != '\"'
    ensures start <= index <= |text| && OneLine(text, start, index)
    ensures PieceOf(controlled, text, start) == if index == start then Stray else Lexeme(kind, index)
    ensures index > start ==> value == ValueOf(kind, text[start..index])
  {
    if IsDigit(text[start]) {
      hide NumberOf, ValueOf;
      index, kind, value := ScanNumber(text, start);
    } else if IsWordStart(text[start]) {
      hide WordEnd, IsKeyword;
      index := ScanWord(text, start);
      var word := text[start..index];
      kind := WordKind(controlled, word);
      value := if kind == BOOLEAN then Flag(word == "true") else Text(word);
    } else if start + 1 < |text| && Double(text[start], text[start + 1]) != EOF {
      return start + 2, Double(text[start], text[start + 1]), Text(text[start..start + 2]);
    } else if Single(text[start]) != EOF {
      return start + 1, Single(text[start]), Text(text[start..start + 1]);
    } else {
      return start, EOF, Text("");
    }
  }

  // One round of the scan: a blank, a token or a diagnostic, and the place after it.
  method ScanPiece(controlled: bool, text: string, start: Position) returns (end: Position, tokens: seq<Token>, diagnostics: seq<Diagnostic>)
    requires start.offset < |text| && PositionAt(text, start.offset) == start
    ensures start.offset < end.offset <= |text| && PositionAt(text, end.offset) == end
    ensures ScanFrom(controlled, text, start.offset) == After(tokens, diagnostics, ScanFrom(controlled, text, end.offset))
  {
    var index := start.offset;
    tokens, diagnostics := [], [];
    OneStep(text, index);
    ScanUnfolds(controlled, text, index);
    hide ScanFrom, PositionAt, NumberOf, SymbolOf, ValueOf, WordKind, LineEnd, WordEnd, BodyOf, Spelled;
    if text[index] == '\n' {
      end := Position(index + 1, start.line + 1, 1);
    } else if IsSpace(text[index]) {
      end := Position(index + 1, start.line, start.column + 1);
    } else if CommentStarts(text, index) {
      var after, column := SkipComment(text, index, start.column);
      SameLine(text, index, after);
      end := Position(after, start.line, column);
    } else if text[index] == '\"' {
      var value, body;
      end, value, body := ScanString(text, start);
      match body
      case Closed(_) =>
        StringValue(text, index, end.offset);
        tokens := [Token(STRING, Text(value), text[index..end.offset], start, end)];
      case OpenString => diagnostics := [DiagnosticAt(UnterminatedString, start)];
      case OpenEscape => diagnostics := [DiagnosticAt(UnterminatedEscape, end)];
    } else {
      var after, kind, value := ScanPlain(controlled, text, index);
      if after == index {
        end := Position(index + 1, start.line, start.column + 1);
        diagnostics := [DiagnosticAt(UnexpectedCharacter, start)];
      } else {
        SameLine(text, index, after);
        end := Position(after, start.line, start.column + (after - index));
        tokens := [Token(kind, value, text[index..after], start, end)];
      }
    }
  }

  method Scan(controlled: bool, text: string) returns (r: LexResult)
    ensures r == ScanFrom(controlled, text, 0)
  {
    var tokens: seq<Token>, diagnostics: seq<Diagnostic> := [], [];
    var at := Position(0, 1, 1);
    while at.offset < |text|
      invariant at.offset <= |text| && PositionAt(text, at.offset) == at
      invariant ScanFrom(controlled, text, 0) == After(tokens, diagnostics, ScanFrom(controlled, text, at.offset))
      decreases |text| - at.offset
    {
      hide ScanFrom, PositionAt;
      var end, found, problems := ScanPiece(controlled, text, at);
      ghost var rest := ScanFrom(controlled, text, end.offset);
      assert tokens + (found + rest.tokens) == tokens + found + rest.tokens;
      assert diagnostics + (problems + rest.diagnostics) == diagnostics + problems + rest.diagnostics;
      tokens, diagnostics, at := tokens + found, diagnostics + problems, end;
    }
    r := LexResult(tokens + [Token(EOF, Text("<eof>"), "", at, at)], diagnostics);
  }

  // What a scan does with the next piece.
  lemma ScanUnfolds(controlled: bool, text: string, i: nat)
    requires i < |text|
    ensures ScanFrom(controlled, text, i) == match PieceOf(controlled, text, i)
      case Blank(end) => After([], [], ScanFrom(controlled, text, end))
      case Lexeme(kind, end) => After([TokenAt(kind, text, i, end)], [], ScanFrom(controlled, text, end))
      case Broken(problem) =>
        After([], [DiagnosticAt(problem, if problem.UnterminatedEscape? then PositionAt(text, |text|) else PositionAt(text, i))], ScanFrom(controlled, text, |text|))
      case Stray => After([], [DiagnosticAt(UnexpectedCharacter, PositionAt(text, i))], ScanFrom(controlled, text, i + 1))
  {
    hide PieceOf, PositionAt, TokenAt;
  }

  // ---------- a lexeme is the same wherever it stands ----------

  // From i to j, the other text has the same characters, some places further on.
  predicate Same(text: string, other: string, shift: int, i: nat, j: nat) {
    j <= |text| && forall k {:trigger text[k]} | i <= k < j :: 0 <= k + shift < |other| && other[k + shift] == text[k]
  }

  lemma {:induction false} DigitsShift(text: string, other: string, shift: int, i: nat)
    requires i <= |text| && 0 <= i + shift && Same(text, other, shift, i, DigitsEnd(text, i))
    requires var e := DigitsEnd(text, i) + shift; e <= |other| && (e == |other| || !IsDigit(other[e]))
    ensures DigitsEnd(other, i + shift) == DigitsEnd(text, i) + shift
    decreases |text| - i
  {
    if i < |text| && IsDigit(text[i]) {
      DigitsShift(text, other, shift, i + 1);
    }
  }

  lemma {:induction false} WordShifts(text: string, other: string, shift: int, i: nat)
    requires i <= |text| && 0 <= i + shift && Same(text, other, shift, i, WordEnd(text, i))
    requires var e := WordEnd(text, i) + shift; e <= |other| && (e == |other| || !IsWord(other[e]))
    ensures WordEnd(other, i + shift) == WordEnd(text, i) + shift
    decreases |text| - i
  {
    if i < |text| && IsWord(text[i]) {
      WordShifts(text, other, shift, i + 1);
    }
  }

  lemma {:induction false} BodyShifts(text: string, other: string, shift: int, i: nat)
    requires i <= |text| && 0 <= i + shift && BodyOf(text, i).Closed? && Same(text, other, shift, i, BodyOf(text, i).end)
    ensures i + shift < |other| && BodyOf(other, i + shift) == Closed(BodyOf(text, i).end + shift)
    ensures Spelled(other, i + shift) == Spelled(text, i)
    decreases |text| - i
  {
    if text[i] != '\"' {
      BodyShifts(text, other, shift, if text[i] == '\\' then i + 2 else i + 1);
    }
  }

  lemma SliceIsSame(text: string, i: nat, j: nat)
    requires i <= j <= |text|
    ensures Same(text, text[i..j], 0 - i, i, j)
  {
  }

  lemma Narrower(text: string, other: string, shift: int, i: nat, j: nat, k: nat, l: nat)
    requires Same(text, other, shift, i, j) && i <= k && l <= j
    ensures Same(text, other, shift, k, l)
  {
    forall m | k <= m < l ensures 0 <= m + shift < |other| && other[m + shift] == text[m] {
      SameAt(text, other, shift, i, j, m);
    }
  }

  lemma SameAt(text: string, other: string, shift: int, i: nat, j: nat, k: nat)
    requires Same(text, other, shift, i, j) && i <= k < j
    ensures 0 <= k + shift < |other| && other[k + shift] == text[k]
  {
    var c := text[k];
  }

  lemma StringValue(text: string, i: nat, end: nat)
    requires i < |text| && BodyOf(text, i + 1) == Closed(end)
    ensures ValueOf(STRING, text[i..end]) == Text(Spelled(text, i + 1))
  {
    hide Same, BodyOf, Spelled;
    SliceIsSame(text, i, end);
    Narrower(text, text[i..end], 0 - i, i, end, i + 1, end);
    BodyShifts(text, text[i..end], 0 - i, i + 1);
  }

  lemma DurationSplits(text: string, start: nat, d: nat, end: nat)
    requires start <= d <= end <= |text| && d == DigitsEnd(text, start)
    ensures ValueOf(DURATION, text[start..end]) == Milliseconds(DurationOf(text[start..d], text[d..end]))
  {
    var lexeme := text[start..end];
    hide Same, DigitsEnd, DurationOf;
    SliceIsSame(text, start, end);
    Narrower(text, lexeme, 0 - start, start, end, start, d);
    DigitsShift(text, lexeme, 0 - start, start);
    assert lexeme[..d - start] == text[start..d] && lexeme[d - start..] == text[d..end];
  }

  lemma {:induction false} NumberShifts(text: string, other: string, shift: int, i: nat)
    requires i < |text| && 0 <= i + shift && IsDigit(text[i])
    requires var end := NumberOf(text, i).end; Same(text, other, shift, i, end) && end + shift < |other| && other[end + shift] == ' '
    ensures IsDigit(other[i + shift]) && NumberOf(other, i + shift) == Lexeme(NumberOf(text, i).kind, NumberOf(text, i).end + shift)
  {
    var d := DigitsEnd(text, i);
    hide DigitsEnd;
    DigitsShift(text, other, shift, i);
    if d + 1 < |text| && text[d] == '.' && IsDigit(text[d + 1]) {
      DigitsShift(text, other, shift, d + 1);
    }
  }

  // Followed by a space, a lexeme is the same piece elsewhere.
  lemma {:induction false} PieceShifts(controlled: bool, text: string, other: string, shift: int, i: nat)
    requires i < |text| && 0 <= i + shift && PieceOf(controlled, text, i).Lexeme?
    requires var end := PieceOf(controlled, text, i).end; Same(text, other, shift, i, end) && end + shift < |other| && other[end + shift] == ' '
    ensures var p := PieceOf(controlled, text, i); PieceOf(controlled, other, i + shift) == Lexeme(p.kind, p.end + shift)
  {
    var end := PieceOf(controlled, text, i).end;
    hide Same, NumberOf, WordOf, StringOf, SymbolOf, SortOf;
    SortShifts(text, other, shift, i, end);
    match SortOf(text, i)
    case StringSort => StringShifts(text, other, shift, i);
    case NumberSort => NumberShifts(text, other, shift, i);
    case WordSort => WordOfShifts(controlled, text, other, shift, i);
    case SymbolSort => SymbolShifts(text, other, shift, i);
  }

  lemma SortShifts(text: string, other: string, shift: int, i: nat, end: nat)
    requires i < end && 0 <= i + shift && Same(text, other, shift, i, end) && end + shift < |other| && other[end + shift] == ' '
    requires !SortOf(text, i).CommentSort?
    ensures SortOf(other, i + shift) == SortOf(text, i)
  {
    SameAt(text, other, shift, i, end, i);
    if end > i + 1 {
      SameAt(text, other, shift, i, end, i + 1);
    }
    hide Same;
  }

  lemma StringShifts(text: string, other: string, shift: int, i: nat)
    requires i < |text| && 0 <= i + shift < |other| && StringOf(text, i).Lexeme? && Same(text, other, shift, i, StringOf(text, i).end)
    ensures StringOf(other, i + shift) == Lexeme(STRING, StringOf(text, i).end + shift)
  {
    hide Same, BodyOf;
    var end := StringOf(text, i).end;
    Narrower(text, other, shift, i, end, i + 1, end);
    BodyShifts(text, other, shift, i + 1);
  }

  lemma WordOfShifts(controlled: bool, text: string, other: string, shift: int, i: nat)
    requires i < |text| && 0 <= i + shift && IsWordStart(text[i])
    requires var end := WordOf(controlled, text, i).end; Same(text, other, shift, i, end) && end + shift < |other| && other[end + shift] == ' '
    ensures i + shift < |other| && IsWordStart(other[i + shift])
    ensures var p := WordOf(controlled, text, i); WordOf(controlled, other, i + shift) == Lexeme(p.kind, p.end + shift)
  {
    var end := WordOf(controlled, text, i).end;
    SameAt(text, other, shift, i, end, i);
    hide Same, WordEnd, WordKind;
    WordShifts(text, other, shift, i);
    SameSlice(text, other, shift, i, end);
  }

  lemma SymbolShifts(text: string, other: string, shift: int, i: nat)
    requires i < |text| && 0 <= i + shift && SymbolOf(text, i).Lexeme?
    requires var end := SymbolOf(text, i).end; Same(text, other, shift, i, end) && end + shift < |other| && other[end + shift] == ' '
    ensures SymbolOf(other, i + shift) == Lexeme(SymbolOf(text, i).kind, SymbolOf(text, i).end + shift)
  {
    var end := SymbolOf(text, i).end;
    SameAt(text, other, shift, i, end, i);
    if end > i + 1 {
      SameAt(text, other, shift, i, end, i + 1);
    }
    hide Same;
    assert Double(text[i], ' ') == EOF;
    hide Double, Single;
  }

  lemma SameSlice(text: string, other: string, shift: int, i: nat, j: nat)
    requires i <= j && 0 <= i + shift && j + shift <= |other| && Same(text, other, shift, i, j)
    ensures other[i + shift..j + shift] == text[i..j]
  {
    forall k | 0 <= k < j - i ensures other[i + shift..j + shift][k] == text[i..j][k] {
      assert other[(i + k) + shift] == text[i + k];
    }
  }

  datatype Plain = Plain(kind: Kind, value: TokenValue, lexeme: string)

  function PlainOf(t: Token): Plain {
    Plain(t.kind, t.value, t.lexeme)
  }

  function PlainTokens(tokens: seq<Token>): seq<Plain> {
    if tokens == [] then [] else [PlainOf(tokens[0])] + PlainTokens(tokens[1..])
  }

  // The lexemes, each followed by a space.
  function Spaced(tokens: seq<Plain>): string {
    if tokens == [] || tokens[0].kind == EOF then "" else tokens[0].lexeme + " " + Spaced(tokens[1..])
  }

  predicate Reads(text: string, i: nat, rest: string) {
    i <= |text| && text[i..] == rest
  }

  lemma Ahead(other: string, j: nat, lexeme: string, rest: string)
    requires Reads(other, j, lexeme + " " + rest)
    ensures var e := j + |lexeme|;
      e < |other| && other[j..e] == lexeme && other[e] == ' ' && Reads(other, e + 1, rest)
  {
    assert other[j..][..|lexeme|] == lexeme && other[j..][|lexeme|] == ' ' && other[j..][|lexeme| + 1..] == rest;
  }

  lemma SameFromSlices(text: string, i: nat, end: nat, other: string, j: nat)
    requires i <= end <= |text| && j + (end - i) <= |other| && other[j..j + (end - i)] == text[i..end]
    ensures Same(text, other, j - i, i, end)
  {
    forall k | i <= k < end ensures other[k + (j - i)] == text[k] {
      assert other[j..j + (end - i)][k - i] == text[i..end][k - i];
    }
  }

  // A clean scan goes from blanks and lexemes to clean scans.
  lemma CleanStep(controlled: bool, text: string, i: nat)
    requires i < |text| && ScanFrom(controlled, text, i).diagnostics == []
    ensures var p := PieceOf(controlled, text, i);
      && (p.Blank? || p.Lexeme?)
      && ScanFrom(controlled, text, p.end).diagnostics == []
      && ScanFrom(controlled, text, i).tokens ==
        if p.Blank? then ScanFrom(controlled, text, p.end).tokens
        else [TokenAt(p.kind, text, i, p.end)] + ScanFrom(controlled, text, p.end).tokens
  {
    ScanUnfolds(controlled, text, i);
    hide ScanFrom, PieceOf, TokenAt, PositionAt;
    if PieceOf(controlled, text, i).Blank? {
      AfterNothing(ScanFrom(controlled, text, PieceOf(controlled, text, i).end));
    }
  }

  // A lexeme cut out of one text and followed by a space in another is the same token there.
  lemma {:induction false} LexemeScansAgain(controlled: bool, text: string, i: nat, other: string, j: nat)
    requires i < |text| && PieceOf(controlled, text, i).Lexeme?
    requires var p := PieceOf(controlled, text, i); var e := j + (p.end - i);
      e < |other| && other[j..e] == text[i..p.end] && other[e] == ' '
    ensures var p := PieceOf(controlled, text, i); var e := j + (p.end - i);
      && PlainOf(TokenAt(p.kind, other, j, e)) == PlainOf(TokenAt(p.kind, text, i, p.end))
      && ScanFrom(controlled, other, j) == After([TokenAt(p.kind, other, j, e)], [], ScanFrom(controlled, other, e + 1))
  {
    var p := PieceOf(controlled, text, i);
    var e := j + (p.end - i);
    hide *;
    SpaceIsBlank(controlled, other, e);
    PlainAgain(p.kind, text, i, p.end, other, j, e);
    PieceAgain(controlled, text, i, other, j);
    ScanUnfolds(controlled, other, j);
  }

  lemma PieceAgain(controlled: bool, text: string, i: nat, other: string, j: nat)
    requires i < |text| && PieceOf(controlled, text, i).Lexeme?
    requires var p := PieceOf(controlled, text, i); var e := j + (p.end - i);
      e < |other| && other[j..e] == text[i..p.end] && other[e] == ' '
    ensures var p := PieceOf(controlled, text, i); PieceOf(controlled, other, j) == Lexeme(p.kind, j + (p.end - i))
  {
    hide *;
    SameFromSlices(text, i, PieceOf(controlled, text, i).end, other, j);
    PieceShifts(controlled, text, other, j - i, i);
  }

  lemma PlainAgain(kind: Kind, text: string, i: nat, end: nat, other: string, j: nat, e: nat)
    requires i <= end <= |text| && j <= e <= |other| && other[j..e] == text[i..end]
    ensures PlainOf(TokenAt(kind, other, j, e)) == PlainOf(TokenAt(kind, text, i, end))
  {
    hide PositionAt, ValueOf;
  }

  lemma SpaceIsBlank(controlled: bool, text: string, i: nat)
    requires i < |text| && text[i] == ' '
    ensures ScanFrom(controlled, text, i) == ScanFrom(controlled, text, i + 1)
  {
    ScanUnfolds(controlled, text, i);
    assert PieceOf(controlled, text, i) == Blank(i + 1);
    hide ScanFrom, PieceOf;
    AfterNothing(ScanFrom(controlled, text, i + 1));
  }

  lemma {:induction false} SpacedScans(controlled: bool, text: string, i: nat, other: string, j: nat)
    requires i <= |text| && ScanFrom(controlled, text, i).diagnostics == []
    requires Reads(other, j, Spaced(PlainTokens(ScanFrom(controlled, text, i).tokens)))
    ensures var r := ScanFrom(controlled, other, j);
      r.diagnostics == [] && PlainTokens(r.tokens) == PlainTokens(ScanFrom(controlled, text, i).tokens)
    decreases |text| - i
  {
    if i == |text| {
      hide PositionAt;
      assert PlainTokens([EndOfText(text)]) == [PlainOf(EndOfText(text))] == PlainTokens([EndOfText(other)]);
      assert j == |other|;
    } else {
      CleanStep(controlled, text, i);
      hide *;
      if PieceOf(controlled, text, i).Blank? {
        SpacedScans(controlled, text, PieceOf(controlled, text, i).end, other, j);
      } else {
        SpacedLexemeScans(controlled, text, i, other, j);
      }
    }
  }

  lemma {:induction false} SpacedLexemeScans(controlled: bool, text: string, i: nat, other: string, j: nat)
    requires i < |text| && ScanFrom(controlled, text, i).diagnostics == [] && PieceOf(controlled, text, i).Lexeme?
    requires Reads(other, j, Spaced(PlainTokens(ScanFrom(controlled, text, i).tokens)))
    ensures var r := ScanFrom(controlled, other, j);
      r.diagnostics == [] && PlainTokens(r.tokens) == PlainTokens(ScanFrom(controlled, text, i).tokens)
    decreases |text| - i, 0
  {
    hide *;
    var p := PieceOf(controlled, text, i);
    var e := j + (p.end - i);
    var rest := ScanFrom(controlled, text, p.end).tokens;
    CleanStep(controlled, text, i);
    SpacedMore(TokenAt(p.kind, text, i, p.end), rest);
    LexemeOf(p.kind, text, i, p.end);
    Ahead(other, j, text[i..p.end], Spaced(PlainTokens(rest)));
    LexemeScansAgain(controlled, text, i, other, j);
    SpacedScans(controlled, text, p.end, other, e + 1);
    SpacedMore(TokenAt(p.kind, other, j, e), ScanFrom(controlled, other, e + 1).tokens);
    AfterOne(TokenAt(p.kind, other, j, e), ScanFrom(controlled, other, e + 1));
  }

  lemma AfterOne(t: Token, r: LexResult)
    ensures After([t], [], r) == LexResult([t] + r.tokens, r.diagnostics)
  {
  }

  lemma AfterNothing(r: LexResult)
    ensures After([], [], r) == r
  {
  }

  lemma LexemeOf(kind: Kind, text: string, i: nat, end: nat)
    requires i <= end <= |text|
    ensures TokenAt(kind, text, i, end).kind == kind && TokenAt(kind, text, i, end).lexeme == text[i..end]
  {
  }

  lemma SpacedMore(t: Token, rest: seq<Token>)
    ensures PlainTokens([t] + rest) == [PlainOf(t)] + PlainTokens(rest)
    ensures Spaced(PlainTokens([t] + rest)) == if t.kind == EOF then "" else t.lexeme + " " + Spaced(PlainTokens(rest))
  {
    assert ([t] + rest)[1..] == rest;
    assert ([PlainOf(t)] + PlainTokens(rest))[1..] == PlainTokens(rest);
  }

  // Layout is immaterial: the lexemes of a text, written out with one space after each, scan to the
  // same tokens, with the same kinds and values.
  lemma LayoutIsImmaterial(controlled: bool, text: string)
    requires ScanFrom(controlled, text, 0).diagnostics == []
    ensures var plain := PlainTokens(ScanFrom(controlled, text, 0).tokens); var r := ScanFrom(controlled, Spaced(plain), 0);
      r.diagnostics == [] && PlainTokens(r.tokens) == plain
  {
    var other := Spaced(PlainTokens(ScanFrom(controlled, text, 0).tokens));
    assert other[0..] == other;
    hide ScanFrom, PlainTokens, Spaced;
    SpacedScans(controlled, text, 0, other, 0);
  }

  // ---------- tiling ----------

  // Only white space and whole comments stand between the two offsets.
  predicate OnlyBlanks(text: string, start: int, to: int)
    requires 0 <= start <= to <= |text|
    decreases |text| - start
  {
    || start == to
    || (IsSpace(text[start]) && OnlyBlanks(text, start + 1, to))
    || (CommentStarts(text, start) && LineEnd(text, start) > start && LineEnd(text, start) <= to && OnlyBlanks(text, LineEnd(text, start), to))
  }

  function EndBefore(tokens: seq<Token>, k: nat, start: nat): nat
    requires k <= |tokens|
  {
    if k == 0 then start else tokens[k - 1].end.offset
  }

  ghost predicate Placed(text: string, t: Token, start: nat) {
    && start <= t.start.offset <= t.end.offset <= |text|
    && t.lexeme == text[t.start.offset..t.end.offset] && t.value == (if t.kind == EOF then Text("<eof>") else ValueOf(t.kind, t.lexeme))
    && t.start == PositionAt(text, t.start.offset) && t.end == PositionAt(text, t.end.offset)
    && OnlyBlanks(text, start, t.start.offset)
  }

  ghost predicate TileAt(text: string, tokens: seq<Token>, k: nat, start: nat)
    requires k < |tokens|
  {
    && Placed(text, tokens[k], EndBefore(tokens, k, start))
    && (tokens[k].kind == EOF <==> k == |tokens| - 1)
    && (tokens[k].kind == EOF <==> tokens[k].lexeme == "")
  }

  // The tokens cover the text from an offset on, in order, with only blanks between them.
  ghost predicate Tiles(text: string, tokens: seq<Token>, start: nat) {
    && tokens != [] && tokens[|tokens| - 1] == EndOfText(text)
    && forall k | 0 <= k < |tokens| :: TileAt(text, tokens, k, start)
  }

  lemma BlanksExtend(text: string, i: nat, end: nat, to: nat)
    requires i < end <= to <= |text| && OnlyBlanks(text, end, to)
    requires (end == i + 1 && IsSpace(text[i])) || (CommentStarts(text, i) && end == LineEnd(text, i))
    ensures OnlyBlanks(text, i, to)
  {
    hide LineEnd;
  }

  lemma {:induction false} MoreBlanks(text: string, i: nat, end: nat, tokens: seq<Token>)
    requires i < end <= |text| && Tiles(text, tokens, end)
    requires (end == i + 1 && IsSpace(text[i])) || (CommentStarts(text, i) && end == LineEnd(text, i))
    ensures Tiles(text, tokens, i)
  {
    hide OnlyBlanks, PositionAt, ValueOf, LineEnd, EndOfText;
    assert TileAt(text, tokens, 0, end);
    BlanksExtend(text, i, end, tokens[0].start.offset);
    assert TileAt(text, tokens, 0, i);
    hide Placed;
    forall k | 0 <= k < |tokens| ensures TileAt(text, tokens, k, i) {
      assert TileAt(text, tokens, k, end);
    }
  }

  lemma LaterTile(text: string, t: Token, rest: seq<Token>, k: nat, start: nat)
    requires k < |rest| && TileAt(text, rest, k, t.end.offset)
    ensures TileAt(text, [t] + rest, k + 1, start)
  {
    hide Placed;
    var all := [t] + rest;
    assert all[k + 1] == rest[k] && all[k] == if k == 0 then t else rest[k - 1];
  }

  lemma {:induction false} OneMoreTile(text: string, t: Token, rest: seq<Token>, start: nat)
    requires Placed(text, t, start) && t.kind != EOF && t.lexeme != "" && Tiles(text, rest, t.end.offset)
    ensures Tiles(text, [t] + rest, start)
  {
    hide Placed, EndOfText;
    var all := [t] + rest;
    assert TileAt(text, all, 0, start);
    hide TileAt;
    forall k | 0 <= k < |all| ensures TileAt(text, all, k, start) {
      if k > 0 {
        LaterTile(text, t, rest, k - 1, start);
      }
    }
  }

  lemma TokenIsPlaced(kind: Kind, text: string, i: nat, end: nat)
    requires i < end <= |text| && kind != EOF
    ensures Placed(text, TokenAt(kind, text, i, end), i)
  {
    hide PositionAt, ValueOf;
  }

  lemma {:induction false} CleanScanTilesFrom(controlled: bool, text: string, i: nat)
    requires i <= |text| && ScanFrom(controlled, text, i).diagnostics == []
    ensures Tiles(text, ScanFrom(controlled, text, i).tokens, i)
    decreases |text| - i
  {
    if i == |text| {
      hide PositionAt, ValueOf;
      assert Placed(text, EndOfText(text), i);
    } else {
      CleanStep(controlled, text, i);
      hide *;
      var p := PieceOf(controlled, text, i);
      CleanScanTilesFrom(controlled, text, p.end);
      if p.Blank? {
        BlankPiece(controlled, text, i);
        MoreBlanks(text, i, p.end, ScanFrom(controlled, text, p.end).tokens);
      } else {
        TokenIsPlaced(p.kind, text, i, p.end);
        LexemeOf(p.kind, text, i, p.end);
        TokenEnds(p.kind, text, i, p.end);
        OneMoreTile(text, TokenAt(p.kind, text, i, p.end), ScanFrom(controlled, text, p.end).tokens, i);
      }
    }
  }

  lemma BlankPiece(controlled: bool, text: string, i: nat)
    requires i < |text| && PieceOf(controlled, text, i).Blank?
    ensures var end := PieceOf(controlled, text, i).end;
      (end == i + 1 && IsSpace(text[i])) || (CommentStarts(text, i) && end == LineEnd(text, i))
  {
    hide NumberOf, StringOf, SymbolOf, WordKind, LineEnd;
  }

  lemma TokenEnds(kind: Kind, text: string, i: nat, end: nat)
    requires i <= end <= |text|
    ensures TokenAt(kind, text, i, end).end.offset == end
  {
  }

  // A text scanned without a diagnostic is tiled by its tokens: each lexeme is its slice of the text
  // and stands for its token's value, the tokens follow one another, and nothing but white space and
  // comments is left between them; every line and column is the number of line breaks before it and
  // the distance from the last of them.
  lemma CleanScanTiles(controlled: bool, text: string)
    requires ScanFrom(controlled, text, 0).diagnostics == []
    ensures Tiles(text, ScanFrom(controlled, text, 0).tokens, 0)
  {
    CleanScanTilesFrom(controlled, text, 0);
  }
}
