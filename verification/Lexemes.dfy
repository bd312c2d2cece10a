// What tokens are: every token of every scan is what its lexeme spells.

module Lexemes {
  import opened Numerals
  import opened Lexer

  // The text between the quotes, escapes and all, stands for the string.
  ghost predicate Unquotes(body: string, s: string)
    decreases |body|
  {
    if body == "" then s == ""
    else if body[0] == '\\' then
      && |body| >= 2 && s != "" && Unquotes(body[2..], s[1..])
      && (body[1] == 'n' ==> s[0] == '\n') && (body[1] == 't' ==> s[0] == '\t') && (body[1] == 'r' ==> s[0] == '\r')
      && (body[1] != 'n' && body[1] != 't' && body[1] != 'r' ==> s[0] == body[1])
    else body[0] != '\"' && s != "" && s[0] == body[0] && Unquotes(body[1..], s[1..])
  }

  ghost predicate IsQuoted(lexeme: string, body: string, s: string) {
    lexeme == "\"" + body + "\"" && Unquotes(body, s)
  }

  predicate AreDigits(s: string) {
    s != "" && AllDigits(s)
  }

  // Milliseconds, seconds or minutes.
  ghost predicate Lasts(lexeme: string, digits: string, n: nat) {
    && AreDigits(digits)
    && ((lexeme == digits + "ms" && n == Number(digits)) || (lexeme == digits + "s" && n == 1000 * Number(digits)) || (lexeme == digits + "m" && n == 60000 * Number(digits)))
  }

  predicate IsWordText(s: string) {
    s != "" && IsWordStart(s[0]) && forall i | 0 <= i < |s| :: IsWord(s[i])
  }

  // The words that are no names.
  predicate Reserved(controlled: bool, s: string) {
    || s in ["language", "skill", "version", "description", "risk", "include", "requires", "limits", "input", "context", "output", "tool"]
    || s in ["let", "read", "foreach", "in", "max", "check", "assert", "severity", "on_fail", "message", "emit"]
    || (controlled && s in ["write", "approve", "approved_by"])
  }

  // The lexeme is one of that kind, and the value what it spells.
  ghost predicate Fits(controlled: bool, kind: Kind, value: TokenValue, lexeme: string) {
    match kind
    case STRING => exists body, s :: IsQuoted(lexeme, body, s) && value == Text(s)
    case INTEGER => AreDigits(lexeme) && value == Text(lexeme)
    case DECIMAL => value == Text(lexeme) && exists whole, fraction :: AreDigits(whole) && AreDigits(fraction) && lexeme == whole + "." + fraction
    case DURATION => exists digits, n :: Lasts(lexeme, digits, n) && value == Milliseconds(n)
    case BOOLEAN => (lexeme == "true" && value == Flag(true)) || (lexeme == "false" && value == Flag(false))
    case KEYWORD => Reserved(controlled, lexeme) && value == Text(lexeme)
    case IDENTIFIER => IsWordText(lexeme) && !Reserved(controlled, lexeme) && lexeme != "true" && lexeme != "false" && value == Text(lexeme)
    case LBRACE => lexeme == "{" && value == Text(lexeme)
    case RBRACE => lexeme == "}" && value == Text(lexeme)
    case LPAREN => lexeme == "(" && value == Text(lexeme)
    case RPAREN => lexeme == ")" && value == Text(lexeme)
    case COLON => lexeme == ":" && value == Text(lexeme)
    case SEMICOLON => lexeme == ";" && value == Text(lexeme)
    case COMMA => lexeme == "," && value == Text(lexeme)
    case DOT => lexeme == "." && value == Text(lexeme)
    case ASSIGN => lexeme == "=" && value == Text(lexeme)
    case PLUS => lexeme == "+" && value == Text(lexeme)
    case MINUS => lexeme == "-" && value == Text(lexeme)
    case STAR => lexeme == "*" && value == Text(lexeme)
    case SLASH => lexeme == "/" && value == Text(lexeme)
    case EQ => lexeme == "==" && value == Text(lexeme)
    case NE => lexeme == "!=" && value == Text(lexeme)
    case LT => lexeme == "<" && value == Text(lexeme)
    case LE => lexeme == "<=" && value == Text(lexeme)
    case GT => lexeme == ">" && value == Text(lexeme)
    case GE => lexeme == ">=" && value == Text(lexeme)
    case EOF => lexeme == "" && value == Text("<eof>")
  }

  lemma {:induction false} DigitsBetween(text: string, i: nat)
    requires i <= |text|
    ensures AllDigits(text[i..DigitsEnd(text, i)])
    decreases |text| - i
  {
    if i < |text| && IsDigit(text[i]) {
      DigitsBetween(text, i + 1);
      var e := DigitsEnd(text, i);
      assert text[i..e] == [text[i]] + text[i + 1..e];
    }
  }

  lemma {:induction false} WordBetween(text: string, i: nat)
    requires i <= |text|
    ensures forall k | 0 <= k < WordEnd(text, i) - i :: IsWord(text[i..WordEnd(text, i)][k])
    decreases |text| - i
  {
    if i < |text| && IsWord(text[i]) {
      WordBetween(text, i + 1);
      var e := WordEnd(text, i);
      assert text[i..e] == [text[i]] + text[i + 1..e];
    }
  }

  lemma {:induction false} BodyUnquotes(text: string, i: nat, end: nat)
    requires i <= |text| && BodyOf(text, i) == Closed(end)
    ensures i < end <= |text| && text[end - 1] == '\"' && Unquotes(text[i..end - 1], Spelled(text, i))
    decreases |text| - i
  {
    if text[i] != '\"' {
      var next := if text[i] == '\\' then i + 2 else i + 1;
      BodyUnquotes(text, next, end);
      var body := text[i..end - 1];
      assert body[next - i..] == text[next..end - 1];
      assert Spelled(text, i)[1..] == Spelled(text, next);
    }
  }

  lemma {:induction false} StringFits(controlled: bool, text: string, i: nat, end: nat)
    requires i < |text| && text[i] == '\"' && BodyOf(text, i + 1) == Closed(end)
    ensures Fits(controlled, STRING, ValueOf(STRING, text[i..end]), text[i..end])
  {
    StringValue(text, i, end);
    BodyUnquotes(text, i + 1, end);
    hide BodyOf, Unquotes, Spelled, ValueOf;
    var body, s := text[i + 1..end - 1], Spelled(text, i + 1);
    assert text[i..end] == "\"" + body + "\"";
    assert IsQuoted(text[i..end], body, s);
  }

  lemma {:induction false} NumberFits(controlled: bool, text: string, i: nat)
    requires i < |text| && IsDigit(text[i])
    ensures var p := NumberOf(text, i); Fits(controlled, p.kind, ValueOf(p.kind, text[i..p.end]), text[i..p.end])
  {
    var d := DigitsEnd(text, i);
    var p := NumberOf(text, i);
    DigitsBetween(text, i);
    var whole := text[i..d];
    var lexeme := text[i..p.end];
    assert d > i && AreDigits(whole);
    if p.kind == DECIMAL {
      DigitsBetween(text, d + 1);
      var fraction := text[d + 1..p.end];
      assert lexeme == whole + "." + fraction && AreDigits(fraction);
    } else if p.kind == DURATION {
      DurationSplits(text, i, d, p.end);
      var unit := text[d..p.end];
      assert lexeme == whole + unit && (unit == "ms" || unit == "s" || unit == "m");
      assert Lasts(lexeme, whole, DurationOf(whole, unit));
    } else {
      assert lexeme == whole;
    }
    hide DigitsEnd, Number;
  }

  lemma WordFits(controlled: bool, text: string, i: nat)
    requires i < |text| && IsWordStart(text[i])
    ensures var p := WordOf(controlled, text, i); Fits(controlled, p.kind, ValueOf(p.kind, text[i..p.end]), text[i..p.end])
  {
    WordBetween(text, i);
    hide WordEnd;
  }

  lemma SymbolFits(controlled: bool, text: string, i: nat)
    requires i < |text| && SymbolOf(text, i).Lexeme?
    ensures var p := SymbolOf(text, i); Fits(controlled, p.kind, ValueOf(p.kind, text[i..p.end]), text[i..p.end])
  {
    var p := SymbolOf(text, i);
    if p.end == i + 2 {
      assert text[i..p.end] == [text[i], text[i + 1]];
    } else {
      assert text[i..p.end] == [text[i]];
    }
  }

  lemma PieceFits(controlled: bool, text: string, i: nat)
    requires i < |text| && PieceOf(controlled, text, i).Lexeme?
    ensures var p := PieceOf(controlled, text, i); Fits(controlled, p.kind, ValueOf(p.kind, text[i..p.end]), text[i..p.end])
  {
    hide NumberOf, WordOf, SymbolOf, ValueOf, Fits, BodyOf;
    match SortOf(text, i)
    case StringSort => StringFits(controlled, text, i, PieceOf(controlled, text, i).end);
    case NumberSort => NumberFits(controlled, text, i);
    case WordSort => WordFits(controlled, text, i);
    case SymbolSort => SymbolFits(controlled, text, i);
  }

  ghost predicate AllFit(controlled: bool, tokens: seq<Token>) {
    forall k | 0 <= k < |tokens| :: Fits(controlled, tokens[k].kind, tokens[k].value, tokens[k].lexeme)
  }

  // Every token of a scan, clean or not, has the kind and the value that its lexeme spells.
  lemma {:induction false} TokensFitTheirLexemes(controlled: bool, text: string, i: nat)
    requires i <= |text|
    ensures AllFit(controlled, ScanFrom(controlled, text, i).tokens)
    decreases |text| - i
  {
    hide PieceOf, ValueOf, PositionAt;
    if i < |text| {
      var p := PieceOf(controlled, text, i);
      match p {
        case Blank(end) => TokensFitTheirLexemes(controlled, text, end);
        case Lexeme(kind, end) =>
          PieceFits(controlled, text, i);
          TokensFitTheirLexemes(controlled, text, end);
        case Broken(_) => TokensFitTheirLexemes(controlled, text, |text|);
        case Stray => TokensFitTheirLexemes(controlled, text, i + 1);
      }
      hide Fits;
    }
  }
}
