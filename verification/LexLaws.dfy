/** What the tokens of a text look like (fpp_lexer/src/lexer.rs:149-472, fpp_lsp_parser/src/lexed_str.rs:159-349). */
module LexLaws {
  import opened LogicalText
  import opened LexedText
  import Lexing
  import opened Syntax

  /** The tokens of one character. */
  function SymbolOf(c: char): SyntaxKind {
    match c
    case '(' => LEFT_PAREN
    case ')' => RIGHT_PAREN
    case '{' => LEFT_CURLY
    case '}' => RIGHT_CURLY
    case '[' => LEFT_SQUARE
    case ']' => RIGHT_SQUARE
    case ',' => COMMA
    case ';' => SEMI
    case ':' => COLON
    case '=' => EQUALS
    case '+' => PLUS
    case '*' => STAR
    case '/' => SLASH
    case '-' => MINUS
    case '.' => DOT
    case _ => UNKNOWN
  }

  predicate IsLetter(c: char) {
    'a' <= c <= 'z' || 'A' <= c <= 'Z' || c == '_'
  }

  predicate IsDigit(c: char) {
    '0' <= c <= '9'
  }

  predicate IsHex(c: char) {
    IsDigit(c) || 'a' <= c <= 'f' || 'A' <= c <= 'F'
  }

  /** Whether all of `text` has the property, and the next character has not. */
  predicate IsLongest(text: string, rest: string, p: char -> bool) {
    (forall i :: 0 <= i < |text| ==> p(text[i])) && (rest == "" || !p(rest[0]))
  }

  lemma {:induction false} SkipsLongest(l: string, p: char -> bool) returns (taken: string)
    ensures l == taken + SkipWhile(l, p) && IsLongest(taken, SkipWhile(l, p), p)
    ensures l != "" ==> if p(l[0]) then taken != "" else taken == ""
  {
    if l != "" && p(l[0]) {
      var more := SkipsLongest(l[1..], p);
      taken := [l[0]] + more;
      assert l == [l[0]] + l[1..];
    } else {
      taken := "";
    }
  }

  // ---- Words, lines and symbols -----------------------------------------------------------

  predicate IsWordChar(c: char) {
    IsLetter(c) || IsDigit(c)
  }

  /** A word, and the kind that it has unless it is escaped. */
  ghost predicate IsWord(text: string, rest: string, kind: SyntaxKind, keywords: Keywords) {
    && 0 < |text|
    && if text[0] == '$' then 1 < |text| && IsLetter(text[1]) && IsLongest(text[1..], rest, IsWordChar) && kind == IDENT
       else
         && IsLetter(text[0]) && IsLongest(text, rest, IsWordChar)
         && kind == if text in keywords then keywords[text] else IDENT
  }

  /** An end of line with those after it, or spaces, or a comment or annotation up to the end of the line. */
  ghost predicate IsLine(text: string, rest: string, kind: SyntaxKind) {
    && 0 < |text|
    && match text[0]
       case '\n' => kind == EOL && IsLongest(text, rest, c => c == '\n')
       case ' ' => kind == WHITESPACE && IsLongest(text, rest, c => c == ' ')
       case '#' => kind == COMMENT && IsLongest(text, rest, c => c != '\n')
       case '@' =>
         && kind == (if 1 < |text| && text[1] == '<' then POST_ANNOTATION else PRE_ANNOTATION)
         && IsLongest(text, rest, c => c != '\n')
       case _ => false
  }

  /** A token with a fixed text: the longest that there is. */
  ghost predicate IsFixed(text: string, rest: string, kind: SyntaxKind) {
    || (&& |text| == 1 && kind == SymbolOf(text[0]) != UNKNOWN
        && (text[0] == '-' && rest != "" ==> rest[0] != '>') && (text[0] == '.' && rest != "" ==> !IsDigit(rest[0])))
    || (text == ['-', '>'] && kind == RIGHT_ARROW) || (text == ['<', '<'] && kind == SHIFT_LEFT)
    || (text == ['>', '>'] && kind == SHIFT_RIGHT)
  }

  /** A character that begins no token. */
  ghost predicate IsUnknown(text: string, rest: string, kind: SyntaxKind) {
    && kind == UNKNOWN && |text| == 1 && SymbolOf(text[0]) == UNKNOWN
    && !IsWordChar(text[0]) && text[0] !in ['\n', ' ', '#', '@', '\\', '"']
    && (text[0] == '$' && rest != "" ==> !IsLetter(rest[0]))
    && (text[0] in ['<', '>'] && rest != "" ==> text[0] != rest[0])
  }

  // ---- Numbers ------------------------------------------------------------------------------

  ghost predicate AreDigits(s: string) {
    forall i :: 0 <= i < |s| ==> IsDigit(s[i])
  }

  /** An exponent, or nothing. */
  ghost predicate IsExponent(s: string) {
    || s == ""
    || (&& 1 < |s| && s[0] in ['e', 'E']
        && if s[1] in ['+', '-'] then 2 < |s| && AreDigits(s[2..]) else AreDigits(s[1..]))
  }

  ghost predicate IsFloatOf(text: string, whole: string, fraction: string, exponent: string) {
    && text == whole + fraction + exponent
    && AreDigits(whole) && IsExponent(exponent)
    && (fraction == "" || (fraction[0] == '.' && AreDigits(fraction[1..])))
  }

  /** An integer, decimal or hexadecimal, or a number with a fraction or an exponent; the exponent may
      be broken off. */
  ghost predicate IsNumber(text: string, rest: string, kind: SyntaxKind) {
    && 0 < |text| && (IsDigit(text[0]) || (text[0] == '.' && 1 < |text|))
    && (|| (kind == LITERAL_INT && IsLongest(text, rest, IsDigit) && !(rest != "" && rest[0] in ['.', 'e', 'E'])
            && !(text == "0" && rest != "" && rest[0] in ['x', 'X']))
        || (kind == LITERAL_INT && 1 < |text| && text[0] == '0' && text[1] in ['x', 'X'] && IsLongest(text[2..], rest, IsHex))
        || (kind == LITERAL_FLOAT && (exists whole, fraction, exponent :: IsFloatOf(text, whole, fraction, exponent))
            && (AreDigits(text) ==> rest != "" && rest[0] in ['e', 'E'])))
  }

  // ---- String literals and continuations -------------------------------------------------------

  /** Characters of a line, each of which may be escaped, without an unescaped quote. */
  predicate AreQuoted(s: string) {
    s == "" || (s[0] == '\\' && 1 < |s| && s[1] != '\n' && AreQuoted(s[2..]))
    || (s[0] !in ['\\', '"', '\n'] && AreQuoted(s[1..]))
  }

  /** A literal in quotes on one line; if it is not closed, it goes on to the end of the line. */
  ghost predicate IsSingleLine(text: string, rest: string) {
    || (2 <= |text| && text[0] == '"' && text[|text| - 1] == '"' && AreQuoted(text[1..|text| - 1]))
    || (&& 1 <= |text| && text[0] == '"' && (rest == "" || rest[0] == '\n')
        && (AreQuoted(text[1..]) || (text[|text| - 1] == '\\' && AreQuoted(text[1..|text| - 1]))))
  }

  /** A string literal. */
  ghost predicate IsString(text: string, rest: string, kind: SyntaxKind) {
    && kind == LITERAL_STRING
    && (IsSingleLine(text, rest)
        || (3 <= |text| && text[0] == text[1] == text[2] == '"'
            && (rest == "" || (6 <= |text| && text[|text| - 1] == text[|text| - 2] == text[|text| - 3] == '"'))))
  }

  /** A backslash, and the rest of its line. */
  ghost predicate IsContinuation(text: string, rest: string, kind: SyntaxKind) {
    && kind == WHITESPACE && 0 < |text| && text[0] == '\\'
    && (forall i :: 0 <= i < |text| - 1 ==> text[i] != '\n')
    && (text[|text| - 1] == '\n' || rest == "")
  }

  /** What a token looks like. */
  ghost predicate IsToken(text: string, rest: string, kind: SyntaxKind, keywords: Keywords) {
    || IsWord(text, rest, kind, keywords) || IsLine(text, rest, kind) || IsFixed(text, rest, kind) || IsNumber(text, rest, kind)
    || IsString(text, rest, kind) || IsContinuation(text, rest, kind) || IsUnknown(text, rest, kind)
  }

  // ---- Every token looks like one ------------------------------------------------------------------

  lemma HeadOf(a: string, b: string)
    ensures a != "" ==> (a + b)[0] == a[0]
    ensures a == "" ==> a + b == b
  {
  }

  lemma Chained(l: string, a: string, r: string, b: string, e: string)
    requires l == a + r && r == b + e
    ensures l == a + b + e
  {
  }

  lemma Cut(l: string, n: nat)
    requires n <= |l|
    ensures l == l[..n] + l[n..]
  {
  }

  lemma WordLooks(c: char, t: string, keywords: Keywords) returns (taken: string)
    requires IsIdentifierFirst(c)
    ensures var s := ScanAfter(c, t, IsKeywordOf(keywords));
            t == taken + s.rest && IsWord([c] + taken, s.rest, KindOf(s.kind, keywords), keywords)
  {
    hide SkipWhile;
    taken := SkipsLongest(t, IsIdentifierRest);
    var r := SkipWhile(t, IsIdentifierRest);
    assert t[..|t| - |r|] == taken;
  }

  lemma EscapedLooks(t: string, keywords: Keywords) returns (taken: string)
    ensures var s := ScanAfter('$', t, IsKeywordOf(keywords));
            && t == taken + s.rest
            && (IsWord(['$'] + taken, s.rest, KindOf(s.kind, keywords), keywords)
                || IsUnknown(['$'] + taken, s.rest, KindOf(s.kind, keywords)))
  {
    hide SkipWhile, ScanAfter, IsWord, IsUnknown, IsKeywordOf, KindOf;
    AfterIsEscape(t, keywords);
    if IsIdentifierFirst(Peek(t, 0)) {
      taken := SkipsLongest(t, IsIdentifierRest);
      HeadOf(taken, SkipWhile(t, IsIdentifierRest));
      EscapedIs(taken, SkipWhile(t, IsIdentifierRest), keywords);
    } else {
      taken := "";
      assert t == "" + t && ['$'] + "" == ['$'];
      DollarIs(t);
    }
  }

  lemma AfterIsEscape(t: string, keywords: Keywords)
    ensures ScanAfter('$', t, IsKeywordOf(keywords))
         == if IsIdentifierFirst(Peek(t, 0)) then Scan(Identifier, SkipWhile(t, IsIdentifierRest)) else Scan(Unknown, t)
    ensures KindOf(Unknown, keywords) == UNKNOWN
  {
    hide SkipWhile;
  }

  lemma DollarIs(t: string)
    requires !IsIdentifierFirst(Peek(t, 0))
    ensures IsUnknown(['$'], t, UNKNOWN)
  {
  }

  lemma EscapedIs(taken: string, rest: string, keywords: Keywords)
    requires taken != "" && IsIdentifierFirst(taken[0]) && IsLongest(taken, rest, IsIdentifierRest)
    ensures IsWord(['$'] + taken, rest, KindOf(Identifier, keywords), keywords)
  {
    assert (['$'] + taken)[1..] == taken;
  }

  lemma BlankLooks(t: string, keywords: Keywords) returns (taken: string)
    ensures var s := ScanAfter(' ', t, IsKeywordOf(keywords));
            t == taken + s.rest && IsLine([' '] + taken, s.rest, KindOf(s.kind, keywords))
  {
    hide SkipWhile;
    taken := SkipsLongest(t, LogicalText.IsSpace);
  }

  lemma EolLooks(t: string, keywords: Keywords) returns (taken: string)
    ensures var s := ScanAfter('\n', t, IsKeywordOf(keywords));
            t == taken + s.rest && IsLine(['\n'] + taken, s.rest, KindOf(s.kind, keywords))
  {
    hide SkipWhile;
    taken := SkipsLongest(t, IsNewline);
  }

  lemma CommentLooks(t: string, keywords: Keywords) returns (taken: string)
    ensures var s := ScanAfter('#', t, IsKeywordOf(keywords));
            t == taken + s.rest && IsLine(['#'] + taken, s.rest, KindOf(s.kind, keywords))
  {
    hide SkipWhile;
    taken := SkipsLongest(t, IsNotNewline);
  }

  lemma AnnotationLooks(t: string, keywords: Keywords) returns (taken: string)
    ensures var s := ScanAfter('@', t, IsKeywordOf(keywords));
            t == taken + s.rest && IsLine(['@'] + taken, s.rest, KindOf(s.kind, keywords))
  {
    hide SkipWhile, ScanAfter, ScanSymbol, KindOf, IsKeywordOf, IsLine, IsLongest;
    AfterIsAnnotation(t, keywords);
    Lexing.SymbolCases('@', t);
    if Peek(t, 0) == '<' {
      taken := PostLooks(t);
    } else {
      taken := PreLooks(t);
    }
  }

  lemma PostLooks(t: string) returns (taken: string)
    requires Peek(t, 0) == '<'
    ensures var rest := SkipWhile(Drop(t), IsNotNewline); t == taken + rest && IsLine(['@'] + taken, rest, POST_ANNOTATION)
  {
    hide SkipWhile, IsLine, IsLongest;
    var more := SkipsLongest(t[1..], IsNotNewline);
    taken := ['<'] + more;
    Cut(t, 1);
    assert t[..1] == ['<'];
    Chained(t, ['<'], t[1..], more, SkipWhile(t[1..], IsNotNewline));
    AnnotationIs(more, SkipWhile(t[1..], IsNotNewline));
  }

  lemma PreLooks(t: string) returns (taken: string)
    requires Peek(t, 0) != '<'
    ensures var rest := SkipWhile(t, IsNotNewline); t == taken + rest && IsLine(['@'] + taken, rest, PRE_ANNOTATION)
  {
    hide SkipWhile, IsLine, IsLongest;
    taken := SkipsLongest(t, IsNotNewline);
    HeadOf(taken, SkipWhile(t, IsNotNewline));
    PlainAnnotationIs(taken, SkipWhile(t, IsNotNewline));
  }

  lemma AfterIsAnnotation(t: string, keywords: Keywords)
    ensures ScanAfter('@', t, IsKeywordOf(keywords)) == ScanSymbol('@', t)
    ensures KindOf(PostAnnotation, keywords) == POST_ANNOTATION && KindOf(PreAnnotation, keywords) == PRE_ANNOTATION
  {
    hide SkipWhile, ScanSymbol;
  }

  lemma AnnotationIs(more: string, rest: string)
    requires IsLongest(more, rest, IsNotNewline)
    ensures IsLine(['@'] + (['<'] + more), rest, POST_ANNOTATION)
  {
  }

  lemma PlainAnnotationIs(taken: string, rest: string)
    requires IsLongest(taken, rest, IsNotNewline) && (taken != "" ==> taken[0] != '<')
    ensures IsLine(['@'] + taken, rest, PRE_ANNOTATION)
  {
  }

  lemma ContinuationLooks(t: string, keywords: Keywords) returns (taken: string)
    ensures var s := ScanAfter('\\', t, IsKeywordOf(keywords));
            t == taken + s.rest && IsContinuation(['\\'] + taken, s.rest, KindOf(s.kind, keywords))
  {
    hide SkipWhile, ScanAfter, KindOf, IsKeywordOf, IsContinuation;
    AfterIsContinuation(t, keywords);
    var spaces := SkipsLongest(t, LogicalText.IsSpace);
    var r := SkipWhile(t, LogicalText.IsSpace);
    var more := SkipsLongest(r, IsNotNewline);
    var e := if Peek(r, 0) != LF then SkipWhile(r, IsNotNewline) else r;
    var body := spaces + if Peek(r, 0) != LF then more else "";
    assert t == body + e;
    taken := EndOfLine(body, e);
  }

  lemma AfterIsContinuation(t: string, keywords: Keywords)
    ensures ScanAfter('\\', t, IsKeywordOf(keywords)) == Scan(Whitespace, ContinuationEnd(t))
    ensures KindOf(Whitespace, keywords) == WHITESPACE
  {
    hide SkipWhile, ContinuationEnd;
  }

  /** A line without ends of lines, and the end behind it. */
  lemma EndOfLine(body: string, e: string) returns (taken: string)
    requires (forall i :: 0 <= i < |body| ==> body[i] != '\n') && (e != "" ==> e[0] == '\n')
    ensures body + e == taken + Drop(e) && IsContinuation(['\\'] + taken, Drop(e), WHITESPACE)
  {
    taken := if e == "" then body else body + ['\n'];
    if e != "" {
      assert e == ['\n'] + e[1..];
    }
  }

  lemma DashLooks(t: string, keywords: Keywords) returns (taken: string)
    ensures var s := ScanAfter('-', t, IsKeywordOf(keywords));
            t == taken + s.rest && IsFixed(['-'] + taken, s.rest, KindOf(s.kind, keywords))
  {
    hide ScanAfter, ScanSymbol, KindOf, IsKeywordOf, IsFixed;
    AfterIsDash(t, keywords);
    Lexing.SymbolCases('-', t);
    taken := TwoOrOne('-', '>', t);
    DashIs(t);
  }

  lemma DashIs(t: string)
    ensures IsFixed(['-', '>'], Drop(t), RIGHT_ARROW) && (Peek(t, 0) != '>' ==> IsFixed(['-'], t, MINUS))
  {
  }

  lemma AfterIsDash(t: string, keywords: Keywords)
    ensures ScanAfter('-', t, IsKeywordOf(keywords)) == ScanSymbol('-', t)
    ensures KindOf(RightArrow, keywords) == RIGHT_ARROW && KindOf(Minus, keywords) == MINUS
  {
    hide SkipWhile, ScanSymbol;
  }

  /** One more character if it is `d`. */
  lemma TwoOrOne(c: char, d: char, t: string) returns (taken: string)
    requires d != EOF_CHAR
    ensures Peek(t, 0) == d ==> t == taken + Drop(t) && [c] + taken == [c, d]
    ensures Peek(t, 0) != d ==> taken == "" && t == taken + t && [c] + taken == [c]
  {
    if Peek(t, 0) == d {
      taken := [d];
      assert t == [t[0]] + t[1..];
    } else {
      taken := "";
    }
  }

  lemma AngleLooks(c: char, t: string, keywords: Keywords) returns (taken: string)
    requires c == '<' || c == '>'
    ensures var s := ScanAfter(c, t, IsKeywordOf(keywords));
            && t == taken + s.rest
            && (IsFixed([c] + taken, s.rest, KindOf(s.kind, keywords)) || IsUnknown([c] + taken, s.rest, KindOf(s.kind, keywords)))
  {
    hide ScanAfter, ScanSymbol, KindOf, IsKeywordOf, IsFixed, IsUnknown;
    AfterIsAngle(c, t, keywords);
    Lexing.SymbolCases(c, t);
    taken := TwoOrOne(c, c, t);
    AngleIs(c, t);
  }

  lemma AngleIs(c: char, t: string)
    requires c == '<' || c == '>'
    ensures IsFixed([c, c], Drop(t), if c == '<' then SHIFT_LEFT else SHIFT_RIGHT)
    ensures Peek(t, 0) != c ==> IsUnknown([c], t, UNKNOWN)
  {
  }

  lemma AfterIsAngle(c: char, t: string, keywords: Keywords)
    requires c == '<' || c == '>'
    ensures ScanAfter(c, t, IsKeywordOf(keywords)) == ScanSymbol(c, t)
    ensures KindOf(ShiftLeft, keywords) == SHIFT_LEFT && KindOf(ShiftRight, keywords) == SHIFT_RIGHT
    ensures KindOf(Unknown, keywords) == UNKNOWN
  {
    hide SkipWhile, ScanSymbol;
  }

  lemma SymbolLooks(c: char, t: string, keywords: Keywords)
    requires !IsIdentifierFirst(c) && !IsDigit(c) && c !in ['\n', ' ', '#', '@', '\\', '"', '$', '.', '-', '<', '>']
    ensures var s := ScanAfter(c, t, IsKeywordOf(keywords));
            && t == "" + s.rest
            && (IsFixed([c] + "", s.rest, KindOf(s.kind, keywords)) || IsUnknown([c] + "", s.rest, KindOf(s.kind, keywords)))
  {
    hide ScanAfter, ScanSymbol, IsKeywordOf, SymbolKind, SymbolOf, IsSymbol;
    AfterIsSymbol(c, t, IsKeywordOf(keywords));
    assert [c] + "" == [c] && t == "" + t;
    SameSymbol(c, keywords);
  }

  lemma AfterIsSymbol(c: char, t: string, isKeyword: string -> bool)
    requires !IsIdentifierFirst(c) && !IsDigit(c) && c !in ['\n', ' ', '#', '@', '\\', '"', '$', '.', '-', '<', '>']
    ensures ScanAfter(c, t, isKeyword) == Scan(if IsSymbol(c) then Symbol(c) else Unknown, t)
  {
    hide SkipWhile, StringLiteral, Number, Fraction, ContinuationEnd, ScanZero, IsSymbol;
  }

  lemma SameSymbol(c: char, keywords: Keywords)
    ensures c !in ['-', '.'] ==> SymbolOf(c) == KindOf(Symbol(c), keywords)
    ensures KindOf(Unknown, keywords) == UNKNOWN
    ensures IsSymbol(c) <==> KindOf(Symbol(c), keywords) != UNKNOWN
  {
  }

  // ---- Numbers look like numbers -------------------------------------------------------------------

  lemma ExponentSplits(r: string) returns (exponent: string)
    ensures r == exponent + ExponentEnd(r) && IsExponent(exponent)
  {
    hide SkipWhile, IsExponent, AreDigits, ExponentEnd;
    NoExponent();
    Lexing.ExponentCases(r);
    exponent := "";
    assert r == "" + r;
    if Peek(r, 0) in ['e', 'E'] {
      if IsSign(Peek(r, 1)) && IsAsciiDigit(Peek(r, 2)) {
        exponent := SignedSplits(r);
      } else if !IsSign(Peek(r, 1)) && IsAsciiDigit(Peek(r, 1)) {
        exponent := UnsignedSplits(r);
      }
    }
  }

  lemma NoExponent()
    ensures IsExponent("")
  {
  }

  lemma SignedSplits(r: string) returns (exponent: string)
    requires Peek(r, 0) in ['e', 'E'] && IsSign(Peek(r, 1)) && IsAsciiDigit(Peek(r, 2))
    ensures r == exponent + ExponentEnd(r) && IsExponent(exponent)
  {
    hide SkipWhile;
    var digits := SkipsLongest(r[2..], IsAsciiDigit);
    exponent := [r[0], r[1]] + digits;
    assert r == [r[0], r[1]] + r[2..] && exponent[2..] == digits;
  }

  lemma UnsignedSplits(r: string) returns (exponent: string)
    requires Peek(r, 0) in ['e', 'E'] && IsAsciiDigit(Peek(r, 1))
    ensures r == exponent + ExponentEnd(r) && IsExponent(exponent)
  {
    hide SkipWhile;
    var digits := SkipsLongest(r[1..], IsAsciiDigit);
    HeadOf(digits, SkipWhile(r[1..], IsAsciiDigit));
    exponent := [r[0]] + digits;
    assert r == [r[0]] + r[1..] && exponent[1..] == digits;
  }

  lemma FractionSplits(l: string) returns (digits: string, exponent: string)
    ensures l == digits + exponent + Fraction(l).rest && AreDigits(digits) && IsExponent(exponent)
    ensures l != "" ==> if IsDigit(l[0]) then digits != "" else digits == ""
  {
    hide SkipWhile, ExponentEnd, IsExponent;
    digits := SkipsLongest(l, IsAsciiDigit);
    var r := SkipWhile(l, IsAsciiDigit);
    exponent := ExponentSplits(r);
    Chained(l, digits, r, exponent, ExponentEnd(r));
  }

  /** A number that begins with the digit `c`. */
  lemma DecimalLooks(c: char, t: string, keywords: Keywords) returns (taken: string)
    requires IsDigit(c) && (c == '0' && t != "" ==> t[0] !in ['x', 'X'])
    ensures var s := Number(t, false); t == taken + s.rest && IsNumber([c] + taken, s.rest, KindOf(s.kind, keywords))
  {
    hide SkipWhile, Fraction, KindOf, IsExponent, IsFloatOf, IsNumber;
    NumberKinds(keywords);
    var r := SkipWhile(t, IsAsciiDigit);
    var whole := SkipsLongest(t, IsAsciiDigit);
    if Peek(r, 0) == '.' {
      taken := PointLooks(c, whole, r);
    } else if Peek(r, 0) == 'e' || Peek(r, 0) == 'E' {
      taken := ScientificLooks(c, whole, r);
    } else {
      taken := whole;
      HeadOf(whole, r);
      IntegerLooks(c, whole, r);
    }
  }

  lemma NumberKinds(keywords: Keywords)
    ensures KindOf(LiteralInt, keywords) == LITERAL_INT && KindOf(LiteralFloat, keywords) == LITERAL_FLOAT
  {
  }

  lemma IntegerLooks(c: char, whole: string, r: string)
    requires IsDigit(c) && IsLongest(whole, r, IsAsciiDigit) && Peek(r, 0) !in ['.', 'e', 'E']
    requires c == '0' && whole == "" && r != "" ==> r[0] !in ['x', 'X']
    ensures IsNumber([c] + whole, r, LITERAL_INT)
  {
  }

  lemma FractionIsFloat(l: string)
    ensures Fraction(l).kind == LiteralFloat
  {
  }

  lemma FloatOf(c: char, whole: string, fraction: string, exponent: string)
    requires IsDigit(c) && AreDigits(whole) && IsExponent(exponent)
    requires fraction == "" || (fraction[0] == '.' && AreDigits(fraction[1..]))
    ensures IsFloatOf([c] + (whole + fraction + exponent), [c] + whole, fraction, exponent)
  {
    hide IsExponent;
    assert [c] + (whole + fraction + exponent) == [c] + whole + fraction + exponent;
  }

  lemma PointLooks(c: char, whole: string, r: string) returns (taken: string)
    requires IsDigit(c) && AreDigits(whole) && r != "" && r[0] == '.'
    ensures var s := Fraction(r[1..]);
            s.kind == LiteralFloat && whole + r == taken + s.rest && IsNumber([c] + taken, s.rest, LITERAL_FLOAT)
  {
    hide Fraction, IsExponent, IsFloatOf, IsNumber;
    FractionIsFloat(r[1..]);
    var d, x := FractionSplits(r[1..]);
    taken := whole + ("." + d) + x;
    PointParts(whole, d, x, Fraction(r[1..]).rest, r);
    FloatOf(c, whole, "." + d, x);
    FloatIsNumber([c] + taken, Fraction(r[1..]).rest, [c] + whole, "." + d, x);
  }

  lemma PointParts(whole: string, d: string, x: string, rest: string, r: string)
    requires r != "" && r[0] == '.' && r[1..] == d + x + rest
    ensures whole + r == whole + ("." + d) + x + rest && ("." + d)[1..] == d
  {
    assert r == "." + r[1..];
  }

  /** A text with a fraction, or with an exponent, is not only digits. */
  lemma FloatIsNumber(text: string, rest: string, whole: string, fraction: string, exponent: string)
    requires IsFloatOf(text, whole, fraction, exponent) && text != "" && (IsDigit(text[0]) || (text[0] == '.' && 1 < |text|))
    requires fraction == "" && exponent == "" ==> rest != "" && rest[0] in ['e', 'E']
    ensures IsNumber(text, rest, LITERAL_FLOAT)
  {
    if fraction != "" {
      assert text[|whole|] == fraction[0];
    } else if exponent != "" {
      assert text[|whole|] == exponent[0];
    }
  }

  lemma ScientificLooks(c: char, whole: string, r: string) returns (taken: string)
    requires IsDigit(c) && AreDigits(whole) && r != "" && r[0] in ['e', 'E']
    ensures var s := Fraction(r);
            s.kind == LiteralFloat && whole + r == taken + s.rest && IsNumber([c] + taken, s.rest, LITERAL_FLOAT)
  {
    hide Fraction, IsExponent, IsFloatOf, IsNumber;
    FractionIsFloat(r);
    var d, x := FractionSplits(r);
    var rest := Fraction(r).rest;
    taken := whole + "" + x;
    ScientificParts(whole, x, rest, r);
    FloatOf(c, whole, "", x);
    FloatIsNumber([c] + taken, rest, [c] + whole, "", x);
  }

  lemma ScientificParts(whole: string, x: string, rest: string, r: string)
    requires r == "" + x + rest
    ensures whole + r == whole + "" + x + rest && (x == "" ==> rest == r)
  {
  }

  lemma HexLooks(x: char, t: string, keywords: Keywords) returns (taken: string)
    requires x == 'x' || x == 'X'
    ensures var s := Number(t, true);
            t == taken + s.rest && IsNumber(['0'] + ([x] + taken), s.rest, KindOf(s.kind, keywords))
  {
    hide SkipWhile;
    taken := SkipsLongest(t, IsHexDigit);
    assert (['0'] + ([x] + taken))[2..] == taken;
  }

  lemma DigitLooks(c: char, t: string, keywords: Keywords) returns (taken: string)
    requires IsDigit(c)
    ensures var s := ScanAfter(c, t, IsKeywordOf(keywords));
            t == taken + s.rest && IsNumber([c] + taken, s.rest, KindOf(s.kind, keywords))
  {
    hide Number, KindOf, IsNumber, ScanAfter, IsKeywordOf;
    AfterIsNumber(c, t, IsKeywordOf(keywords));
    if c == '0' && Peek(t, 0) in ['x', 'X'] {
      var digits := HexLooks(t[0], t[1..], keywords);
      taken := [t[0]] + digits;
      assert t == [t[0]] + t[1..];
    } else {
      taken := DecimalLooks(c, t, keywords);
    }
  }

  lemma AfterIsNumber(c: char, t: string, isKeyword: string -> bool)
    requires IsDigit(c)
    ensures ScanAfter(c, t, isKeyword)
         == if c == '0' && Peek(t, 0) in ['x', 'X'] then Number(t[1..], true) else Number(t, false)
  {
    hide Number, SkipWhile;
  }

  lemma DotLooks(t: string, keywords: Keywords) returns (taken: string)
    ensures var s := ScanAfter('.', t, IsKeywordOf(keywords));
            && t == taken + s.rest
            && (IsFixed(['.'] + taken, s.rest, KindOf(s.kind, keywords)) || IsNumber(['.'] + taken, s.rest, KindOf(s.kind, keywords)))
  {
    hide Fraction, KindOf, ScanAfter, IsKeywordOf, IsExponent, IsNumber, IsFixed;
    AfterIsDot(t, keywords);
    NumberKinds(keywords);
    if IsAsciiDigit(Peek(t, 0)) {
      FractionIsFloat(t);
      var d, x := FractionSplits(t);
      taken := d + x;
      PointFirst(d, x, Fraction(t).rest);
    } else {
      taken := "";
      assert t == "" + t;
      DotIs(t);
    }
  }

  lemma PointFirst(d: string, x: string, rest: string)
    requires d != "" && AreDigits(d) && IsExponent(x)
    ensures IsNumber(['.'] + (d + x), rest, LITERAL_FLOAT)
  {
    hide IsExponent, IsNumber;
    var text := ['.'] + (d + x);
    assert text == "" + ("." + d) + x && ("." + d)[1..] == d;
    FloatIsNumber(text, rest, "", "." + d, x);
  }

  lemma DotIs(t: string)
    requires !IsAsciiDigit(Peek(t, 0))
    ensures IsFixed(['.'] + "", t, DOT)
  {
    assert ['.'] + "" == ['.'];
  }

  lemma AfterIsDot(t: string, keywords: Keywords)
    ensures ScanAfter('.', t, IsKeywordOf(keywords)) == if IsAsciiDigit(Peek(t, 0)) then Fraction(t) else Scan(Dot, t)
    ensures KindOf(Dot, keywords) == DOT
  {
    hide Fraction, SkipWhile;
  }

  // ---- String literals look like string literals -----------------------------------------------------

  /** What is read of a literal on one line: closed, or up to the end of the line or of a last backslash. */
  ghost predicate IsSingleBody(b: string, e: string, closed: bool) {
    if closed then b != "" && b[|b| - 1] == '"' && AreQuoted(b[..|b| - 1])
    else (e == "" || e[0] == '\n') && (AreQuoted(b) || (b != "" && b[|b| - 1] == '\\' && AreQuoted(b[..|b| - 1])))
  }

  lemma {:induction false} SingleSplits(l: string) returns (body: string)
    ensures l == body + SingleEnd(l) && IsSingleBody(body, SingleEnd(l), IsSingleClosed(l))
    decreases |l|
  {
    hide IsSingleBody;
    if l == "" || l[0] == LF {
      body := "";
      BodyIs("", l, false);
    } else if l[0] == '"' {
      body := ['"'];
      assert l == [l[0]] + l[1..];
      BodyIs(['"'], l[1..], true);
    } else if l[0] == '\\' && (l[1..] == "" || l[1] == LF) {
      body := ['\\'];
      assert l == [l[0]] + l[1..];
      BodyIs(['\\'], l[1..], false);
    } else {
      var n := if l[0] == '\\' then 2 else 1;
      var more := SingleSplits(l[n..]);
      body := l[..n] + more;
      Cut(l, n);
      Chained(l, l[..n], l[n..], more, SingleEnd(l[n..]));
      BodyGrows(l[..n], more, SingleEnd(l), IsSingleClosed(l));
    }
  }

  lemma BodyIs(b: string, e: string, closed: bool)
    requires if closed then b == ['"'] else (e == "" || e[0] == '\n') && (b == "" || b == ['\\'])
    ensures IsSingleBody(b, e, closed)
  {
  }

  lemma BodyGrows(first: string, more: string, e: string, closed: bool)
    requires IsSingleBody(more, e, closed)
    requires if |first| == 2 then first[0] == '\\' && first[1] != '\n' else |first| == 1 && first[0] !in ['\\', '"', '\n']
    ensures IsSingleBody(first + more, e, closed)
  {
    QuotedGrows(first, more);
    if more != "" {
      QuotedGrows(first, more[..|more| - 1]);
      assert (first + more)[..|first + more| - 1] == first + more[..|more| - 1];
    }
  }

  lemma QuotedGrows(first: string, more: string)
    requires if |first| == 2 then first[0] == '\\' && first[1] != '\n' else |first| == 1 && first[0] !in ['\\', '"', '\n']
    ensures AreQuoted(more) ==> AreQuoted(first + more)
  {
    assert (first + more)[|first|..] == more;
  }

  /** What is read of a literal on several lines. */
  lemma {:induction false} MultiSplits(l: string) returns (body: string)
    ensures l == body + MultiEnd(l)
    ensures MultiEnd(l) != "" ==> 3 <= |body| && body[|body| - 1] == body[|body| - 2] == body[|body| - 3] == '"'
    decreases |l|
  {
    hide MultiEnd;
    if l == "" || (l[0] == '"' && Peek(l, 1) == '"' && Peek(l, 2) == '"') {
      MultiEnds(l);
      body := if l == "" then "" else ['"', '"', '"'];
    } else {
      var n := MultiStep(l);
      var more := MultiSplits(l[n..]);
      body := l[..n] + more;
      Cut(l, n);
      Chained(l, l[..n], l[n..], more, MultiEnd(l[n..]));
    }
  }

  lemma MultiEnds(l: string)
    requires l == "" || (l[0] == '"' && Peek(l, 1) == '"' && Peek(l, 2) == '"')
    ensures MultiEnd(l) == if l == "" then "" else Drop(Drop(Drop(l)))
    ensures l != "" ==> l == ['"', '"', '"'] + Drop(Drop(Drop(l)))
  {
  }

  lemma MultiStep(l: string) returns (n: nat)
    requires l != "" && !(l[0] == '"' && Peek(l, 1) == '"' && Peek(l, 2) == '"')
    ensures 0 < n <= |l| && MultiEnd(l) == MultiEnd(l[n..])
  {
    var next := if l[0] == '\\' then Drop(l[1..]) else l[1..];
    n := |l| - |next|;
    assert l[n..] == next;
  }

  lemma StringLooks(t: string, keywords: Keywords) returns (taken: string)
    ensures var s := ScanAfter('"', t, IsKeywordOf(keywords));
            t == taken + s.rest && IsString(['"'] + taken, s.rest, KindOf(s.kind, keywords))
  {
    hide KindOf, ScanAfter, StringLiteral, IsKeywordOf, SkipWhile, SingleEnd, MultiEnd, IsSingleClosed, AreQuoted, IsSingleLine,
         IsSingleBody;
    AfterIsString(t, keywords);
    Lexing.StringCases(t);
    if Peek(t, 0) != '"' {
      taken := SingleSplits(t);
      SingleIs(taken, SingleEnd(t), IsSingleClosed(t));
    } else if Peek(t, 1) != '"' {
      taken := ['"'];
      assert t == [t[0]] + t[1..];
      NothingQuoted(t[1..]);
      SingleIs(['"'], t[1..], true);
    } else {
      taken := MultiLooks(t);
    }
  }

  lemma MultiLooks(t: string) returns (taken: string)
    requires Peek(t, 0) == '"' && Peek(t, 1) == '"'
    ensures var inside := Drop(Drop(t));
            var body := if Peek(inside, 0) == LF then Drop(inside) else inside;
            var e := MultiEnd(SkipWhile(body, LogicalText.IsSpace));
            t == taken + e && IsString(['"'] + taken, e, LITERAL_STRING)
  {
    hide SkipWhile, MultiEnd, IsString, IsLongest;
    var inside := Drop(Drop(t));
    var body := if Peek(inside, 0) == LF then Drop(inside) else inside;
    var lead := OpeningOf(t);
    var spaces := SkipsLongest(body, LogicalText.IsSpace);
    var r := SkipWhile(body, LogicalText.IsSpace);
    var more := MultiSplits(r);
    Chained(t, lead, body, spaces, r);
    taken := lead + spaces + more;
    Chained(t, lead + spaces, r, more, MultiEnd(r));
    MultiIs(lead, spaces, more, MultiEnd(r));
  }

  /** The quotes, and the end of line behind them. */
  lemma OpeningOf(t: string) returns (lead: string)
    requires Peek(t, 0) == '"' && Peek(t, 1) == '"'
    ensures var inside := Drop(Drop(t));
            t == lead + (if Peek(inside, 0) == LF then Drop(inside) else inside)
    ensures 2 <= |lead| && lead[0] == lead[1] == '"'
  {
    Lexing.TwoQuotes(t);
    var inside := t[2..];
    assert t == [t[0], t[1]] + inside;
    lead := if Peek(inside, 0) == LF then [t[0], t[1], inside[0]] else [t[0], t[1]];
  }

  lemma MultiIs(lead: string, spaces: string, more: string, e: string)
    requires 2 <= |lead| && lead[0] == lead[1] == '"'
    requires e != "" ==> 3 <= |more| && more[|more| - 1] == more[|more| - 2] == more[|more| - 3] == '"'
    ensures IsString(['"'] + (lead + spaces + more), e, LITERAL_STRING)
  {
    hide IsSingleLine;
    var text, n, k := ['"'] + (lead + spaces + more), 1 + |lead| + |spaces|, |more|;
    assert text[0] == '"' && text[1] == lead[0] && text[2] == lead[1];
    assert forall i :: 0 <= i < k ==> text[n + i] == more[i];
  }

  lemma AfterIsString(t: string, keywords: Keywords)
    ensures ScanAfter('"', t, IsKeywordOf(keywords)) == StringLiteral(t)
    ensures KindOf(LiteralString, keywords) == LITERAL_STRING
    ensures forall n: nat :: KindOf(LiteralMultilineString(n), keywords) == LITERAL_STRING
  {
    hide StringLiteral;
  }

  lemma NothingQuoted(e: string)
    ensures IsSingleBody(['"'], e, true)
  {
  }

  lemma SingleIs(b: string, e: string, closed: bool)
    requires IsSingleBody(b, e, closed)
    ensures IsSingleLine(['"'] + b, e)
  {
    hide AreQuoted;
    var text := ['"'] + b;
    assert text[1..] == b;
    if b != "" {
      assert text[1..|text| - 1] == b[..|b| - 1];
    }
  }

  // ---- Texts are tokens -----------------------------------------------------------------------------

  /** The first token of a text is what it looks like. */
  lemma TokenLooks(l: string, keywords: Keywords) returns (text: string)
    requires l != ""
    ensures var s := ScanToken(l, IsKeywordOf(keywords));
            l == text + s.rest && text != "" && IsToken(text, s.rest, KindOf(s.kind, keywords), keywords)
  {
    hide ScanAfter, KindOf, IsKeywordOf, IsWord, IsLine, IsFixed, IsNumber, IsString, IsContinuation, IsUnknown;
    var c, t := l[0], l[1..];
    assert l == [c] + t;
    var taken := "";
    if IsIdentifierFirst(c) {
      taken := WordLooks(c, t, keywords);
    } else if IsDigit(c) {
      taken := DigitLooks(c, t, keywords);
    } else if c == '\n' {
      taken := EolLooks(t, keywords);
    } else if c == ' ' {
      taken := BlankLooks(t, keywords);
    } else if c == '#' {
      taken := CommentLooks(t, keywords);
    } else if c == '@' {
      taken := AnnotationLooks(t, keywords);
    } else if c == '\\' {
      taken := ContinuationLooks(t, keywords);
    } else if c == '"' {
      taken := StringLooks(t, keywords);
    } else if c == '$' {
      taken := EscapedLooks(t, keywords);
    } else if c == '.' {
      taken := DotLooks(t, keywords);
    } else if c == '-' {
      taken := DashLooks(t, keywords);
    } else if c == '<' || c == '>' {
      taken := AngleLooks(c, t, keywords);
    } else {
      SymbolLooks(c, t, keywords);
    }
    text := [c] + taken;
  }

  /** Whether the text is tokens of these kinds, one after the other. */
  ghost predicate AreTokens(l: string, kinds: seq<SyntaxKind>, keywords: Keywords) {
    if l == "" then
      kinds == []
    else
      && kinds != []
      && exists n :: 0 < n <= |l| && IsToken(l[..n], l[n..], kinds[0], keywords) && AreTokens(l[n..], kinds[1..], keywords)
  }

  /** The scanner cuts every text into tokens. */
  lemma {:induction false} TextIsTokens(l: string, keywords: Keywords)
    ensures AreTokens(l, KindsIn(l, keywords), keywords)
    decreases |l|
  {
    hide ScanToken, KindOf, IsToken, IsKeywordOf;
    if l != "" {
      var s := ScanToken(l, IsKeywordOf(keywords));
      NextKind(l, keywords);
      var text := TokenLooks(l, keywords);
      TextIsTokens(s.rest, keywords);
      var n := |text|;
      assert l[..n] == text && l[n..] == s.rest;
      assert KindsIn(l, keywords)[1..] == KindsIn(s.rest, keywords);
    }
  }
}

/** The tokens of a text as the formatter sees them (fpp_format/src/formatter.rs:458-482). */
module FormatTokens {
  import opened Syntax
  import opened LexedText
  import opened LexLaws
  import Lowering
  import Spacings
  import FormatLaws

  /** A token as the formatter tells it apart. */
  function FormatKind(kind: SyntaxKind): Lowering.TokenKind {
    if kind == WHITESPACE then Lowering.Whitespace
    else if kind == EOL then Lowering.Eol
    else if kind == COMMA then Lowering.Comma
    else if kind == SEMI then Lowering.Semi
    else if kind == LEFT_CURLY then Lowering.LeftCurly
    else if kind == LEFT_PAREN then Lowering.LeftParen
    else if kind == LEFT_SQUARE then Lowering.LeftSquare
    else if kind == RIGHT_CURLY then Lowering.RightCurly
    else if kind == RIGHT_PAREN then Lowering.RightParen
    else if kind == RIGHT_SQUARE then Lowering.RightSquare
    else if kind == COMMENT then Lowering.Comment
    else if kind == PRE_ANNOTATION then Lowering.PreAnnotation
    else if kind == POST_ANNOTATION then Lowering.PostAnnotation
    else Lowering.OtherToken(kind)
  }

  /** What the formatter takes for granted of a token is true of every token of a text, except a number
      whose exponent is broken off, which is an error. */
  lemma TokensAreLexed(text: string, rest: string, kind: SyntaxKind, keywords: Keywords)
    requires AreKeywords(keywords) && IsToken(text, rest, kind, keywords) && !(kind == LITERAL_FLOAT && AreDigits(text))
    ensures FormatLaws.IsLexed(FormatKind(kind), text)
  {
    hide Spacings.IsSpelled;
    TokensAreSpelled(text, rest, kind, keywords);
    if 2 <= |text| {
      assert text[..1] == [text[0]];
    }
  }

  lemma TokensAreSpelled(text: string, rest: string, kind: SyntaxKind, keywords: Keywords)
    requires AreKeywords(keywords) && IsToken(text, rest, kind, keywords) && !(kind == LITERAL_FLOAT && AreDigits(text))
    ensures Spacings.IsSpelled(FormatKind(kind), text)
  {
  }

  // ---- Separators for the lexer -----------------------------------------------------------------------

  /** A token looks at no more than the next character. */
  lemma SameFirst(text: string, kind: SyntaxKind, r: string, s: string, keywords: Keywords)
    requires r != "" && s != "" && r[0] == s[0]
    ensures IsToken(text, r, kind, keywords) <==> IsToken(text, s, kind, keywords)
  {
    hide AreQuoted, IsFloatOf, AreDigits;
  }

  /** Whether a token is followed by others on its line: it is no trivia and no error. */
  predicate IsInLine(kind: SyntaxKind) {
    kind !in {WHITESPACE, EOL, COMMENT, PRE_ANNOTATION, POST_ANNOTATION, UNKNOWN}
  }

  /** A token that stands before a space stands before any character that does not go on with it. */
  lemma StandsBefore(text: string, kind: SyntaxKind, c: char, keywords: Keywords)
    requires AreKeywords(keywords) && IsToken(text, " ", kind, keywords) && IsInLine(kind)
    ensures !IsWordChar(c) && c != '.' && (text == "-" ==> c != '>') ==> IsToken(text, [c], kind, keywords)
    ensures c == '.' && !AreDigits(text) ==> IsToken(text, [c], kind, keywords)
    ensures kind in {LEFT_PAREN, LEFT_SQUARE, PLUS} ==> IsToken(text, [c], kind, keywords)
    ensures kind == DOT ==> (IsToken(text, [c], kind, keywords) <==> !IsDigit(c))
    ensures kind == MINUS ==> (IsToken(text, [c], kind, keywords) <==> c != '>')
    ensures text != ""
  {
    hide AreQuoted, IsFloatOf;
  }

  /**
   What the formatter puts between two tokens keeps the first one a token of its own, except in two
   places where it puts nothing: a dot before a digit, and a minus before `>`.
   */
  lemma SeparatorKeepsToken(place: nat -> Spacings.Place, a: string, i: SyntaxKind, at: nat, b: string, j: SyntaxKind, at': nat,
                            rest: string, keywords: Keywords)
    requires AreKeywords(keywords) && IsInLine(i) && j !in {WHITESPACE, EOL}
    requires IsToken(a, " ", i, keywords) && IsToken(b, rest, j, keywords) && b != ""
    requires !(i == LITERAL_FLOAT && AreDigits(a)) && !(j == LITERAL_FLOAT && AreDigits(b))
    ensures var sep := Spacings.FlatSep(place, Lowering.Token(FormatKind(i), a, at), Lowering.Token(FormatKind(j), b, at'));
            IsToken(a, sep + b + rest, i, keywords)
            <==> sep != "" || !((i == DOT && IsDigit(b[0])) || (i == MINUS && b[0] == '>'))
  {
    hide IsToken, Spacings.FlatSep;
    var sep := Spacings.FlatSep(place, Lowering.Token(FormatKind(i), a, at), Lowering.Token(FormatKind(j), b, at'));
    if sep != "" {
      BlankSeparator(place, a, i, at, b, j, at');
      SameFirst(a, i, " ", sep + b + rest, keywords);
    } else {
      SameFirst(a, i, [b[0]], sep + b + rest, keywords);
      StandsBefore(a, i, b[0], keywords);
      TokensAreSpelled(a, " ", i, keywords);
      TokensAreSpelled(b, rest, j, keywords);
      NoSeparator(place, a, i, at, b, j, at');
    }
  }

  lemma BlankSeparator(place: nat -> Spacings.Place, a: string, i: SyntaxKind, at: nat, b: string, j: SyntaxKind, at': nat)
    ensures var sep := Spacings.FlatSep(place, Lowering.Token(FormatKind(i), a, at), Lowering.Token(FormatKind(j), b, at'));
            sep != "" ==> sep[0] == ' '
  {
  }

  /** Without a separator, the second token goes on with nothing, or the first one is a dot, a sign or an
      opening delimiter. */
  lemma NoSeparator(place: nat -> Spacings.Place, a: string, i: SyntaxKind, at: nat, b: string, j: SyntaxKind, at': nat)
    requires Spacings.IsSpelled(FormatKind(i), a) && Spacings.IsSpelled(FormatKind(j), b)
    requires IsInLine(i) && j !in {WHITESPACE, EOL} && a != "" && b != ""
    requires Spacings.FlatSep(place, Lowering.Token(FormatKind(i), a, at), Lowering.Token(FormatKind(j), b, at')) == ""
    ensures i in {DOT, MINUS, PLUS, LEFT_PAREN, LEFT_SQUARE} || b[0] in [':', ',', ';', ')', ']', '[', '(']
            || (b[0] == '.' && !AreDigits(a))
    ensures i == DOT ==> a == "."
    ensures i == MINUS ==> a == "-"
    ensures a == "-" ==> i == MINUS || b[0] != '>'
  {
    if AreDigits(a) {
      DecimalIsNotHex(a);
    }
  }

  lemma DecimalIsNotHex(text: string)
    requires AreDigits(text) && text != ""
    ensures Spacings.IsDecimal(text) && !Spacings.IsHexLiteral(text)
  {
    if 2 <= |text| {
      assert IsDigit(text[1]);
    }
  }
}
