/**
 The scanner of source text (fpp_lexer/src/lexer.rs).

 `LogicalText` is a scanner of texts in which every line already ends with a single line
 feed. The lexer itself reads the raw text and folds each CR LF pair as it goes; it is
 proved to find the tokens that `LogicalText` finds in the folded text.
 */
module LogicalText {
  import Utf8

  const LF: char := '\n'
  const CR: char := '\r'
  /** What looking past the end of the text gives. */
  const EOF_CHAR: char := '\0'

  datatype TokenKind =
    | Whitespace
    | Comment
    | Unknown
    | Identifier
    | PostAnnotation
    | PreAnnotation
    | LiteralFloat
    | LiteralInt
    | LiteralString
    | LiteralMultilineString(indent: nat)
    | Keyword(word: string)
    | Eol
    | RightArrow
    | Minus
    | Dot
    | ShiftLeft
    | ShiftRight
    | Symbol(c: char)

  /** A kind and the text after the token. */
  datatype Scan = Scan(kind: TokenKind, rest: string)

  /** The characters of a text, each CR LF pair read as LF. */
  function Logical(s: string): (l: string)
    ensures |l| <= |s|
    ensures s == "" <==> l == ""
  {
    if s == "" then
      ""
    else if s[0] == CR && 1 < |s| && s[1] == LF then
      [LF] + Logical(s[2..])
    else
      [s[0]] + Logical(s[1..])
  }

  /** The text as it is saved with CR LF line ends. */
  function ToCrLf(s: string): string {
    if s == "" then "" else (if s[0] == LF then [CR, LF] else [s[0]]) + ToCrLf(s[1..])
  }

  predicate HasCrLf(s: string) {
    exists i :: 0 <= i < |s| - 1 && s[i] == CR && s[i + 1] == LF
  }

  /** Reading undoes the conversion of the line ends, for every text. */
  lemma {:induction false} LogicalUndoesCrLf(s: string)
    ensures Logical(ToCrLf(s)) == s
  {
    if s != "" {
      LogicalUndoesCrLf(s[1..]);
      var rest := ToCrLf(s[1..]);
      assert s == [s[0]] + s[1..];
      if s[0] == LF {
        assert ([CR, LF] + rest)[2..] == rest;
      } else {
        assert ([s[0]] + rest)[1..] == rest;
        assert rest != "" ==> rest[0] != LF;
      }
    }
  }

  /** A text is read as it stands if and only if it has no CR LF pair. */
  lemma {:induction false} LogicalIsIdentity(s: string)
    ensures Logical(s) == s <==> !HasCrLf(s)
  {
    if s != "" {
      LogicalIsIdentity(s[1..]);
      assert s == [s[0]] + s[1..];
      if s[0] == CR && 1 < |s| && s[1] == LF {
        assert HasCrLf(s) && |Logical(s)| <= 1 + |s[2..]|;
      } else {
        assert HasCrLf(s) ==> HasCrLf(s[1..]) by {
          if HasCrLf(s) {
            var i :| 0 <= i < |s| - 1 && s[i] == CR && s[i + 1] == LF;
            assert s[1..][i - 1] == CR && s[1..][i] == LF;
          }
        }
        assert HasCrLf(s[1..]) ==> HasCrLf(s) by {
          if HasCrLf(s[1..]) {
            var i :| 0 <= i < |s[1..]| - 1 && s[1..][i] == CR && s[1..][i + 1] == LF;
            assert s[i + 1] == CR && s[i + 2] == LF;
          }
        }
      }
    }
  }

  /** Converting the line ends leaves what the lexer reads as it was, if and only if the text
      has no CR LF pair yet. */
  lemma LineEndsDoNotMatter(s: string)
    ensures Logical(ToCrLf(s)) == Logical(s) <==> !HasCrLf(s)
  {
    LogicalUndoesCrLf(s);
    LogicalIsIdentity(s);
  }

  function Peek(l: string, n: nat): char {
    if n < |l| then l[n] else EOF_CHAR
  }

  function Drop(l: string): string {
    if l == "" then l else l[1..]
  }

  function SkipWhile(l: string, p: char -> bool): (r: string)
    ensures |r| <= |l|
  {
    if l != "" && p(l[0]) then SkipWhile(l[1..], p) else l
  }

  predicate IsSpace(c: char) {
    c == ' '
  }

  predicate IsNotNewline(c: char) {
    c != LF
  }

  predicate IsNewline(c: char) {
    c == LF
  }

  predicate IsIdentifierFirst(c: char) {
    'A' <= c <= 'Z' || c == '_' || 'a' <= c <= 'z'
  }

  predicate IsIdentifierRest(c: char) {
    IsIdentifierFirst(c) || '0' <= c <= '9'
  }

  predicate IsAsciiDigit(c: char) {
    '0' <= c <= '9'
  }

  /** Whether `digit2int` gives a digit in base 10 or 16. */
  predicate IsHexDigit(c: char) {
    IsAsciiDigit(c) || 'a' <= c <= 'f' || 'A' <= c <= 'F'
  }

  function DigitOf(hex: bool): char -> bool {
    if hex then IsHexDigit else IsAsciiDigit
  }

  predicate IsSign(c: char) {
    c == '+' || c == '-'
  }

  predicate IsSymbol(c: char) {
    c in ['*', '+', '/', '=', ';', ':', ',', '(', '{', ')', '}', '[', ']']
  }

  /** What follows an exponent, when `r` begins with one. */
  function ExponentEnd(r: string): (e: string)
    ensures |e| <= |r|
  {
    var lookahead := if IsSign(Peek(r, 1)) then Peek(r, 2) else Peek(r, 1);
    if (Peek(r, 0) == 'e' || Peek(r, 0) == 'E') && IsAsciiDigit(lookahead) then
      SkipWhile(if IsSign(Peek(r, 1)) then r[2..] else r[1..], IsAsciiDigit)
    else
      r
  }

  function Fraction(l: string): (s: Scan)
    ensures |s.rest| <= |l| && s.kind != Identifier
  {
    Scan(LiteralFloat, ExponentEnd(SkipWhile(l, IsAsciiDigit)))
  }

  function Number(l: string, hex: bool): (s: Scan)
    ensures |s.rest| <= |l| && s.kind != Identifier
  {
    var r := SkipWhile(l, DigitOf(hex));
    if !hex && Peek(r, 0) == '.' then
      Fraction(r[1..])
    else if !hex && (Peek(r, 0) == 'e' || Peek(r, 0) == 'E') then
      Fraction(r)
    else
      Scan(LiteralInt, r)
  }

  function ScanZero(t: string): (s: Scan)
    ensures |s.rest| <= |t| && s.kind != Identifier
  {
    if Peek(t, 0) == 'x' || Peek(t, 0) == 'X' then Number(t[1..], true) else Number(t, false)
  }

  /** What follows the closing triple quote of a string literal, or the end. */
  function MultiEnd(l: string): (r: string)
    ensures |r| <= |l|
  {
    if l == "" then
      l
    else if l[0] == '"' && Peek(l, 1) == '"' && Peek(l, 2) == '"' then
      l[3..]
    else if l[0] == '\\' then
      MultiEnd(Drop(l[1..]))
    else
      MultiEnd(l[1..])
  }

  /** Whether there are closing quotes of a multiline literal. */
  predicate IsMultiClosed(l: string)
    decreases |l|
  {
    if l == "" then
      false
    else if l[0] == '"' && Peek(l, 1) == '"' && Peek(l, 2) == '"' then
      true
    else if l[0] == '\\' then
      IsMultiClosed(Drop(l[1..]))
    else
      IsMultiClosed(l[1..])
  }

  /** What follows the closing quote of a string literal, or the end of its line. */
  function SingleEnd(l: string): (r: string)
    ensures |r| <= |l|
  {
    if l == "" || l[0] == LF then
      l
    else if l[0] == '"' then
      l[1..]
    else if l[0] == '\\' then
      if l[1..] == "" || l[1] == LF then l[1..] else SingleEnd(l[2..])
    else
      SingleEnd(l[1..])
  }

  function StringLiteral(t: string): (s: Scan)
    ensures |s.rest| <= |t| && s.kind != Identifier
  {
    if Peek(t, 0) != '"' then
      Scan(LiteralString, SingleEnd(t))
    else if Peek(t, 1) != '"' then
      Scan(LiteralString, t[1..])
    else
      var body := if Peek(t, 2) == LF then t[3..] else t[2..];
      var r := SkipWhile(body, IsSpace);
      Scan(LiteralMultilineString(|body| - |r|), MultiEnd(r))
  }

  /** The rest of a line continuation. */
  function ContinuationEnd(t: string): (r: string)
    ensures |r| <= |t|
  {
    var r := SkipWhile(t, IsSpace);
    Drop(if Peek(r, 0) != LF then SkipWhile(r, IsNotNewline) else r)
  }

  /** The token that begins with `c` and continues in `t`. */
  function ScanAfter(c: char, t: string, isKeyword: string -> bool): (s: Scan)
    ensures |s.rest| <= |t|
  {
    if c == ' ' then
      Scan(Whitespace, SkipWhile(t, IsSpace))
    else if c == '$' then
      if IsIdentifierFirst(Peek(t, 0)) then Scan(Identifier, SkipWhile(t, IsIdentifierRest)) else Scan(Unknown, t)
    else if IsIdentifierFirst(c) then
      var r := SkipWhile(t, IsIdentifierRest);
      var word := [c] + t[..|t| - |r|];
      Scan(if isKeyword(word) then Keyword(word) else Identifier, r)
    else if c == '0' then
      ScanZero(t)
    else if '1' <= c <= '9' then
      Number(t, false)
    else if c == '\\' then
      Scan(Whitespace, ContinuationEnd(t))
    else if c == '"' then
      StringLiteral(t)
    else if c == '.' then
      if IsAsciiDigit(Peek(t, 0)) then Fraction(t) else Scan(Dot, t)
    else if c == '#' then
      Scan(Comment, SkipWhile(t, IsNotNewline))
    else if c == LF then
      Scan(Eol, SkipWhile(t, IsNewline))
    else
      ScanSymbol(c, t)
  }

  /** An annotation or a symbol that begins with `c` and continues in `t`. */
  function ScanSymbol(c: char, t: string): (s: Scan)
    ensures |s.rest| <= |t| && s.kind != Identifier
  {
    if c == '@' then
      if Peek(t, 0) == '<' then
        Scan(PostAnnotation, SkipWhile(t[1..], IsNotNewline))
      else
        Scan(PreAnnotation, SkipWhile(t, IsNotNewline))
    else if c == '-' then
      if Peek(t, 0) == '>' then Scan(RightArrow, t[1..]) else Scan(Minus, t)
    else if c == '<' then
      if Peek(t, 0) == '<' then Scan(ShiftLeft, t[1..]) else Scan(Unknown, t)
    else if c == '>' then
      if Peek(t, 0) == '>' then Scan(ShiftRight, t[1..]) else Scan(Unknown, t)
    else if IsSymbol(c) then
      Scan(Symbol(c), t)
    else
      Scan(Unknown, t)
  }

  /** The first token of a non-empty text. */
  function ScanToken(l: string, isKeyword: string -> bool): (s: Scan)
    requires l != ""
    ensures |s.rest| < |l|
  {
    ScanAfter(l[0], l[1..], isKeyword)
  }

  // ---- Errors ---------------------------------------------------------------------------

  /** What an error of a token covers: all of it, its opening quotes, the token and the letter that
      follows it, or some bytes of it. */
  datatype Fault = Clean | Whole | Quotes | Letter(c: char) | Bytes(from: nat, len: nat)

  /** Whether a string literal is closed on its line, after its first quote. */
  predicate IsSingleClosed(l: string) {
    if l == "" || l[0] == LF then
      false
    else if l[0] == '"' then
      true
    else if l[0] == '\\' then
      l[1..] != "" && l[1] != LF && IsSingleClosed(l[2..])
    else
      IsSingleClosed(l[1..])
  }

  /** A floating point number must not go on with a letter. */
  function LetterFault(rest: string, isIdentifierPart: char -> bool): Fault {
    if rest != "" && isIdentifierPart(rest[0]) && rest[0] >= ' ' then Letter(rest[0]) else Clean
  }

  /** Behind a continuation's backslash and spaces must be an end of line; what is there instead, up to
      the end of the line, is at fault. */
  function ContinuationFault(t: string): Fault {
    var r := SkipWhile(t, IsSpace);
    var e := SkipWhile(r, IsNotNewline);
    if Peek(r, 0) == LF then Clean
    else if |r| == |e| then Whole
    else Bytes(1 + Utf8.ByteLen(t[..|t| - |r|]), Utf8.ByteLen(r[..|r| - |e|]))
  }

  /** What is wrong with the token `s` that begins with `c` and continues in `t`. */
  function FaultAfter(c: char, t: string, s: Scan, isIdentifierPart: char -> bool): Fault {
    match s.kind
    case Unknown => Whole
    case LiteralFloat => LetterFault(s.rest, isIdentifierPart)
    case LiteralInt => if c == '0' && Peek(t, 0) in ['x', 'X'] && !IsHexDigit(Peek(t, 1)) then Whole else Clean
    case LiteralString => if IsSingleClosed(t) then Clean else Whole
    case LiteralMultilineString(_) => if 2 <= |t| && IsMultiClosed(t[2..]) then Clean else Quotes
    case Whitespace => if c == '\\' then ContinuationFault(t) else Clean
    case _ => Clean
  }

  /** What is wrong with the first token of a non-empty text. */
  function FaultOf(l: string, isKeyword: string -> bool, isIdentifierPart: char -> bool): Fault
    requires l != ""
  {
    FaultAfter(l[0], l[1..], ScanToken(l, isKeyword), isIdentifierPart)
  }

  /** The kinds of the tokens of a text. */
  function ScanAll(l: string, isKeyword: string -> bool): seq<TokenKind>
    decreases |l|
  {
    hide ScanToken;
    if l == "" then
      []
    else
      var s := ScanToken(l, isKeyword);
      [s.kind] + ScanAll(s.rest, isKeyword)
  }
}

module Lexing {
  import opened Wrappers
  import opened LogicalText
  import opened Utf8

  datatype Token = Token(kind: TokenKind, len: nat)

  /** An error covering `len` bytes at byte `pos`. */
  datatype LexerError = InvalidToken(pos: nat, len: nat)

  /** Whether an error covers part of a text of `total` bytes. */
  predicate IsCovered(e: LexerError, total: nat) {
    0 < e.len && e.pos + e.len <= total
  }

  /** The errors of a token of `len` bytes at byte `offset`. */
  function ErrorsOf(fault: Fault, offset: nat, len: nat): seq<LexerError> {
    match fault
    case Clean => []
    case Whole => [InvalidToken(offset, len)]
    case Quotes => [InvalidToken(offset, 3)]
    case Letter(c) => [InvalidToken(offset, len + Width(c))]
    case Bytes(from, n) => [InvalidToken(offset + from, n)]
  }

  lemma ErrorCases(errors: seq<LexerError>, offset: nat, len: nat)
    ensures ErrorsOf(Clean, offset, len) == []
    ensures ErrorsOf(Whole, offset, len) == [InvalidToken(offset, len)]
    ensures ErrorsOf(Quotes, offset, len) == [InvalidToken(offset, 3)]
    ensures forall from: nat, n: nat :: ErrorsOf(Bytes(from, n), offset, len) == [InvalidToken(offset + from, n)]
    ensures errors + [] == errors
  {
  }

  class Lexer {
    const content: string
    /** Which words are keywords. */
    const isKeyword: string -> bool
    /** `is_identifier_part`, a property of Unicode. */
    const isIdentifierPart: char -> bool

    var pos: nat
    var offset: nat
    var indent: nat
    var reservedWord: bool
    var chars: string
    var errors: seq<LexerError>
    /** The errors found before the current token. */
    ghost var earlier: seq<LexerError>

    ghost predicate Valid()
      reads `chars, `pos, `offset
    {
      && |chars| <= |content| && chars == content[|content| - |chars|..]
      && pos + ByteLen(chars) == ByteLen(content)
      && offset <= pos
    }

    /** Errors cover text; those of the current token begin in what was read of it. */
    ghost predicate ErrorsValid()
      reads `errors, `earlier, `offset, `pos
    {
      && earlier <= errors
      && (forall i :: 0 <= i < |errors| ==> IsCovered(errors[i], ByteLen(content)))
      && (forall i :: |earlier| <= i < |errors| ==> offset <= errors[i].pos < pos)
    }

    constructor (content: string, isKeyword: string -> bool, isIdentifierPart: char -> bool)
      ensures Valid() && ErrorsValid()
      ensures this.content == content && this.isKeyword == isKeyword && this.isIdentifierPart == isIdentifierPart
      ensures chars == content && pos == 0 && errors == []
    {
      this.content := content;
      this.isKeyword := isKeyword;
      this.isIdentifierPart := isIdentifierPart;
      pos := 0;
      offset := 0;
      indent := 0;
      reservedWord := false;
      chars := content;
      errors := [];
      earlier := [];
    }

    /** The character that the `n + 1`st bump from here would read. */
    method PeekChar(n: nat) returns (ch: char)
      ensures ch == Peek(Logical(chars), n)
    {
      var rest := chars;
      ch := EOF_CHAR;
      for k := 0 to n + 1
        invariant k <= |Logical(chars)| && Logical(rest) == Logical(chars)[k..]
        invariant 0 < k ==> ch == Logical(chars)[k - 1]
      {
        if rest == "" {
          return EOF_CHAR;
        }
        if rest[0] == CR && [LF] <= rest[1..] {
          ch, rest := LF, rest[2..];
        } else {
          ch, rest := rest[0], rest[1..];
        }
      }
    }

    method First() returns (ch: char)
      ensures ch == Peek(Logical(chars), 0)
    {
      ch := PeekChar(0);
    }

    method Second() returns (ch: char)
      ensures ch == Peek(Logical(chars), 1)
    {
      ch := PeekChar(1);
    }

    method Third() returns (ch: char)
      ensures ch == Peek(Logical(chars), 2)
    {
      ch := PeekChar(2);
    }

    predicate IsAtEnd()
      reads this
      ensures IsAtEnd() <==> Logical(chars) == ""
    {
      chars == ""
    }

    method Bump() returns (c: Option<char>)
      requires Valid()
      modifies this`pos, this`chars
      ensures Valid() && old(pos) <= pos
      ensures c == if old(chars) == "" then None else Some(Peek(Logical(old(chars)), 0))
      ensures Logical(chars) == Drop(Logical(old(chars)))
      ensures c == None ==> chars == "" && pos == old(pos)
      ensures c.Some? ==> old(pos) + Width(c.value) <= pos && |chars| < |old(chars)|
      ensures c.Some? && c.value != LF ==> IsRun(old(chars), [c.value], chars) && pos == old(pos) + Width(c.value)
      ensures old(ErrorsValid()) ==> ErrorsValid()
    {
      if chars == "" {
        return None;
      }
      var ch := chars[0];
      chars := chars[1..];
      pos := pos + Width(ch);
      if ch == CR && [LF] <= chars {
        assert ByteLen(chars) == Width(LF) + ByteLen(chars[1..]);
        chars := chars[1..];
        pos := pos + Width(LF);
        return Some(LF);
      }
      return Some(ch);
    }

    /** Eat characters while `p` holds. When it stops at newlines, they are `taken` unfolded. */
    method EatWhile(p: char -> bool) returns (ghost taken: string)
      requires Valid()
      modifies this`pos, this`chars
      ensures Valid() && old(pos) <= pos
      ensures Logical(chars) == SkipWhile(Logical(old(chars)), p)
      ensures chars != old(chars) ==> old(pos) < pos
      ensures !p(LF) ==> IsRun(old(chars), taken, chars) && pos == old(pos) + ByteLen(taken)
      ensures old(ErrorsValid()) ==> ErrorsValid()
    {
      hide *;
      EmptyRun(chars);
      OneWidth(LF);
      taken := "";
      var first := First();
      while p(first) && !IsAtEnd()
        invariant Valid() && old(pos) <= pos
        invariant first == Peek(Logical(chars), 0)
        invariant SkipWhile(Logical(old(chars)), p) == SkipWhile(Logical(chars), p)
        invariant chars != old(chars) ==> old(pos) < pos
        invariant !p(LF) ==> IsRun(old(chars), taken, chars) && pos == old(pos) + ByteLen(taken)
        invariant old(ErrorsValid()) ==> ErrorsValid()
        decreases |chars|
      {
        ghost var before := chars;
        SkipWhileStep(Logical(chars), p);
        var _ := Bump();
        if !p(LF) {
          RunStep(old(chars), taken, before, [first], chars);
          ByteLenConcat(taken, [first]);
          OneWidth(first);
        }
        taken := taken + [first];
        first := First();
      }
      SkipWhileStep(Logical(chars), p);
    }

    lemma PosInText()
      requires Valid()
      ensures pos <= ByteLen(content)
    {
    }

    method ErrorAt(start: nat, len: nat)
      requires Valid() && ErrorsValid()
      requires 0 < len && start + len <= ByteLen(content) && offset <= start < pos
      modifies this`errors
      ensures Valid() && ErrorsValid() && errors == old(errors) + [InvalidToken(start, len)]
    {
      errors := errors + [InvalidToken(start, len)];
    }

    /** An error at the current token. */
    method Error()
      requires Valid() && ErrorsValid() && offset < pos
      modifies this`errors
      ensures Valid() && ErrorsValid() && errors == old(errors) + [InvalidToken(offset, pos - offset)]
    {
      ErrorAt(offset, pos - offset);
    }

    method FetchIdentRest() returns (kind: TokenKind, ghost taken: string)
      requires Valid() && ErrorsValid()
      modifies this`pos, this`chars
      ensures Valid() && ErrorsValid() && old(pos) <= pos && kind == Identifier
      ensures Logical(chars) == SkipWhile(Logical(old(chars)), IsIdentifierRest)
      ensures IsRun(old(chars), taken, chars)
    {
      hide Lexer.Valid, Lexer.ErrorsValid, Logical, IsRun;
      taken := EatWhile(IsIdentifierRest);
      kind := Identifier;
    }

    method FetchStringLitMultiIndent() returns (n: nat)
      requires Valid() && ErrorsValid()
      modifies this`pos, this`chars
      ensures Valid() && ErrorsValid() && old(pos) <= pos
      ensures Logical(chars) == SkipWhile(Logical(old(chars)), IsSpace)
      ensures n + |Logical(chars)| == |Logical(old(chars))|
    {
      hide Lexer.ErrorsValid, Lexer.Valid, Logical;
      n := 0;
      var first := First();
      while first == ' '
        invariant Valid() && old(pos) <= pos
        invariant first == Peek(Logical(chars), 0)
        invariant SkipWhile(Logical(old(chars)), IsSpace) == SkipWhile(Logical(chars), IsSpace)
        invariant n + |Logical(chars)| == |Logical(old(chars))| && ErrorsValid()
        decreases |chars|
      {
        var _ := Bump();
        n := n + 1;
        first := First();
      }
    }

    method FetchStringLitMulti() returns (kind: TokenKind)
      requires Valid() && ErrorsValid() && offset + 3 <= pos
      modifies this`pos, this`chars, this`errors
      ensures Valid() && ErrorsValid() && old(pos) <= pos
      ensures kind == LiteralMultilineString(indent)
      ensures Logical(chars) == MultiEnd(Logical(old(chars)))
      ensures errors == old(errors) + if IsMultiClosed(Logical(old(chars))) then [] else [InvalidToken(offset, 3)]
    {
      hide Lexer.Valid, Lexer.ErrorsValid, Logical;
      while true
        invariant Valid() && ErrorsValid() && old(pos) <= pos
        invariant MultiEnd(Logical(old(chars))) == MultiEnd(Logical(chars))
        invariant IsMultiClosed(Logical(old(chars))) == IsMultiClosed(Logical(chars)) && errors == old(errors)
        decreases |chars|
      {
        var c := Bump();
        match c {
          case Some('"') =>
            var first := First();
            var second := Second();
            if first == '"' && second == '"' {
              var _ := Bump();
              var _ := Bump();
              return LiteralMultilineString(indent);
            }
          case Some('\\') =>
            // Skip over the escaped character.
            var _ := Bump();
          case Some(_) =>
          case None =>
            // The literal runs to the end of the input; report it at its opening quotes.
            PosInText();
            ErrorAt(offset, 3);
            return LiteralMultilineString(indent);
        }
      }
    }

    method FetchStringLitSingle() returns (kind: TokenKind)
      requires Valid() && ErrorsValid() && offset < pos
      modifies this`pos, this`chars, this`errors
      ensures Valid() && ErrorsValid() && old(pos) <= pos
      ensures kind == LiteralString
      ensures Logical(chars) == SingleEnd(Logical(old(chars)))
      ensures errors == old(errors) + ErrorsOf(if IsSingleClosed(Logical(old(chars))) then Clean else Whole, offset, pos - offset)
    {
      hide Lexer.Valid, Lexer.ErrorsValid, Logical;
      while true
        invariant Valid() && ErrorsValid() && old(pos) <= pos
        invariant SingleEnd(Logical(old(chars))) == SingleEnd(Logical(chars))
        invariant IsSingleClosed(Logical(old(chars))) == IsSingleClosed(Logical(chars)) && errors == old(errors)
        decreases |chars|
      {
        var first := First();
        if first == LF || IsAtEnd() {
          Error();
          return LiteralString;
        }
        var c := Bump();
        if c == Some('"') {
          return LiteralString;
        }
        if c == Some('\\') {
          first := First();
          if first == LF || IsAtEnd() {
            Error();
            return LiteralString;
          }
          // Skip over the escaped character.
          var _ := Bump();
        }
      }
    }

    method CheckNoLetter()
      requires Valid() && ErrorsValid() && offset < pos
      modifies this`errors
      ensures Valid() && ErrorsValid()
      ensures errors == old(errors) + ErrorsOf(LetterFault(Logical(chars), isIdentifierPart), offset, pos - offset)
    {
      var ch := First();
      if isIdentifierPart(ch) && ch >= ' ' && !IsAtEnd() {
        // Cover the literal and the letter that ends it.
        ErrorAt(offset, pos - offset + Width(ch));
      }
    }

    method FetchExponent()
      requires Valid() && ErrorsValid()
      modifies this`pos, this`chars
      ensures Valid() && ErrorsValid() && old(pos) <= pos
      ensures Logical(chars) == ExponentEnd(Logical(old(chars)))
    {
      hide *;
      ExponentCases(Logical(chars));
      var first := First();
      if first == 'e' || first == 'E' {
        var lookahead := Second();
        if IsSign(lookahead) {
          lookahead := Third();
        }
        if IsAsciiDigit(lookahead) {
          var _ := Bump();
          first := First();
          if IsSign(first) {
            var _ := Bump();
          }
          var _ := EatWhile(IsAsciiDigit);
        }
      }
    }

    method FetchFraction() returns (kind: TokenKind)
      requires Valid() && ErrorsValid() && offset < pos
      modifies this`pos, this`chars, this`errors
      ensures Valid() && ErrorsValid() && old(pos) <= pos
      ensures Scan(kind, Logical(chars)) == Fraction(Logical(old(chars))) && kind == LiteralFloat
      ensures errors == old(errors) + ErrorsOf(LetterFault(Logical(chars), isIdentifierPart), offset, pos - offset)
    {
      hide LetterFault, ErrorsOf, Lexer.Valid, Lexer.ErrorsValid, Logical, SkipWhile, ExponentEnd, Peek, ByteLen, IsRun;
      var _ := EatWhile(IsAsciiDigit);
      FetchExponent();
      CheckNoLetter();
      return LiteralFloat;
    }

    method FetchNumber(base: nat) returns (kind: TokenKind)
      requires Valid() && ErrorsValid() && offset < pos && (base == 10 || base == 16)
      modifies this`pos, this`chars, this`errors
      ensures Valid() && ErrorsValid() && old(pos) <= pos
      ensures Scan(kind, Logical(chars)) == Number(Logical(old(chars)), base == 16)
      ensures kind == LiteralInt || kind == LiteralFloat
      ensures base == 16 && !IsHexDigit(Peek(Logical(old(chars)), 0)) ==> kind == LiteralInt && pos == old(pos)
      ensures errors == if kind == LiteralInt then old(errors)
                        else old(errors) + ErrorsOf(LetterFault(Logical(chars), isIdentifierPart), offset, pos - offset)
    {
      hide *;
      ghost var taken := EatWhile(DigitOf(base == 16));
      NoDigits(old(chars), taken, chars, base == 16);
      NumberCases(Logical(old(chars)), base == 16, Logical(chars));
      var first := First();
      if first == '.' && base == 10 {
        var _ := Bump();
        kind := FetchFraction();
      } else if (first == 'e' || first == 'E') && base == 10 {
        kind := FetchFraction();
      } else {
        kind := LiteralInt;
      }
    }

    /** A line continuation, after its backslash. */
    method FetchContinuation() returns (kind: TokenKind)
      requires Valid() && ErrorsValid() && pos == offset + 1
      modifies this`pos, this`chars, this`errors
      ensures Valid() && ErrorsValid() && old(pos) <= pos
      ensures kind == Whitespace && Logical(chars) == ContinuationEnd(Logical(old(chars)))
      ensures errors == old(errors) + ErrorsOf(ContinuationFault(Logical(old(chars))), offset, pos - offset)
    {
      hide *;
      ContinuationCases(Logical(chars));
      ghost var before := chars;
      // Absorb spaces until the newline.
      ghost var spaces := EatWhile(IsSpace);
      StopsAtNewlines();
      var first := First();
      ghost var behind := chars;
      if first != LF {
        var start := pos;
        ghost var taken := EatWhile(IsNotNewline);
        NotContinued(before, spaces, behind, taken, chars);
        if start < pos {
          // Point at the characters that follow the backslash.
          PosInText();
          ErrorAt(start, pos - start);
        } else {
          // The input ends after the backslash.
          Error();
        }
      } else {
        Continued(Logical(before), Logical(behind));
      }
      // Skip the newline.
      var _ := Bump();
      ErrorCases(old(errors), offset, pos - offset);
      return Whitespace;
    }

    /** A multi-line string literal, after its first quote. */
    method FetchStringMulti() returns (kind: TokenKind)
      requires Valid() && ErrorsValid() && offset < pos
      requires Peek(Logical(chars), 0) == '"' && Peek(Logical(chars), 1) == '"'
      modifies this`pos, this`chars, this`errors, this`indent
      ensures Valid() && ErrorsValid() && old(pos) <= pos
      ensures Scan(kind, Logical(chars)) == StringLiteral(Logical(old(chars))) && kind.LiteralMultilineString?
      ensures errors == old(errors)
                        + ErrorsOf(FaultAfter('"', Logical(old(chars)), Scan(kind, Logical(chars)), isIdentifierPart), offset, pos - offset)
    {
      hide *;
      StringCases(Logical(chars));
      TwoQuotes(Logical(chars));
      var _ := Bump();
      var _ := Bump();
      // Skip the initial newline if it exists.
      var first := First();
      if first == LF {
        var _ := Bump();
      }
      indent := FetchStringLitMultiIndent();
      kind := FetchStringLitMulti();
      StringErrors(Logical(old(chars)), Scan(kind, Logical(chars)), isIdentifierPart, old(errors), offset, pos - offset);
    }

    /** A string literal, after its first quote. */
    method FetchString() returns (kind: TokenKind)
      requires Valid() && ErrorsValid() && offset < pos
      modifies this`pos, this`chars, this`errors, this`indent
      ensures Valid() && ErrorsValid() && old(pos) <= pos
      ensures Scan(kind, Logical(chars)) == StringLiteral(Logical(old(chars)))
      ensures kind == LiteralString || kind.LiteralMultilineString?
      ensures errors == old(errors)
                        + ErrorsOf(FaultAfter('"', Logical(old(chars)), Scan(kind, Logical(chars)), isIdentifierPart), offset, pos - offset)
    {
      hide *;
      StringCases(Logical(chars));
      var first := First();
      if first == '"' {
        var second := Second();
        if second == '"' {
          kind := FetchStringMulti();
        } else {
          // Empty string literal.
          var _ := Bump();
          kind := LiteralString;
        }
      } else {
        kind := FetchStringLitSingle();
      }
      StringErrors(Logical(old(chars)), Scan(kind, Logical(chars)), isIdentifierPart, old(errors), offset, pos - offset);
    }

    /** A number that begins with 0. */
    method FetchZero() returns (kind: TokenKind)
      requires Valid() && ErrorsValid() && offset < pos
      modifies this`pos, this`chars, this`errors
      ensures Valid() && ErrorsValid() && old(pos) <= pos
      ensures Scan(kind, Logical(chars)) == ScanZero(Logical(old(chars)))
      ensures errors == old(errors)
                        + ErrorsOf(FaultAfter('0', Logical(old(chars)), Scan(kind, Logical(chars)), isIdentifierPart), offset, pos - offset)
    {
      hide *;
      ZeroCases(Logical(chars));
      var base := 10;
      var first := First();
      if first == 'x' || first == 'X' {
        var _ := Bump();
        base := 16;
      }
      if base != 10 {
        first := First();
        if !IsHexDigit(first) {
          Error();
        }
      }
      kind := FetchNumber(base);
      ZeroErrors(Logical(old(chars)), Scan(kind, Logical(chars)), isIdentifierPart, old(errors), offset, pos - offset);
    }

    /** An annotation or a symbol, after its first character. */
    method FetchSymbol(c: char) returns (kind: TokenKind)
      requires Valid() && ErrorsValid() && offset < pos
      modifies this`pos, this`chars, this`errors
      ensures Valid() && ErrorsValid() && old(pos) <= pos
      ensures Scan(kind, Logical(chars)) == ScanSymbol(c, Logical(old(chars)))
      ensures errors == old(errors)
                        + ErrorsOf(FaultAfter(c, Logical(old(chars)), Scan(kind, Logical(chars)), isIdentifierPart), offset, pos - offset)
    {
      hide *;
      SymbolCases(c, Logical(chars));
      var first := First();
      if c == '@' {
        kind := PreAnnotation;
        if first == '<' {
          var _ := Bump();
          kind := PostAnnotation;
        }
        var _ := EatWhile(IsNotNewline);
      } else if c == '-' {
        kind := Minus;
        if first == '>' {
          var _ := Bump();
          kind := RightArrow;
        }
      } else if c == '<' {
        if first == '<' {
          var _ := Bump();
          kind := ShiftLeft;
        } else {
          Error();
          kind := Unknown;
        }
      } else if c == '>' {
        if first == '>' {
          var _ := Bump();
          kind := ShiftRight;
        } else {
          Error();
          kind := Unknown;
        }
      } else if IsSymbol(c) {
        kind := Symbol(c);
      } else {
        PosInText();
        ErrorAt(offset, pos - offset);
        kind := Unknown;
      }
      PlainFaults(c, Logical(old(chars)), Scan(kind, Logical(chars)), isIdentifierPart);
      ErrorCases(old(errors), offset, pos - offset);
    }

    /** The rest of a token that is neither spaces nor a word. */
    method FetchOther(c: char) returns (kind: TokenKind)
      requires Valid() && ErrorsValid() && offset < pos && (c == '\\' ==> pos == offset + 1)
      requires c != ' ' && c != '$' && !IsIdentifierFirst(c)
      modifies this`pos, this`chars, this`errors, this`indent
      ensures Valid() && ErrorsValid() && old(pos) <= pos
      ensures Scan(kind, Logical(chars)) == ScanAfter(c, Logical(old(chars)), isKeyword) && kind != Identifier
      ensures errors == old(errors)
                        + ErrorsOf(FaultAfter(c, Logical(old(chars)), Scan(kind, Logical(chars)), isIdentifierPart),
                                   offset, pos - offset)
    {
      hide Lexer.Valid, Lexer.ErrorsValid, Logical, SkipWhile, Fraction, Number, StringLiteral, ContinuationEnd,
        ScanZero, ScanSymbol, Drop, ByteLen, IsRun, ErrorsOf, LetterFault, ContinuationFault, FaultAfter;
      if c == '0' {
        kind := FetchZero();
      } else if '1' <= c <= '9' {
        kind := FetchNumber(10);
      } else if c == '\\' {
        kind := FetchContinuation();
      } else if c == '"' {
        kind := FetchString();
      } else if c == '.' {
        var first := First();
        if IsAsciiDigit(first) {
          kind := FetchFraction();
        } else {
          kind := Dot;
        }
      } else if c == '#' {
        var _ := EatWhile(IsNotNewline);
        kind := Comment;
      } else if c == LF {
        var _ := EatWhile(IsNewline);
        kind := Eol;
      } else {
        kind := FetchSymbol(c);
      }
      PlainFaults(c, Logical(old(chars)), Scan(kind, Logical(chars)), isIdentifierPart);
      ErrorCases(old(errors), offset, pos - offset);
    }

    /** The rest of the token that begins with `c`. Words are not yet told apart. */
    method FetchAfter(c: char) returns (kind: TokenKind, ghost taken: string)
      requires Valid() && ErrorsValid() && offset < pos && !reservedWord && (c == '\\' ==> pos == offset + 1)
      modifies this`pos, this`chars, this`errors, this`indent, this`reservedWord
      ensures Valid() && ErrorsValid() && old(pos) <= pos
      ensures Logical(chars) == ScanAfter(c, Logical(old(chars)), isKeyword).rest
      ensures IsIdentifierFirst(c) ==> kind == Identifier && !reservedWord && IsRun(old(chars), taken, chars)
      ensures !IsIdentifierFirst(c) ==> kind == ScanAfter(c, Logical(old(chars)), isKeyword).kind
      ensures kind == Identifier && !reservedWord ==> IsIdentifierFirst(c)
      ensures errors == old(errors)
                        + ErrorsOf(FaultAfter(c, Logical(old(chars)), ScanAfter(c, Logical(old(chars)), isKeyword), isIdentifierPart),
                                   offset, pos - offset)
    {
      hide Lexer.Valid, Lexer.ErrorsValid, Logical, SkipWhile, Fraction, Number, StringLiteral, ContinuationEnd,
        ScanZero, ScanSymbol, Drop, ByteLen, IsRun, ErrorsOf, LetterFault, ContinuationFault, FaultAfter;
      taken := "";
      if c == ' ' {
        var _ := EatWhile(IsSpace);
        kind := Whitespace;
      } else if c == '$' {
        var first := First();
        if IsIdentifierFirst(first) {
          reservedWord := true;
          kind, taken := FetchIdentRest();
        } else {
          Error();
          kind := Unknown;
        }
      } else if IsIdentifierFirst(c) {
        kind, taken := FetchIdentRest();
      } else {
        kind := FetchOther(c);
      }
      PlainFaults(c, Logical(old(chars)), ScanAfter(c, Logical(old(chars)), isKeyword), isIdentifierPart);
      ErrorCases(old(errors), offset, pos - offset);
    }

    /** Reset the per-token state for the token that starts at the current position. */
    method ResetToken()
      requires Valid() && ErrorsValid()
      modifies this`offset, this`indent, this`reservedWord, this`earlier
      ensures Valid() && ErrorsValid() && offset == pos && !reservedWord && earlier == errors
    {
      offset := pos;
      indent := 0;
      reservedWord := false;
      earlier := errors;
    }

    /** A word is a keyword unless it was escaped. */
    method FinishIdent(ghost word: string) returns (kind: TokenKind)
      requires Valid()
      requires !reservedWord ==> IsCharBoundary(content, offset) && IsCharBoundary(content, pos)
      requires !reservedWord ==> Slice(content, offset, pos) == word
      ensures kind == if !reservedWord && isKeyword(word) then Keyword(word) else Identifier
    {
      if reservedWord {
        return Identifier;
      }
      var text := Slice(content, offset, pos);
      if isKeyword(text) {
        return Keyword(text);
      }
      return Identifier;
    }

    lemma ErrorFacts()
      requires ErrorsValid()
      ensures earlier <= errors
      ensures forall i :: 0 <= i < |errors| ==> IsCovered(errors[i], ByteLen(content))
      ensures forall i :: |earlier| <= i < |errors| ==> offset <= errors[i].pos < pos
    {
    }

    /** What is left to read is the end of the text. */
    lemma CharsAreSuffix()
      requires Valid()
      ensures IsSuffix(content, chars, pos)
    {
    }

    /** The next token, or nothing at the end of the text. */
    method Next() returns (token: Option<Token>)
      requires Valid() && ErrorsValid()
      modifies this
      ensures Valid() && ErrorsValid() && earlier == old(errors)
      ensures offset == old(pos)
      ensures old(chars) == "" ==> token == None && pos == old(pos) && chars == "" && errors == old(errors)
      ensures old(chars) != "" ==>
          && token.Some? && 0 < token.value.len && pos == old(pos) + token.value.len
          && Scan(token.value.kind, Logical(chars)) == ScanToken(Logical(old(chars)), isKeyword)
          && errors == old(errors) + ErrorsOf(FaultOf(Logical(old(chars)), isKeyword, isIdentifierPart), old(pos), token.value.len)
    {
      hide Lexer.Valid, Lexer.ErrorsValid, Logical, ScanAfter, ByteLen, IsIdentifierFirst;
      CharsAreSuffix();
      ResetToken();
      ghost var whole := chars;
      var first := Bump();
      if first == None {
        return None;
      }
      ghost var start := chars;
      var kind, taken := FetchAfter(first.value);
      ScanWord(first.value, Logical(start), taken, Logical(chars), isKeyword);
      if kind == Identifier {
        CharsAreSuffix();
        if !reservedWord {
          WordText(content, whole, offset, first.value, start, taken, chars, pos);
        }
        kind := FinishIdent([first.value] + taken);
      }
      return Some(Token(kind, pos - offset));
    }
  }

  /** A word that was read in full is the scanned one. */
  lemma ScanWord(c: char, t: string, taken: string, rest: string, isKeyword: string -> bool)
    ensures IsIdentifierFirst(c) && t == taken + rest && rest == SkipWhile(t, IsIdentifierRest) ==>
        ScanAfter(c, t, isKeyword)
        == Scan(if isKeyword([c] + taken) then Keyword([c] + taken) else Identifier, rest)
    ensures IsIdentifierFirst(c) ==> ScanAfter(c, t, isKeyword).rest == SkipWhile(t, IsIdentifierRest)
    ensures IsIdentifierFirst(c) ==> c != LF
  {
    hide SkipWhile;
    if IsIdentifierFirst(c) && t == taken + rest && rest == SkipWhile(t, IsIdentifierRest) {
      assert t[..|t| - |rest|] == taken;
    }
  }

  /** Whether `rest` is the end of `s`, from byte `pos` on. */
  ghost predicate IsSuffix(s: string, rest: string, pos: nat) {
    |rest| <= |s| && rest == s[|s| - |rest|..] && pos + ByteLen(rest) == ByteLen(s)
  }

  /** The bytes between two positions of the lexer hold the word read between them. */
  lemma WordText(s: string, whole: string, offset: nat, c: char, start: string, taken: string, rest: string, pos: nat)
    requires IsSuffix(s, whole, offset) && IsSuffix(s, rest, pos)
    requires IsRun(whole, [c], start) && IsRun(start, taken, rest)
    ensures offset <= pos && IsCharBoundary(s, offset) && IsCharBoundary(s, pos)
    ensures Slice(s, offset, pos) == [c] + taken
  {
    hide Logical, ByteLen, IsCharBoundary;
    var i, j := |s| - |whole|, |s| - |rest|;
    SliceAt(s, i, j);
    assert s == s[..i] + whole == s[..j] + rest;
    ByteLenConcat(s[..i], whole);
    ByteLenConcat(s[..j], rest);
    assert whole == [c] + taken + rest;
    assert s[i..j] == whole[..j - i];
  }

  lemma ZeroCases(t: string)
    ensures ScanZero(t)
         == if Peek(t, 0) == 'x' || Peek(t, 0) == 'X' then Number(Drop(t), true) else Number(t, false)
  {
    hide Number;
  }

  lemma ContinuationCases(t: string)
    ensures var r := SkipWhile(t, IsSpace);
            ContinuationEnd(t) == Drop(if Peek(r, 0) != LF then SkipWhile(r, IsNotNewline) else r)
  {
  }

  lemma OneWidth(c: char)
    ensures ByteLen([c]) == Width(c) && ByteLen("") == 0
  {
    assert [c][1..] == "";
  }

  lemma StopsAtNewlines()
    ensures !IsSpace(LF) && !IsNotNewline(LF)
  {
  }

  /** What follows the backslash and the spaces, and is no end of line. */
  lemma NotContinued(before: string, spaces: string, behind: string, taken: string, after: string)
    requires IsRun(before, spaces, behind) && IsRun(behind, taken, after)
    requires Logical(behind) == SkipWhile(Logical(before), IsSpace)
    requires Logical(after) == SkipWhile(Logical(behind), IsNotNewline) && Peek(Logical(behind), 0) != LF
    ensures ContinuationFault(Logical(before)) == if taken == "" then Whole else Bytes(1 + ByteLen(spaces), ByteLen(taken))
    ensures taken == "" <==> ByteLen(taken) == 0
    ensures taken == "" ==> Logical(after) == ""
  {
    hide Logical, SkipWhile, ByteLen;
    var t, r, e := Logical(before), Logical(behind), Logical(after);
    assert t[..|t| - |r|] == spaces && r[..|r| - |e|] == taken;
    NoBytes(taken);
    if taken == "" {
      SkipsNothing(r);
      assert behind == after;
    }
  }

  lemma NoBytes(s: string)
    ensures s == "" <==> ByteLen(s) == 0
  {
  }

  lemma SkipsNothing(r: string)
    requires SkipWhile(r, IsNotNewline) == r
    ensures r == "" || r[0] == LF
  {
  }

  lemma Continued(t: string, r: string)
    requires r == SkipWhile(t, IsSpace) && Peek(r, 0) == LF
    ensures ContinuationFault(t) == Clean
  {
  }

  lemma {:induction false} SpacesCloseNothing(l: string)
    ensures IsMultiClosed(SkipWhile(l, IsSpace)) == IsMultiClosed(l)
  {
    if l != "" && IsSpace(l[0]) {
      SpacesCloseNothing(l[1..]);
    }
  }

  /** The error of a string literal, whose kind is that of the scanned one. */
  lemma StringErrors(t: string, s: Scan, isIdentifierPart: char -> bool, before: seq<LexerError>, offset: nat, len: nat)
    ensures var errors := before + ErrorsOf(FaultAfter('"', t, s, isIdentifierPart), offset, len);
            && (s.kind == LiteralString ==>
                  errors == before + ErrorsOf(if IsSingleClosed(t) then Clean else Whole, offset, len))
            && (s.kind == LiteralString && Peek(t, 0) == '"' ==> errors == before)
            && (s.kind.LiteralMultilineString? && Peek(t, 0) == '"' && Peek(t, 1) == '"' ==>
                  var inside := Drop(Drop(t));
                  var body := if Peek(inside, 0) == LF then Drop(inside) else inside;
                  errors == before + if IsMultiClosed(SkipWhile(body, IsSpace)) then [] else [InvalidToken(offset, 3)])
  {
    hide SkipWhile;
    if 2 <= |t| {
      var inside := t[2..];
      SpacesCloseNothing(if Peek(inside, 0) == LF then Drop(inside) else inside);
    }
  }

  lemma NoDigits(before: string, taken: string, after: string, hex: bool)
    ensures !DigitOf(hex)(LF)
    ensures IsRun(before, taken, after) && Logical(after) == SkipWhile(Logical(before), DigitOf(hex)) ==>
        (hex && !IsHexDigit(Peek(Logical(before), 0)) ==> ByteLen(taken) == 0)
  {
    hide Logical;
    if IsRun(before, taken, after) && Logical(after) == SkipWhile(Logical(before), DigitOf(hex)) && hex
       && !IsHexDigit(Peek(Logical(before), 0)) {
      assert Logical(before) == Logical(after);
      assert taken == "";
    }
  }

  lemma SymbolCases(c: char, t: string)
    ensures c == '@' ==>
        ScanSymbol(c, t) == if Peek(t, 0) == '<' then Scan(PostAnnotation, SkipWhile(Drop(t), IsNotNewline))
                            else Scan(PreAnnotation, SkipWhile(t, IsNotNewline))
    ensures c == '-' ==> ScanSymbol(c, t) == if Peek(t, 0) == '>' then Scan(RightArrow, Drop(t)) else Scan(Minus, t)
    ensures c == '<' ==> ScanSymbol(c, t) == if Peek(t, 0) == '<' then Scan(ShiftLeft, Drop(t)) else Scan(Unknown, t)
    ensures c == '>' ==> ScanSymbol(c, t) == if Peek(t, 0) == '>' then Scan(ShiftRight, Drop(t)) else Scan(Unknown, t)
    ensures c !in ['@', '-', '<', '>'] ==> ScanSymbol(c, t) == Scan(if IsSymbol(c) then Symbol(c) else Unknown, t)
  {
    hide SkipWhile;
  }

  /** The errors of tokens that are no string literals. */
  lemma PlainFaults(c: char, t: string, s: Scan, isIdentifierPart: char -> bool)
    ensures s.kind == Unknown ==> FaultAfter(c, t, s, isIdentifierPart) == Whole
    ensures s.kind == LiteralFloat ==> FaultAfter(c, t, s, isIdentifierPart) == LetterFault(s.rest, isIdentifierPart)
    ensures s.kind == LiteralInt && c != '0' ==> FaultAfter(c, t, s, isIdentifierPart) == Clean
    ensures s.kind == Whitespace ==>
        FaultAfter(c, t, s, isIdentifierPart) == if c == '\\' then ContinuationFault(t) else Clean
    ensures !(s.kind.Unknown? || s.kind.LiteralFloat? || s.kind.LiteralInt? || s.kind.Whitespace? || s.kind.LiteralString?
              || s.kind.LiteralMultilineString?) ==>
        FaultAfter(c, t, s, isIdentifierPart) == Clean
  {
  }

  lemma ZeroErrors(t: string, s: Scan, isIdentifierPart: char -> bool, before: seq<LexerError>, offset: nat, len: nat)
    ensures var errors := before + ErrorsOf(FaultAfter('0', t, s, isIdentifierPart), offset, len);
            && (s.kind == LiteralInt ==>
                  errors == if (Peek(t, 0) == 'x' || Peek(t, 0) == 'X') && !IsHexDigit(Peek(Drop(t), 0))
                            then before + [InvalidToken(offset, len)] else before)
            && (s.kind == LiteralFloat ==> errors == before + ErrorsOf(LetterFault(s.rest, isIdentifierPart), offset, len))
  {
  }

  lemma TwoQuotes(l: string)
    requires Peek(l, 0) == '"' && Peek(l, 1) == '"'
    ensures l != "" && Drop(l) != ""
  {
  }

  lemma StringCases(t: string)
    ensures Peek(t, 0) != '"' ==> StringLiteral(t) == Scan(LiteralString, SingleEnd(t))
    ensures Peek(t, 0) == '"' && Peek(t, 1) != '"' ==> StringLiteral(t) == Scan(LiteralString, Drop(t))
    ensures Peek(t, 0) == '"' && Peek(t, 1) == '"' ==>
        var inside := Drop(Drop(t));
        var body := if Peek(inside, 0) == LF then Drop(inside) else inside;
        var r := SkipWhile(body, IsSpace);
        StringLiteral(t) == Scan(LiteralMultilineString(|body| - |r|), MultiEnd(r))
  {
    hide SkipWhile, MultiEnd, SingleEnd;
  }

  lemma ExponentCases(r: string)
    ensures var lookahead := if IsSign(Peek(r, 1)) then Peek(r, 2) else Peek(r, 1);
            var scientific := (Peek(r, 0) == 'e' || Peek(r, 0) == 'E') && IsAsciiDigit(lookahead);
            var e := Drop(r);
            && (!scientific ==> ExponentEnd(r) == r)
            && (scientific ==>
                  && Peek(e, 0) == Peek(r, 1)
                  && ExponentEnd(r) == SkipWhile(if IsSign(Peek(r, 1)) then Drop(e) else e, IsAsciiDigit))
  {
    hide SkipWhile;
  }

  lemma NumberCases(l: string, hex: bool, r: string)
    requires r == SkipWhile(l, DigitOf(hex))
    ensures !hex && Peek(r, 0) == '.' ==> Number(l, hex) == Fraction(Drop(r))
    ensures !hex && (Peek(r, 0) == 'e' || Peek(r, 0) == 'E') ==> Number(l, hex) == Fraction(r)
    ensures hex || !(Peek(r, 0) in ['.', 'e', 'E']) ==> Number(l, hex) == Scan(LiteralInt, r)
  {
    hide SkipWhile, Fraction;
  }

  lemma SkipWhileStep(l: string, p: char -> bool)
    ensures l != "" && p(Peek(l, 0)) ==>
        SkipWhile(l, p) == SkipWhile(l[1..], p) && l[1..] == Drop(l) && l == [Peek(l, 0)] + Drop(l)
    ensures l == "" || !p(Peek(l, 0)) ==> SkipWhile(l, p) == l
  {
  }

  /** Whether `before` is the characters `taken`, none of which is folded, and `after`. */
  ghost predicate IsRun(before: string, taken: string, after: string) {
    before == taken + after && Logical(before) == taken + Logical(after)
  }

  lemma EmptyRun(s: string)
    ensures IsRun(s, "", s)
  {
  }

  lemma RunStep(before: string, taken: string, mid: string, more: string, after: string)
    requires IsRun(before, taken, mid) && IsRun(mid, more, after)
    ensures IsRun(before, taken + more, after)
  {
    hide Logical;
    assert taken + (more + after) == taken + more + after;
    assert taken + (more + Logical(after)) == taken + more + Logical(after);
  }
}
