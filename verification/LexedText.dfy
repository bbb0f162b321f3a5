/** Lexing a text into raw tokens (fpp_lsp_parser/src/lexed_str.rs). */
module LexedText {
  import opened Wrappers
  import opened Syntax
  import opened LogicalText
  import opened Lexing
  import opened Trivia
  import Utf8

  /** `KEYWORDS`: the kinds of the reserved words. */
  type Keywords = map<string, SyntaxKind>

  predicate AreKeywords(keywords: Keywords) {
    forall w :: w in keywords ==> FIRST_KEYWORD <= keywords[w] <= LAST_KEYWORD
  }

  function IsKeywordOf(keywords: Keywords): string -> bool {
    w => w in keywords
  }

  function SymbolKind(c: char): SyntaxKind {
    match c
    case '*' => STAR
    case '+' => PLUS
    case '/' => SLASH
    case '=' => EQUALS
    case ';' => SEMI
    case ':' => COLON
    case ',' => COMMA
    case '(' => LEFT_PAREN
    case '{' => LEFT_CURLY
    case ')' => RIGHT_PAREN
    case '}' => RIGHT_CURLY
    case '[' => LEFT_SQUARE
    case ']' => RIGHT_SQUARE
    case _ => UNKNOWN
  }

  function KindOf(k: TokenKind, keywords: Keywords): (kind: SyntaxKind)
    ensures AreKeywords(keywords) ==> kind != EOF
  {
    match k
    case Whitespace => WHITESPACE
    case Comment => COMMENT
    case Unknown => UNKNOWN
    case Identifier => IDENT
    case PostAnnotation => POST_ANNOTATION
    case PreAnnotation => PRE_ANNOTATION
    case LiteralFloat => LITERAL_FLOAT
    case LiteralInt => LITERAL_INT
    case LiteralString => LITERAL_STRING
    case LiteralMultilineString(_) => LITERAL_STRING
    case Keyword(word) => if word in keywords then keywords[word] else IDENT
    case Eol => EOL
    case RightArrow => RIGHT_ARROW
    case Minus => MINUS
    case Dot => DOT
    case ShiftLeft => SHIFT_LEFT
    case ShiftRight => SHIFT_RIGHT
    case Symbol(c) => SymbolKind(c)
  }

  function KindsOf(ks: seq<TokenKind>, keywords: Keywords): (kinds: seq<SyntaxKind>)
    ensures |kinds| == |ks|
    ensures forall i :: 0 <= i < |ks| ==> kinds[i] == KindOf(ks[i], keywords)
  {
    seq(|ks|, i requires 0 <= i < |ks| => KindOf(ks[i], keywords))
  }

  // ---- Attributing errors ---------------------------------------------------

  /** How many of the first offsets are below `pos`, or at most `pos`. */
  function PartitionPoint(starts: seq<nat>, pos: nat, orEqual: bool): (n: nat)
    ensures n <= |starts|
  {
    if starts != [] && (starts[0] < pos || (orEqual && starts[0] == pos)) then
      1 + PartitionPoint(starts[1..], pos, orEqual)
    else
      0
  }

  function SaturatingPred(n: nat): nat {
    if n == 0 then 0 else n - 1
  }

  /** The token that was being lexed when an error was reported. */
  function TokenAtError(lx: LexedStr, pos: nat, len: nat): nat
    requires lx.Valid()
  {
    var n := lx.Len();
    var after := PartitionPoint(lx.starts[..n], pos, len != 0);
    if SaturatingPred(after) <= SaturatingPred(n) then SaturatingPred(after) else SaturatingPred(n)
  }

  lemma {:induction false} PartitionPointIs(starts: seq<nat>, pos: nat, orEqual: bool, i: nat)
    requires forall a, b :: 0 <= a < b < |starts| ==> starts[a] < starts[b]
    requires i < |starts|
    requires if orEqual then starts[i] <= pos else starts[i] < pos
    requires i + 1 < |starts| ==> if orEqual then pos < starts[i + 1] else pos <= starts[i + 1]
    ensures PartitionPoint(starts, pos, orEqual) == i + 1
  {
    if 0 < i {
      assert starts[0] < starts[i];
      PartitionPointIs(starts[1..], pos, orEqual, i - 1);
    } else if 1 < |starts| {
      assert starts[1..][0] == starts[1];
    }
  }

  /** An error that covers text is attributed to the token it begins in, one that covers
      none to the token it ends. */
  lemma ErrorIsAttributed(lx: LexedStr, i: nat, pos: nat, len: nat)
    requires lx.Valid() && i < lx.Len()
    requires if len != 0 then lx.starts[i] <= pos < lx.starts[i + 1] else lx.starts[i] < pos <= lx.starts[i + 1]
    ensures TokenAtError(lx, pos, len) == i
  {
    hide Ascending;
    var starts := lx.starts[..lx.Len()];
    forall a, b | 0 <= a < b < |starts|
      ensures starts[a] < starts[b]
    {
      AscendingOrder(lx.text, lx.starts, a, b);
    }
    PartitionPointIs(starts, pos, len != 0, i);
  }

  // ---- The converter ----------------------------------------------------------

  const MAX_TEXT := 0x1_0000_0000

  class Converter {
    const text: string
    var kinds: seq<SyntaxKind>
    var starts: seq<nat>
    var offset: nat

    constructor (text: string)
      ensures this.text == text && kinds == [] && starts == [] && offset == 0
    {
      this.text := text;
      kinds := [];
      starts := [];
      offset := 0;
    }

    /** Offsets are stored in 32 bits. */
    method PushTo(kind: SyntaxKind, offset: nat)
      modifies this`kinds, this`starts
      ensures kinds == old(kinds) + [kind] && starts == old(starts) + [offset % MAX_TEXT]
    {
      kinds := kinds + [kind];
      starts := starts + [offset % MAX_TEXT];
    }

    method Push(kind: SyntaxKind, len: nat)
      modifies this
      ensures kinds == old(kinds) + [kind] && starts == old(starts) + [old(offset) % MAX_TEXT]
      ensures offset == old(offset) + len
    {
      PushTo(kind, offset);
      offset := offset + len;
    }

    method FinalizeWithEof() returns (lx: LexedStr)
      modifies this
      ensures lx == LexedStr(text, old(kinds) + [EOF], old(starts) + [old(offset) % MAX_TEXT])
    {
      PushTo(EOF, offset);
      return LexedStr(text, kinds, starts);
    }
  }

  lemma {:induction false} AscendingSnoc(s: string, starts: seq<nat>, next: nat)
    requires starts != [] ==> Ascending(s, starts) && starts[|starts| - 1] < next
    requires Utf8.IsCharBoundary(s, next)
    ensures Ascending(s, starts + [next])
  {
    if 1 < |starts| {
      AscendingSnoc(s, starts[1..], next);
      assert (starts + [next])[1..] == starts[1..] + [next];
    }
  }

  /** The offset of a lexer in its text. */
  lemma SuffixBoundary(s: string, rest: string, pos: nat)
    requires IsSuffix(s, rest, pos)
    ensures Utf8.IsCharBoundary(s, pos) && pos <= Utf8.ByteLen(s)
    ensures rest == "" ==> pos == Utf8.ByteLen(s)
  {
    var i := |s| - |rest|;
    assert s == s[..i] + rest;
    Utf8.PrefixIsBoundary(s[..i], rest);
    Utf8.ByteLenConcat(s[..i], rest);
  }

  /** An error of the lexer with the token it is attributed to. */
  datatype LexError = LexError(token: nat, pos: nat, len: nat)

  /** Whether error `e` begins in token `i` of the tokens that start at `starts`. */
  ghost predicate BeginsIn(e: LexerError, starts: seq<nat>, i: nat) {
    i + 1 < |starts| && starts[i] <= e.pos < starts[i + 1]
  }

  ghost predicate Sorted(s: seq<nat>) {
    forall i, j :: 0 <= i < j < |s| ==> s[i] <= s[j]
  }

  /** Whether `owners` are the tokens in which the errors begin. */
  ghost predicate AreOwners(owners: seq<nat>, errors: seq<LexerError>, starts: seq<nat>) {
    && |owners| == |errors|
    && Sorted(owners)
    && forall k :: 0 <= k < |owners| ==> BeginsIn(errors[k], starts, owners[k])
  }

  // ---- The errors of a text ------------------------------------------------------

  function TextFrom(text: string, start: nat): string {
    if Utf8.IsCharBoundary(text, start) then text[Utf8.CharIndex(text, start)..] else ""
  }

  lemma TextFromSuffix(text: string, rest: string, pos: nat)
    requires IsSuffix(text, rest, pos)
    ensures TextFrom(text, pos) == rest
  {
    var i := |text| - |rest|;
    assert text == text[..i] + rest;
    Utf8.PrefixIsBoundary(text[..i], rest);
    Utf8.ByteLenConcat(text[..i], rest);
  }

  /** Errors as they are reported for token `i`. */
  function ReportedFor(i: nat, errors: seq<LexerError>): (r: seq<LexError>)
    ensures |r| == |errors| && forall k :: 0 <= k < |r| ==> r[k] == LexError(i, errors[k].pos, errors[k].len)
  {
    seq(|errors|, k requires 0 <= k < |errors| => LexError(i, errors[k].pos, errors[k].len))
  }

  /** What is to be reported for token `i`, which begins at `start` and ends at `end`: what is wrong
      with the first token of the text from there on. */
  function ReportsOf(text: string, i: nat, start: nat, end: nat, keywords: Keywords, isIdentifierPart: char -> bool): seq<LexError> {
    var l := Logical(TextFrom(text, start));
    if l == "" || end < start then
      []
    else
      ReportedFor(i, ErrorsOf(FaultOf(l, IsKeywordOf(keywords), isIdentifierPart), start, end - start))
  }

  /** What is to be reported for the tokens between these offsets, token by token. */
  function Reports(text: string, starts: seq<nat>, keywords: Keywords, isIdentifierPart: char -> bool): seq<LexError> {
    if |starts| < 2 then
      []
    else
      var n := |starts| - 1;
      Reports(text, starts[..n], keywords, isIdentifierPart)
      + ReportsOf(text, n - 1, starts[n - 1], starts[n], keywords, isIdentifierPart)
  }

  /** Errors with their tokens. */
  function Attributed(owners: seq<nat>, errors: seq<LexerError>): (r: seq<LexError>)
    requires |owners| == |errors|
    ensures |r| == |errors| && forall k :: 0 <= k < |r| ==> r[k] == LexError(owners[k], errors[k].pos, errors[k].len)
  {
    seq(|errors|, k requires 0 <= k < |errors| => LexError(owners[k], errors[k].pos, errors[k].len))
  }

  /** The errors of the next token are what is to be reported for it. */
  lemma NextReports(text: string, owners: seq<nat>, errors: seq<LexerError>, starts: seq<nat>, rest: string, pos: nat, len: nat,
                    owners': seq<nat>, errors': seq<LexerError>, keywords: Keywords, isIdentifierPart: char -> bool)
    requires |owners| == |errors| && Attributed(owners, errors) == Reports(text, starts + [pos], keywords, isIdentifierPart)
    requires IsSuffix(text, rest, pos) && Logical(rest) != ""
    requires var found := ErrorsOf(FaultOf(Logical(rest), IsKeywordOf(keywords), isIdentifierPart), pos, len);
             && errors' == errors + found && owners' == owners + seq(|found|, _ => |starts|)
    ensures Attributed(owners', errors') == Reports(text, starts + [pos] + [pos + len], keywords, isIdentifierPart)
  {
    hide Logical, FaultOf, ErrorsOf, IsSuffix, TextFrom, Reports;
    TextFromSuffix(text, rest, pos);
    var all := starts + [pos] + [pos + len];
    assert all[..|all| - 1] == starts + [pos];
    ReportsLast(text, all, keywords, isIdentifierPart);
    var found := errors'[|errors|..];
    assert Attributed(owners', errors') == Attributed(owners, errors) + ReportedFor(|starts|, found);
  }

  lemma ReportsLast(text: string, starts: seq<nat>, keywords: Keywords, isIdentifierPart: char -> bool)
    requires 2 <= |starts|
    ensures var n := |starts| - 1;
            Reports(text, starts, keywords, isIdentifierPart)
            == Reports(text, starts[..n], keywords, isIdentifierPart)
               + ReportsOf(text, n - 1, starts[n - 1], starts[n], keywords, isIdentifierPart)
  {
    hide ReportsOf;
  }

  lemma NoReports(text: string, pos: nat, keywords: Keywords, isIdentifierPart: char -> bool)
    ensures Attributed([], []) == Reports(text, [] + [pos], keywords, isIdentifierPart)
  {
  }

  function KindsIn(l: string, keywords: Keywords): seq<SyntaxKind> {
    KindsOf(ScanAll(l, IsKeywordOf(keywords)), keywords)
  }

  /** The tokens found so far and the text that is left. */
  ghost predicate Progress(text: string, keywords: Keywords, kinds: seq<SyntaxKind>, starts: seq<nat>,
                           rest: string, pos: nat) {
    && IsSuffix(text, rest, pos)
    && |starts| == |kinds|
    && Ascending(text, starts + [pos]) && (starts + [pos])[0] == 0
    && KindsIn(Logical(text), keywords) == kinds + KindsIn(Logical(rest), keywords)
  }

  lemma FirstProgress(text: string, keywords: Keywords)
    requires IsSuffix(text, text, 0)
    ensures Progress(text, keywords, [], [], text, 0)
  {
    hide KindsIn, Logical;
    AscendingSnoc(text, [], 0);
  }

  lemma NextKind(l: string, keywords: Keywords)
    requires l != ""
    ensures var s := ScanToken(l, IsKeywordOf(keywords));
            KindsIn(l, keywords) == [KindOf(s.kind, keywords)] + KindsIn(s.rest, keywords)
  {
    hide ScanToken, KindOf;
  }

  lemma NextProgress(text: string, keywords: Keywords, kinds: seq<SyntaxKind>, starts: seq<nat>,
                     rest: string, pos: nat, kind: TokenKind, len: nat, rest': string)
    requires Progress(text, keywords, kinds, starts, rest, pos) && rest != "" && 0 < len
    requires IsSuffix(text, rest', pos + len)
    requires Scan(kind, Logical(rest')) == ScanToken(Logical(rest), IsKeywordOf(keywords))
    ensures Progress(text, keywords, kinds + [KindOf(kind, keywords)], starts + [pos], rest', pos + len)
    ensures pos < Utf8.ByteLen(text)
  {
    hide KindsIn, Logical, ScanToken, KindOf, IsSuffix;
    NextKind(Logical(rest), keywords);
    SuffixBoundary(text, rest', pos + len);
    AscendingSnoc(text, starts + [pos], pos + len);
    assert kinds + ([KindOf(kind, keywords)] + KindsIn(Logical(rest'), keywords))
        == kinds + [KindOf(kind, keywords)] + KindsIn(Logical(rest'), keywords);
  }

  /** The errors found while the last token was read begin in it. */
  lemma NextOwners(owners: seq<nat>, errors: seq<LexerError>, errors': seq<LexerError>,
                   starts: seq<nat>, pos: nat, pos': nat) returns (owners': seq<nat>)
    requires AreOwners(owners, errors, starts + [pos]) && errors <= errors'
    requires forall k :: |errors| <= k < |errors'| ==> pos <= errors'[k].pos < pos'
    ensures AreOwners(owners', errors', starts + [pos] + [pos'])
    ensures owners' == owners + seq(|errors'| - |errors|, _ => |starts|)
  {
    owners' := owners + seq(|errors'| - |errors|, _ => |starts|);
    forall k | 0 <= k < |owners'|
      ensures BeginsIn(errors'[k], starts + [pos] + [pos'], owners'[k])
    {
      if k < |owners| {
        assert BeginsIn(errors[k], starts + [pos], owners[k]);
        assert forall i :: 0 <= i <= |starts| ==> (starts + [pos] + [pos'])[i] == (starts + [pos])[i];
      }
    }
    forall i, j | 0 <= i < j < |owners'|
      ensures owners'[i] <= owners'[j]
    {
      if i < |owners| {
        assert BeginsIn(errors[i], starts + [pos], owners[i]);
      }
    }
  }

  lemma ProgressIsSuffix(text: string, keywords: Keywords, kinds: seq<SyntaxKind>, starts: seq<nat>, rest: string, pos: nat)
    requires Progress(text, keywords, kinds, starts, rest, pos)
    ensures IsSuffix(text, rest, pos)
  {
  }

  lemma FinishedTokens(text: string, keywords: Keywords, kinds: seq<SyntaxKind>, starts: seq<nat>, pos: nat)
    requires Progress(text, keywords, kinds, starts, "", pos)
    ensures LexedStr(text, kinds + [EOF], starts + [pos]).Valid()
    ensures pos == Utf8.ByteLen(text) && kinds == KindsIn(Logical(text), keywords)
  {
    hide Ascending, ScanToken;
    SuffixBoundary(text, "", pos);
  }

  /** The tokens of a text, before errors are attributed to them. */
  method Convert(text: string, keywords: Keywords, isIdentifierPart: char -> bool)
    returns (lx: LexedStr, lexer: Lexer, ghost owners: seq<nat>)
    requires Utf8.ByteLen(text) < MAX_TEXT
    ensures lx.Valid() && lx.text == text
    ensures lx.kinds == KindsIn(Logical(text), keywords) + [EOF]
    ensures AreOwners(owners, lexer.errors, lx.starts)
    ensures Attributed(owners, lexer.errors) == Reports(text, lx.starts, keywords, isIdentifierPart)
    ensures forall i :: 0 <= i < |lexer.errors| ==> IsCovered(lexer.errors[i], Utf8.ByteLen(text))
  {
    hide *;
    var conv := new Converter(text);
    lexer := new Lexer(text, IsKeywordOf(keywords), isIdentifierPart);
    lexer.CharsAreSuffix();
    FirstProgress(text, keywords);
    owners := [];
    NoOwners(conv.starts + [lexer.pos]);
    NoReports(text, lexer.pos, keywords, isIdentifierPart);
    while true
      invariant fresh(lexer) && fresh(conv)
      invariant lexer.Valid() && lexer.ErrorsValid() && lexer.content == text
      invariant lexer.isIdentifierPart == isIdentifierPart
      invariant |owners| == |lexer.errors|
      invariant Attributed(owners, lexer.errors) == Reports(text, conv.starts + [lexer.pos], keywords, isIdentifierPart)
      invariant lexer.isKeyword == IsKeywordOf(keywords) && conv.text == text && conv.offset == lexer.pos
      invariant Progress(text, keywords, conv.kinds, conv.starts, lexer.chars, lexer.pos)
      invariant AreOwners(owners, lexer.errors, conv.starts + [lexer.pos])
      decreases |Logical(lexer.chars)|
    {
      ghost var rest, pos, kinds, starts, errors := lexer.chars, lexer.pos, conv.kinds, conv.starts, lexer.errors;
      var token := lexer.Next();
      lexer.CharsAreSuffix();
      lexer.ErrorFacts();
      if token == None {
        break;
      }
      NextProgress(text, keywords, kinds, starts, rest, pos, token.value.kind, token.value.len, lexer.chars);
      ghost var before := owners;
      owners := NextOwners(owners, errors, lexer.errors, starts, pos, lexer.pos);
      ProgressIsSuffix(text, keywords, kinds, starts, rest, pos);
      NextReports(text, before, errors, starts, rest, pos, token.value.len, owners, lexer.errors, keywords, isIdentifierPart);
      SmallOffset(pos, Utf8.ByteLen(text));
      conv.Push(KindOf(token.value.kind, keywords), token.value.len);
    }
    FinishedTokens(text, keywords, conv.kinds, conv.starts, lexer.pos);
    SmallOffset(lexer.pos, Utf8.ByteLen(text));
    lx := conv.FinalizeWithEof();
  }

  lemma NoOwners(starts: seq<nat>)
    ensures AreOwners([], [], starts)
  {
  }

  lemma SmallOffset(pos: nat, total: nat)
    requires pos <= total < MAX_TEXT
    ensures pos % MAX_TEXT == pos
  {
  }

  /** Every error of every token is reported once, for its token. The errors are found in the order of
      their tokens, so sorting them changes nothing. */
  method NewLexedStr(text: string, keywords: Keywords, isIdentifierPart: char -> bool)
    returns (lx: LexedStr, errors: seq<LexError>)
    requires Utf8.ByteLen(text) < MAX_TEXT
    ensures lx.Valid() && lx.text == text
    ensures lx.kinds == KindsIn(Logical(text), keywords) + [EOF]
    ensures errors == Reports(text, lx.starts, keywords, isIdentifierPart)
    ensures forall e :: e in errors ==>
        && e.token < lx.Len() && 0 < e.len && e.pos + e.len <= Utf8.ByteLen(text)
        && lx.starts[e.token] <= e.pos < lx.starts[e.token + 1]
    ensures forall i, j :: 0 <= i < j < |errors| ==> errors[i].token <= errors[j].token
  {
    hide Ascending, KindsIn, Reports;
    var lexer;
    ghost var owners;
    lx, lexer, owners := Convert(text, keywords, isIdentifierPart);
    var found := lexer.errors;
    errors := [];
    for k := 0 to |found|
      invariant |errors| == k
      invariant forall i :: 0 <= i < k ==> errors[i] == LexError(owners[i], found[i].pos, found[i].len)
    {
      var e := found[k];
      assert BeginsIn(e, lx.starts, owners[k]);
      ErrorIsAttributed(lx, owners[k], e.pos, e.len);
      errors := errors + [LexError(TokenAtError(lx, e.pos, e.len), e.pos, e.len)];
    }
    forall e | e in errors
      ensures e.token < lx.Len() && lx.starts[e.token] <= e.pos < lx.starts[e.token + 1]
    {
      var k :| 0 <= k < |errors| && errors[k] == e;
      assert BeginsIn(found[k], lx.starts, owners[k]);
    }
  }
}
