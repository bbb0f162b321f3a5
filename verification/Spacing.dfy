/** What stands between two tokens on a line (fpp_format/src/formatter.rs:625-715). */
module Spacings {
  import opened Docs
  import opened Syntax
  import opened Lowering

  predicate IsWordChar(c: char) {
    'a' <= c <= 'z' || 'A' <= c <= 'Z' || '0' <= c <= '9' || c == '_'
  }

  predicate IsDecimal(s: string) {
    s != "" && forall i :: 0 <= i < |s| ==> '0' <= s[i] <= '9'
  }

  /** Whether the second text must not follow the first at once: two words would be one, and a number
      with a dot would be another number. */
  predicate Clings(a: string, b: string) {
    a != "" && b != "" && ((IsWordChar(a[|a| - 1]) && IsWordChar(b[0])) || (IsDecimal(a) && b[0] == '.'))
  }

  /** What the tables look up around a token. */
  datatype Place = Place(isAbsoluteNameDot: bool, isEnumColon: bool, isSubscriptBracket: bool, isUnary: bool)

  predicate IsHexLiteral(text: string) {
    2 <= |text| && text[0] == '0' && (text[1] == 'x' || text[1] == 'X')
  }

  predicate IsKind(t: Tree, kind: SyntaxKind) {
    t.Token? && t.tokenKind == OtherToken(kind)
  }

  /** A token that stands at once behind the one before it. */
  predicate IsTight(t: Tree) {
    IsKind(t, COLON) || (t.Token? && (t.tokenKind.Comma? || t.tokenKind.Semi? || t.tokenKind.RightParen? || t.tokenKind.RightSquare?))
  }

  predicate IsCallable(t: Tree) {
    IsKind(t, IDENT) || IsKind(t, SIZEOF_KW) || (t.Token? && (t.tokenKind.RightParen? || t.tokenKind.RightSquare?))
  }

  /** `flat_sep` */
  function FlatSep(place: nat -> Place, prev: Tree, cur: Tree): FlatText {
    if cur.Token? && cur.tokenKind.PostAnnotation? then "  "
    else if IsKind(cur, DOT) && IsKind(prev, LITERAL_INT) && !IsHexLiteral(prev.text) then " "
    else if IsKind(prev, DOT) || (IsKind(cur, DOT) && !place(cur.at).isAbsoluteNameDot) then ""
    else if IsKind(cur, COLON) && place(cur.at).isEnumColon then " "
    else if IsTight(cur) then ""
    else if cur.Token? && cur.tokenKind.LeftSquare? && place(cur.at).isSubscriptBracket then ""
    else if prev.Token? && (prev.tokenKind.LeftParen? || prev.tokenKind.LeftSquare?) then ""
    else if (IsKind(prev, MINUS) || IsKind(prev, PLUS)) && place(prev.at).isUnary then ""
    else if cur.Token? && cur.tokenKind.LeftParen? && IsCallable(prev) then ""
    else " "
  }

  /** What is known of the text of a token from its kind. */
  predicate IsSpelled(kind: TokenKind, text: string) {
    match kind
    case Whitespace => true
    case Eol => true
    case Comma => text == ","
    case Semi => text == ";"
    case LeftCurly => text == "{"
    case LeftParen => text == "("
    case LeftSquare => text == "["
    case RightCurly => text == "}"
    case RightParen => text == ")"
    case RightSquare => text == "]"
    case OtherToken(k) =>
      && (k == DOT ==> text == ".") && (k == COLON ==> text == ":") && (k == MINUS ==> text == "-") && (k == PLUS ==> text == "+")
      && (IsDecimal(text) ==> k == LITERAL_INT)
    case _ => !IsDecimal(text)
  }

  /** Whether texts that would cling are set apart. */
  ghost predicate IsSpacing(style: Style) {
    forall prev: Tree, cur: Tree ::
      prev.Token? && cur.Token? && IsSpelled(prev.tokenKind, prev.text) && IsSpelled(cur.tokenKind, cur.text)
      && !IsTrivia(prev.tokenKind) && !IsTrivia(cur.tokenKind) && Clings(prev.text, cur.text) ==>
        style.flatSep(prev, cur) != ""
  }

  /** The formatter's spacing sets apart what would cling. */
  lemma FlatSepIsSpacing(style: Style, place: nat -> Place)
    requires forall prev, cur :: style.flatSep(prev, cur) == FlatSep(place, prev, cur)
    ensures IsSpacing(style) && forall prev, cur :: IsBlank(style.flatSep(prev, cur))
  {
    forall prev: Tree, cur: Tree
      ensures prev.Token? && cur.Token? && IsSpelled(prev.tokenKind, prev.text) && IsSpelled(cur.tokenKind, cur.text)
              && !IsTrivia(prev.tokenKind) && !IsTrivia(cur.tokenKind) && Clings(prev.text, cur.text) ==>
                style.flatSep(prev, cur) != ""
    {
      if prev.Token? && cur.Token? && IsSpelled(prev.tokenKind, prev.text) && IsSpelled(cur.tokenKind, cur.text)
         && !IsTrivia(prev.tokenKind) && !IsTrivia(cur.tokenKind) {
        SpacingAt(place, prev, cur);
      }
    }
  }

  lemma SpacingAt(place: nat -> Place, prev: Tree, cur: Tree)
    requires prev.Token? && cur.Token? && IsSpelled(prev.tokenKind, prev.text) && IsSpelled(cur.tokenKind, cur.text)
    requires !IsTrivia(prev.tokenKind) && !IsTrivia(cur.tokenKind)
    ensures Clings(prev.text, cur.text) ==> FlatSep(place, prev, cur) != ""
  {
  }
}
