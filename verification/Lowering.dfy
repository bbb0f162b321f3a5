/** Syntax trees, and the tables by which they are formatted (fpp_format/src/formatter.rs). */
module Lowering {
  import opened Wrappers
  import opened Docs

  datatype TokenKind =
    | Whitespace | Eol | Comma | Semi
    | LeftCurly | LeftParen | LeftSquare | RightCurly | RightParen | RightSquare
    | Comment | PreAnnotation | PostAnnotation
    | OtherToken(kind: nat)

  /** `at` tells tokens and nodes apart; what the formatter looks up around them depends on it. */
  datatype Tree = Node(kind: nat, children: seq<Tree>, at: nat) | Token(tokenKind: TokenKind, text: string, at: nat)

  datatype ListMode = Always | Auto

  datatype CloseStyle = Dedent | Trail

  datatype ListCfg = ListCfg(open: FlatText, close: FlatText, mode: ListMode, closeStyle: CloseStyle)

  /** The tables of the formatter, by kinds of nodes and tokens. */
  datatype Style = Style(
    isMemberList: nat -> bool,
    isChoice: nat -> bool,
    isExplodable: nat -> bool,
    isClauseNode: nat -> bool,
    isClauseKeyword: (nat, TokenKind) -> bool,
    listCfg: nat -> ListCfg,
    preservesEdgeBlanks: nat -> bool,
    anchor: (nat, TokenKind) -> Option<AnchorKind>,
    isEolSeparated: nat -> bool,
    flatSep: (Tree, Tree) -> string)

  predicate IsBlank(s: string) {
    forall i :: 0 <= i < |s| ==> s[i] == ' '
  }

  predicate IsDelimiter(s: string) {
    s in ["(", ")", "[", "]", "{", "}"]
  }

  ghost predicate IsStyle(style: Style) {
    && (forall p, t :: IsBlank(style.flatSep(p, t)))
    && forall kind :: IsDelimiter(style.listCfg(kind).open) && IsDelimiter(style.listCfg(kind).close)
  }

  predicate IsTrivia(kind: TokenKind) {
    kind.Whitespace? || kind.Eol?
  }

  /** Whether a token takes up the rest of its line. */
  predicate IsLineSwallowing(kind: TokenKind) {
    kind.Comment? || kind.PreAnnotation? || kind.PostAnnotation?
  }

  predicate IsOpening(kind: TokenKind) {
    kind.LeftCurly? || kind.LeftParen? || kind.LeftSquare?
  }

  predicate IsClosing(kind: TokenKind) {
    kind.RightCurly? || kind.RightParen? || kind.RightSquare?
  }

  // ---- What is printed ------------------------------------------------------------------------

  /** Two delimiters in one text: an empty list. */
  predicate IsPair(s: string) {
    |s| == 2 && IsDelimiter(s[..1]) && IsDelimiter(s[1..])
  }

  /** The words that a text adds to the program: none if it is blank. */
  function Words(s: string): seq<string> {
    if s == "" then []
    else if s[0] == ' ' then Words(s[1..])
    else if IsPair(s) then [s[..1], s[1..]]
    else [s]
  }

  // ---- What is swallowed ------------------------------------------------------------------------

  /** A line of the output: without a comment so far, with one, or with a text after one. */
  datatype LineState = Clear | Commented | Swallowed

  predicate Swallows(s: string) {
    s != "" && (s[0] == '#' || s[0] == '@')
  }

  function TextState(s: string, st: LineState): LineState {
    if IsBlank(s) || st.Swallowed? then st
    else if st.Commented? then Swallowed
    else if Swallows(s) then Commented
    else Clear
  }

  // ---- Tokens of a tree ----------------------------------------------------------------------------

  function FirstToken(t: Tree): Option<Tree>
    decreases t, 0
  {
    match t
    case Token(kind, _, _) => if IsTrivia(kind) then None else Some(t)
    case Node(_, children, _) => FirstTokenIn(children)
  }

  function FirstTokenIn(ts: seq<Tree>): Option<Tree>
    decreases ts
  {
    if ts == [] then
      None
    else
      var first := FirstTokenIn(ts[..|ts| - 1]);
      if first.Some? then first else FirstToken(ts[|ts| - 1])
  }

  function LastToken(t: Tree): Option<Tree>
    decreases t, 0
  {
    match t
    case Token(kind, _, _) => if IsTrivia(kind) then None else Some(t)
    case Node(_, children, _) => LastTokenIn(children)
  }

  function LastTokenIn(ts: seq<Tree>): Option<Tree>
    decreases ts
  {
    if ts == [] then
      None
    else
      var last := LastToken(ts[|ts| - 1]);
      if last.Some? then last else LastTokenIn(ts[..|ts| - 1])
  }

  lemma TokensSnoc(ts: seq<Tree>, t: Tree)
    ensures LastTokenIn(ts + [t]) == if LastToken(t).Some? then LastToken(t) else LastTokenIn(ts)
    ensures FirstTokenIn(ts + [t]) == if FirstTokenIn(ts).Some? then FirstTokenIn(ts) else FirstToken(t)
    ensures LastTokenIn([]) == None && FirstTokenIn([]) == None
  {
    hide LastToken, FirstToken;
    assert (ts + [t])[..|ts|] == ts;
  }

  lemma {:induction false} FirstMeansLast(t: Tree)
    ensures FirstToken(t).Some? <==> LastToken(t).Some?
    ensures LastToken(t).Some? ==> LastToken(t).value.Token? && !IsTrivia(LastToken(t).value.tokenKind)
    decreases t, 0
  {
    if t.Node? {
      FirstMeansLastIn(t.children);
    }
  }

  lemma {:induction false} FirstMeansLastIn(ts: seq<Tree>)
    ensures FirstTokenIn(ts).Some? <==> LastTokenIn(ts).Some?
    ensures LastTokenIn(ts).Some? ==> LastTokenIn(ts).value.Token? && !IsTrivia(LastTokenIn(ts).value.tokenKind)
    decreases ts
  {
    if ts != [] {
      FirstMeansLastIn(ts[..|ts| - 1]);
      FirstMeansLast(ts[|ts| - 1]);
    }
  }

  /** Whether the last token, if any, takes up the rest of its line. */
  predicate EndsInComment(last: Option<Tree>) {
    last.Some? && last.value.Token? && IsLineSwallowing(last.value.tokenKind)
  }
}
