/** What the formatter prints of a tree (fpp_format/src/formatter.rs). */
module TreeFlows {
  import opened Wrappers
  import opened Docs
  import opened Flows
  import opened Lowering

  const BREAK := Gap(None, false, 0)

  // ---- Separators and tokens --------------------------------------------------------------

  /** Between two tokens: a break behind a comment or annotation, and else the flat separator. */
  function SepFlow(style: Style, prev: Option<Tree>, cur: Option<Tree>): seq<Bit> {
    if prev.None? || cur.None? then []
    else if EndsInComment(prev) then [BREAK]
    else [Word(style.flatSep(prev.value, cur.value))]
  }

  function TokenFlow(style: Style, parent: nat, t: Tree): seq<Bit>
    requires t.Token?
  {
    var anchor := style.anchor(parent, t.tokenKind);
    (if anchor.Some? then [Mark(anchor.value, 0)] else []) + [Word(t.text)]
  }

  predicate IsTriviaToken(t: Tree) {
    t.Token? && IsTrivia(t.tokenKind)
  }

  // ---- Nodes ------------------------------------------------------------------------------

  function FlowOf(style: Style, n: Tree): seq<Bit>
    requires n.Node?
    decreases n, 0
  {
    if style.isMemberList(n.kind) then ListFlow(style, n.kind, n.children)
    else if style.isChoice(n.kind) then ChoiceFlow(style, n.children)
    else if style.isExplodable(n.kind) then SpecFlow(style, n.kind, n.children)
    else RowFlow(style, n.kind, n.children)
  }

  function ChildFlow(style: Style, parent: nat, t: Tree): seq<Bit>
    decreases t, 1
  {
    if t.Token? then TokenFlow(style, parent, t) else FlowOf(style, t)
  }

  /** An inline node: its children after their separators, and a comma behind an element that only an
      end of line sets apart. */
  function RowFlow(style: Style, kind: nat, ts: seq<Tree>): seq<Bit>
    decreases ts, 2
  {
    if ts == [] then
      []
    else
      var init, t := ts[..|ts| - 1], ts[|ts| - 1];
      RowFlow(style, kind, init)
      + if IsTriviaToken(t) then [] else
          SepFlow(style, LastTokenIn(init), FirstToken(t)) + ChildFlow(style, kind, t) + CommaFlow(style, t)
  }

  function CommaFlow(style: Style, t: Tree): seq<Bit> {
    if t.Node? && style.isEolSeparated(t.at) then [Word(",")] else []
  }

  // ---- Specifiers -------------------------------------------------------------------------

  predicate StartsClause(style: Style, parent: nat, t: Tree) {
    match t
    case Token(kind, _, _) => !IsTrivia(kind) && style.isClauseKeyword(parent, kind)
    case Node(kind, _, _) => style.isClauseNode(kind)
  }

  predicate HasClause(style: Style, kind: nat, ts: seq<Tree>) {
    exists i :: 0 <= i < |ts| && StartsClause(style, kind, ts[i])
  }

  /** A specifier is a group; each clause is on a continued line, indented, unless the group is flat. */
  function SpecFlow(style: Style, kind: nat, ts: seq<Tree>): seq<Bit>
    decreases ts, 3
  {
    if HasClause(style, kind, ts) then [Enter] + SpecRow(style, kind, ts) + [Leave] else SpecRow(style, kind, ts)
  }

  function SpecRow(style: Style, kind: nat, ts: seq<Tree>): seq<Bit>
    decreases ts, 2
  {
    if ts == [] then
      []
    else
      var init, t := ts[..|ts| - 1], ts[|ts| - 1];
      SpecRow(style, kind, init)
      + if IsTriviaToken(t) then []
        else if StartsClause(style, kind, t) then Shift([Gap(Some(" "), true, 0)] + ChildFlow(style, kind, t), 1)
        else
          Shift(SepFlow(style, LastTokenIn(init), FirstToken(t)) + ChildFlow(style, kind, t),
                if HasClause(style, kind, init) then 1 else 0)
  }

  // ---- Choices ----------------------------------------------------------------------------

  predicate IsLeftCurly(t: Tree) {
    t.Token? && t.tokenKind.LeftCurly?
  }

  predicate IsCurly(t: Tree) {
    t.Token? && (t.tokenKind.LeftCurly? || t.tokenKind.RightCurly?)
  }

  predicate HasLeftCurly(ts: seq<Tree>) {
    exists i :: 0 <= i < |ts| && IsLeftCurly(ts[i])
  }

  /** The last token since the opening brace. */
  function PrevInChoice(ts: seq<Tree>): Option<Tree> {
    if ts == [] || IsLeftCurly(ts[|ts| - 1]) then
      None
    else
      var t := ts[|ts| - 1];
      if IsCurly(t) || LastToken(t).None? then PrevInChoice(ts[..|ts| - 1]) else LastToken(t)
  }

  function PlainFlow(style: Style, t: Tree): seq<Bit>
    decreases t, 1
  {
    if t.Token? then [Word(t.text)] else FlowOf(style, t)
  }

  /** The children in front of the opening brace, or behind it. */
  function ChoicePart(style: Style, ts: seq<Tree>, inBody: bool): seq<Bit>
    decreases ts, 2
  {
    if ts == [] then
      []
    else
      var init, t := ts[..|ts| - 1], ts[|ts| - 1];
      ChoicePart(style, init, inBody)
      + if IsTriviaToken(t) || IsCurly(t) || HasLeftCurly(init) != inBody then [] else
          SepFlow(style, PrevInChoice(init), FirstToken(t)) + PlainFlow(style, t)
  }

  /** The head, and the body as an indented group between braces. */
  function ChoiceFlow(style: Style, ts: seq<Tree>): seq<Bit>
    decreases ts, 3
  {
    ChoicePart(style, ts, false) + [Word(" {")]
    + Shift([BREAK] + ([Enter] + ChoicePart(style, ts, true) + [Leave]), 1) + [BREAK] + [Word("}")]
  }

  // ---- Member lists -----------------------------------------------------------------------

  predicate IsBracket(t: Tree) {
    t.Token? && (IsOpening(t.tokenKind) || IsClosing(t.tokenKind))
  }

  predicate IsSeparator(t: Tree) {
    t.Token? && (t.tokenKind.Comma? || t.tokenKind.Semi?)
  }

  predicate IsKept(t: Tree) {
    !IsTriviaToken(t) && !IsSeparator(t) && !IsBracket(t)
  }

  /** The last child that is printed as a member or behind one. */
  function LastKept(ts: seq<Tree>): Option<Tree> {
    if ts == [] then None else if IsKept(ts[|ts| - 1]) then Some(ts[|ts| - 1]) else LastKept(ts[..|ts| - 1])
  }

  predicate IsSwallowing(t: Tree) {
    t.Token? && IsLineSwallowing(t.tokenKind)
  }

  /** Whether a line has ended since the last member. */
  predicate SawEol(ts: seq<Tree>) {
    ts != [] && !IsKept(ts[|ts| - 1]) && ((ts[|ts| - 1].Token? && ts[|ts| - 1].tokenKind.Eol?) || SawEol(ts[..|ts| - 1]))
  }

  /** The newlines since the last member. */
  function NewlinesSince(ts: seq<Tree>): nat {
    if ts == [] || IsKept(ts[|ts| - 1]) then
      0
    else
      var t := ts[|ts| - 1];
      NewlinesSince(ts[..|ts| - 1]) + if t.Token? && t.tokenKind.Eol? then CountNewlines(t.text) else 0
  }

  /** Whether there was a member or an opening delimiter. */
  predicate HasStarted(ts: seq<Tree>) {
    exists i :: 0 <= i < |ts| && (IsKept(ts[i]) || (ts[i].Token? && IsOpening(ts[i].tokenKind)))
  }

  /** Whether there was a blank line since the last member. */
  predicate HasBlank(ts: seq<Tree>) {
    && ts != [] && !IsKept(ts[|ts| - 1])
    && (|| HasBlank(ts[..|ts| - 1])
        || (ts[|ts| - 1].Token? && ts[|ts| - 1].tokenKind.Eol? && HasStarted(ts[..|ts| - 1]) && 2 <= NewlinesSince(ts)))
  }

  /** Whether a child begins a new member: a comment does only on a line of its own, an annotation
      behind a member does not. */
  predicate StartsMember(ts: seq<Tree>, t: Tree) {
    IsKept(t)
    && (|| LastKept(ts).None? || t.Node? || !IsLineSwallowing(t.tokenKind) || t.tokenKind.PreAnnotation?
        || (t.tokenKind.Comment? && SawEol(ts)))
  }

  /** What sets two members apart: lines of their own in a block, and else a comma that may be one. */
  function MemberSep(block: bool, blank: bool): seq<Bit> {
    if !block then [Gap(Some(", "), false, 0)] else if blank then [BREAK, BREAK] else [BREAK]
  }

  /** Behind the last member: on its line, or below it if that ends in a comment. */
  function AttachedFlow(last: Option<Tree>, t: Tree): seq<Bit>
    requires t.Token?
  {
    (if last.Some? && IsSwallowing(last.value) then [BREAK] else [Word(if t.tokenKind.PostAnnotation? then "  " else " ")])
    + (if t.tokenKind.PostAnnotation? then [Mark(AnchorKind.PostAnnotation, 0)] else []) + [Word(t.text)]
  }

  function MembersFlow(style: Style, block: bool, ts: seq<Tree>): seq<Bit>
    decreases ts, 2
  {
    if ts == [] then
      []
    else
      var init, t := ts[..|ts| - 1], ts[|ts| - 1];
      MembersFlow(style, block, init)
      + if !IsKept(t) then []
        else if StartsMember(init, t) then
          (if LastKept(init).None? then [] else MemberSep(block, HasBlank(init))) + PlainFlow(style, t)
        else AttachedFlow(LastKept(init), t)
  }

  predicate HasSwallowing(ts: seq<Tree>) {
    exists i :: 0 <= i < |ts| && IsSwallowing(ts[i])
  }

  /** Whether a list must be a block: always, or because of a comment in it. */
  predicate MustBeBlock(style: Style, kind: nat, ts: seq<Tree>) {
    style.listCfg(kind).mode.Always? || HasSwallowing(ts)
  }

  /** Whether there is a blank line before the first member. */
  predicate LeadsWithBlank(ts: seq<Tree>) {
    && ts != []
    && if IsKept(ts[|ts| - 1]) && LastKept(ts[..|ts| - 1]).None? then HasBlank(ts[..|ts| - 1])
       else LeadsWithBlank(ts[..|ts| - 1])
  }

  /** Whether there is a blank line before the closing delimiter. */
  predicate TrailsWithBlank(ts: seq<Tree>) {
    exists i :: 0 <= i < |ts| && ts[i].Token? && IsClosing(ts[i].tokenKind) && HasStarted(ts[..i]) && 2 <= NewlinesSince(ts[..i])
  }

  function Breaks(blank: bool): seq<Bit> {
    if blank then [BREAK, BREAK] else [BREAK]
  }

  function PadOf(cfg: ListCfg): FlatText {
    if cfg.open == "{" then " " else ""
  }

  /** A list between its delimiters: as a block, with its members on lines of their own, or as a group. */
  function ListFlow(style: Style, kind: nat, ts: seq<Tree>): seq<Bit>
    decreases ts, 3
  {
    var cfg, keeps := style.listCfg(kind), style.preservesEdgeBlanks(kind);
    if LastKept(ts).None? then
      if cfg.mode.Always? then [Word(cfg.open)] + Breaks(keeps && TrailsWithBlank(ts)) + [Word(cfg.close)]
      else [Word(cfg.open + cfg.close)]
    else if MustBeBlock(style, kind, ts) then
      [Word(cfg.open)] + Shift(Breaks(keeps && LeadsWithBlank(ts)) + MembersFlow(style, true, ts), 1)
      + Breaks(keeps && TrailsWithBlank(ts)) + [Word(cfg.close)]
    else
      [Enter]
      + ([Word(cfg.open)] + Shift([Gap(Some(PadOf(cfg)), false, 0)] + MembersFlow(style, false, ts), 1)
         + [Gap(Some(if cfg.closeStyle.Dedent? then PadOf(cfg) else ""), false, 0)] + [Word(cfg.close)])
      + [Leave]
  }

  lemma MembersSnoc(style: Style, block: bool, ts: seq<Tree>, t: Tree)
    ensures MembersFlow(style, block, ts + [t])
         == MembersFlow(style, block, ts)
            + if !IsKept(t) then []
              else if StartsMember(ts, t) then
                (if LastKept(ts).None? then [] else MemberSep(block, HasBlank(ts))) + PlainFlow(style, t)
              else AttachedFlow(LastKept(ts), t)
    ensures LastKept(ts + [t]) == if IsKept(t) then Some(t) else LastKept(ts)
    ensures LeadsWithBlank(ts + [t]) <==> if IsKept(t) && LastKept(ts).None? then HasBlank(ts) else LeadsWithBlank(ts)
    ensures forall bits: seq<Bit> :: bits + [] == bits
  {
    hide FlowOf, IsKept, StartsMember, PlainFlow, AttachedFlow, MemberSep, HasBlank;
    assert (ts + [t])[..|ts|] == ts;
  }
}
