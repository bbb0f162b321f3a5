/** What the printed tree keeps (fpp_format/src/formatter.rs). */
module FormatLaws {
  import opened Wrappers
  import opened Docs
  import opened Flows
  import opened Lowering
  import opened Spacings
  import opened TreeFlows

  // ---- Well-formed trees ------------------------------------------------------------------------

  /** What the lexer promises of a token. */
  ghost predicate IsLexed(kind: TokenKind, text: string) {
    IsTrivia(kind)
    || (&& !IsBlank(text) && text[0] != ' ' && !IsPair(text)
        && (IsLineSwallowing(kind) <==> Swallows(text)) && IsSpelled(kind, text))
  }

  /** The delimiters of a list: the first and last of its tokens, and no others. */
  ghost predicate IsDelimited(children: seq<Tree>, cfg: ListCfg, i: nat, j: nat) {
    && i < j < |children|
    && children[i].Token? && IsOpening(children[i].tokenKind) && children[i].text == cfg.open
    && children[j].Token? && IsClosing(children[j].tokenKind) && children[j].text == cfg.close
    && (forall k :: 0 <= k < |children| && !(i <= k <= j) ==> IsTriviaToken(children[k]))
    && forall k :: i < k < j ==> !IsBracket(children[k])
  }

  /** The braces around the body of a choice. The first one follows the name at once: a comment
      in between is a token of its own, with which the choice does not parse. */
  ghost predicate IsBraced(children: seq<Tree>, i: nat, j: nat) {
    && i < j < |children|
    && children[i].Token? && children[i].tokenKind.LeftCurly?
    && children[j].Token? && children[j].tokenKind.RightCurly?
    && (forall k :: j < k < |children| ==> IsTriviaToken(children[k]))
    && (forall k :: 0 <= k < |children| && k != i && k != j ==> !IsCurly(children[k]))
    && !EndsInComment(LastTokenIn(children[..i]))
  }

  predicate IsInline(style: Style, kind: nat) {
    !style.isMemberList(kind) && !style.isChoice(kind) && !style.isExplodable(kind)
  }

  /** Trees as the parser builds them from texts without errors. */
  ghost predicate IsFormed(style: Style, t: Tree)
    decreases t, 0
  {
    match t
    case Token(kind, text, _) => IsLexed(kind, text)
    case Node(kind, children, at) =>
      && AreFormed(style, children)
      && (style.isMemberList(kind) ==> exists i, j :: IsDelimited(children, style.listCfg(kind), i, j))
      && (!style.isMemberList(kind) && style.isChoice(kind) ==> exists i, j :: IsBraced(children, i, j))
      && (style.isExplodable(kind) || style.isEolSeparated(at) ==> FirstTokenIn(children).Some?)
  }

  ghost predicate AreFormed(style: Style, ts: seq<Tree>)
    decreases ts
  {
    ts != [] ==> AreFormed(style, ts[..|ts| - 1]) && IsFormed(style, ts[|ts| - 1])
  }

  /** Whether no child node ends in a comment. */
  ghost predicate AreClosed(ts: seq<Tree>) {
    forall k :: 0 <= k < |ts| && ts[k].Node? ==> !EndsInComment(LastToken(ts[k]))
  }

  /** No comment stands where the next word goes on its line: not at the end of a member of a
      list, not before a comma that stands for an end of line, and not before a clause. */
  ghost predicate IsTidy(style: Style, t: Tree)
    decreases t, 0
  {
    match t
    case Token(_, _, _) => true
    case Node(kind, children, _) =>
      && AreTidy(style, children)
      && if style.isMemberList(kind) then
           AreClosed(children)
         else
           style.isChoice(kind) || forall i :: 0 <= i < |children| ==> IsOnClearLine(style, kind, children, i)
  }

  ghost predicate IsOnClearLine(style: Style, kind: nat, children: seq<Tree>, i: nat)
    requires i < |children|
  {
    if style.isExplodable(kind) then
      StartsClause(style, kind, children[i]) ==> !EndsInComment(LastTokenIn(children[..i]))
    else
      children[i].Node? && style.isEolSeparated(children[i].at) ==> !EndsInComment(LastToken(children[i]))
  }

  ghost predicate AreTidy(style: Style, ts: seq<Tree>)
    decreases ts
  {
    ts != [] ==> AreTidy(style, ts[..|ts| - 1]) && IsTidy(style, ts[|ts| - 1])
  }

  /** How a line stands after a tree whose last token is `last`. */
  function After(last: Option<Tree>, st: LineState): LineState {
    if last.None? then st else if EndsInComment(last) then Commented else Clear
  }

  // ---- Tokens as they are printed -------------------------------------------------------------------

  /** The texts of a tree's tokens without trivia and without the separators of lists, and with a
      comma behind each element that only an end of line sets apart. */
  function ProgramTokens(style: Style, t: Tree): seq<string>
    decreases t, 0
  {
    match t
    case Token(kind, text, _) => if IsTrivia(kind) then [] else [text]
    case Node(kind, children, _) => ProgramTokensIn(style, style.isMemberList(kind), IsInline(style, kind), children)
  }

  function ProgramTokensIn(style: Style, isList: bool, isInline: bool, ts: seq<Tree>): seq<string>
    decreases ts
  {
    if ts == [] then
      []
    else
      var t := ts[|ts| - 1];
      ProgramTokensIn(style, isList, isInline, ts[..|ts| - 1])
      + (if isList && IsSeparator(t) then [] else ProgramTokens(style, t))
      + (if isInline && t.Node? && style.isEolSeparated(t.at) then [","] else [])
  }

  // ---- Words and lines of bits ------------------------------------------------------------------------

  function BitWords(bits: seq<Bit>): seq<string> {
    if bits == [] then [] else
      BitWords(bits[..|bits| - 1]) + if bits[|bits| - 1].Word? then Words(bits[|bits| - 1].s) else []
  }

  /** How a line stands after one more bit; only a hard break is sure to end a line. */
  function ScanBit(b: Bit, st: LineState): LineState {
    match b
    case Word(s) => TextState(s, st)
    case Gap(flat, _, _) => if flat.Some? then TextState(flat.value, st) else if st.Swallowed? then Swallowed else Clear
    case _ => st
  }

  function BitScan(bits: seq<Bit>, st: LineState): LineState {
    if bits == [] then st else ScanBit(bits[|bits| - 1], BitScan(bits[..|bits| - 1], st))
  }

  lemma {:induction false} BitsConcat(a: seq<Bit>, b: seq<Bit>, st: LineState)
    ensures BitWords(a + b) == BitWords(a) + BitWords(b)
    ensures BitScan(a + b, st) == BitScan(b, BitScan(a, st))
    decreases |b|
  {
    hide Words, ScanBit;
    if b == [] {
      assert a + b == a;
    } else {
      var n := |b| - 1;
      assert (a + b)[..|a + b| - 1] == a + b[..n];
      BitsConcat(a, b[..n], st);
    }
  }

  lemma {:induction false} BitsShift(a: seq<Bit>, n: int, st: LineState)
    ensures BitWords(Shift(a, n)) == BitWords(a) && BitScan(Shift(a, n), st) == BitScan(a, st)
  {
    hide Words, TextState;
    if a != [] {
      BitsShift(a[..|a| - 1], n, st);
      assert Shift(a, n)[..|a| - 1] == Shift(a[..|a| - 1], n);
    }
  }

  lemma OneBit(b: Bit, st: LineState)
    ensures BitWords([b]) == (if b.Word? then Words(b.s) else []) && BitScan([b], st) == ScanBit(b, st)
    ensures BitWords([]) == [] && BitScan([], st) == st
  {
    hide Words, ScanBit;
    assert [b][..0] == [];
  }

  /** Bits that print these words, and leave a clear line unless the last token ends in a comment. */
  ghost predicate AreSound(bits: seq<Bit>, words: seq<string>, last: Option<Tree>, tidy: bool) {
    && BitWords(bits) == words
    && (tidy ==>
          && BitScan(bits, Clear) == After(last, Clear)
          && (last.None? ==> forall st :: BitScan(bits, st) == st))
  }

  lemma NoBits(tidy: bool)
    ensures AreSound([], [], None, tidy)
  {
  }

  function Later(prev: Option<Tree>, last: Option<Tree>): Option<Tree> {
    if last.Some? then last else prev
  }

  lemma {:induction false} BlankWords(s: string)
    requires IsBlank(s)
    ensures Words(s) == []
  {
    if s != "" {
      BlankWords(s[1..]);
    }
  }

  /** A separator prints no words, and leaves a line on which a token can stand. */
  lemma SepIsSound(style: Style, prev: Option<Tree>, first: Option<Tree>, st: LineState)
    requires IsStyle(style)
    ensures BitWords(SepFlow(style, prev, first)) == []
    ensures prev.Some? && first.Some? && st == After(prev, Clear) ==> BitScan(SepFlow(style, prev, first), st) == Clear
    ensures prev.None? || first.None? ==> SepFlow(style, prev, first) == []
  {
    hide Words;
    OneBit(BREAK, st);
    if prev.Some? && first.Some? {
      BlankWords(style.flatSep(prev.value, first.value));
      OneBit(Word(style.flatSep(prev.value, first.value)), st);
    }
  }

  /** A child behind others, after a separator. */
  lemma SoundMore(style: Style, bits: seq<Bit>, words: seq<string>, prev: Option<Tree>, first: Option<Tree>, more: seq<Bit>,
                  words': seq<string>, last: Option<Tree>, tidy: bool)
    requires IsStyle(style) && AreSound(bits, words, prev, tidy) && AreSound(more, words', last, tidy)
    requires first.Some? <==> last.Some?
    ensures AreSound(bits + (SepFlow(style, prev, first) + more), words + words', Later(prev, last), tidy)
  {
    hide BitWords, BitScan, SepFlow, EndsInComment;
    var sep := SepFlow(style, prev, first);
    NothingScanned();
    SepIsSound(style, prev, first, BitScan(bits, Clear));
    forall st
      ensures BitScan(bits + (sep + more), st) == BitScan(more, BitScan(sep, BitScan(bits, st)))
    {
      BitsConcat(sep, more, BitScan(bits, st));
      BitsConcat(bits, sep + more, st);
    }
    BitsConcat(sep, more, Clear);
    BitsConcat(bits, sep + more, Clear);
    assert [] + BitWords(more) == BitWords(more);
  }

  lemma NothingScanned()
    ensures forall st :: BitScan([], st) == st
  {
  }

  // ---- Tokens and rows --------------------------------------------------------------------------------

  lemma TokenIsSound(style: Style, parent: nat, t: Tree, tidy: bool)
    requires t.Token? && !IsTrivia(t.tokenKind) && IsLexed(t.tokenKind, t.text)
    ensures AreSound(TokenFlow(style, parent, t), [t.text], Some(t), tidy)
    ensures AreSound([Word(t.text)], [t.text], Some(t), tidy)
  {
    var anchor := style.anchor(parent, t.tokenKind);
    OneBit(Word(t.text), Clear);
    if anchor.Some? {
      OneBit(Mark(anchor.value, 0), Clear);
      BitsConcat([Mark(anchor.value, 0)], [Word(t.text)], Clear);
    } else {
      assert [] + [Word(t.text)] == [Word(t.text)];
    }
  }

  lemma FormedLast(style: Style, ts: seq<Tree>, t: Tree)
    ensures AreFormed(style, ts + [t]) <==> AreFormed(style, ts) && IsFormed(style, t)
    ensures AreTidy(style, ts + [t]) <==> AreTidy(style, ts) && IsTidy(style, t)
    ensures AreFormed(style, []) && AreTidy(style, [])
  {
    hide IsFormed, IsTidy;
    assert (ts + [t])[..|ts|] == ts;
  }

  lemma TokensLast(style: Style, isList: bool, isInline: bool, ts: seq<Tree>, t: Tree)
    ensures ProgramTokensIn(style, isList, isInline, ts + [t])
         == ProgramTokensIn(style, isList, isInline, ts)
            + (if isList && IsSeparator(t) then [] else ProgramTokens(style, t))
            + (if isInline && t.Node? && style.isEolSeparated(t.at) then [","] else [])
    ensures ProgramTokensIn(style, isList, isInline, []) == []
    ensures IsTriviaToken(t) ==> ProgramTokens(style, t) == [] && !IsSeparator(t)
    ensures t.Token? && !IsTrivia(t.tokenKind) ==> ProgramTokens(style, t) == [t.text]
  {
    assert (ts + [t])[..|ts|] == ts;
  }

  /** A child of a row is sound. */
  lemma {:induction false} ChildIsSound(style: Style, parent: nat, t: Tree)
    requires IsStyle(style) && IsFormed(style, t) && !IsTriviaToken(t)
    ensures AreSound(ChildFlow(style, parent, t), ProgramTokens(style, t), LastToken(t), IsTidy(style, t))
    ensures AreSound(PlainFlow(style, t), ProgramTokens(style, t), LastToken(t), IsTidy(style, t))
    ensures FirstToken(t).Some? <==> LastToken(t).Some?
    decreases t, 1
  {
    hide FlowOf, TokenFlow, AreSound, ProgramTokensIn;
    FirstMeansLast(t);
    if t.Token? {
      TokenIsSound(style, parent, t, true);
    } else {
      NodeIsSound(style, t);
    }
  }

  /** A node prints its tokens in order, and swallows none if it is tidy. */
  lemma {:induction false} NodeIsSound(style: Style, n: Tree)
    requires IsStyle(style) && n.Node? && IsFormed(style, n)
    ensures AreSound(FlowOf(style, n), ProgramTokens(style, n), LastToken(n), IsTidy(style, n))
    decreases n, 0
  {
    hide AreSound, ListFlow, ChoiceFlow, SpecFlow, RowFlow, IsDelimited, IsBraced, IsOnClearLine, AreFormed, AreTidy, LastTokenIn,
         FirstTokenIn, ProgramTokensIn, AreClosed;
    FormedParts(style, n);
    if style.isMemberList(n.kind) {
      ListIsSound(style, n.kind, n.children);
    } else if style.isChoice(n.kind) {
      ChoiceIsSound(style, n.children);
    } else if style.isExplodable(n.kind) {
      SpecIsSound(style, n.kind, n.children);
    } else {
      RowIsSound(style, n.kind, n.children);
    }
  }

  ghost predicate AreOnClearLines(style: Style, kind: nat, ts: seq<Tree>) {
    forall i :: 0 <= i < |ts| ==> IsOnClearLine(style, kind, ts, i)
  }

  lemma ClearLast(style: Style, kind: nat, ts: seq<Tree>, t: Tree)
    requires AreOnClearLines(style, kind, ts + [t])
    ensures AreOnClearLines(style, kind, ts)
    ensures style.isExplodable(kind) && StartsClause(style, kind, t) ==> !EndsInComment(LastTokenIn(ts))
    ensures !style.isExplodable(kind) && t.Node? && style.isEolSeparated(t.at) ==> !EndsInComment(LastToken(t))
  {
    hide StartsClause, EndsInComment, LastToken, LastTokenIn;
    var all := ts + [t];
    assert all[..|ts|] == ts && all[|ts|] == t;
    forall i | 0 <= i < |ts|
      ensures IsOnClearLine(style, kind, ts, i)
    {
      assert all[i] == ts[i] && all[..i] == ts[..i] && IsOnClearLine(style, kind, all, i);
    }
    assert IsOnClearLine(style, kind, all, |ts|);
  }

  lemma {:induction false} RowIsSound(style: Style, kind: nat, ts: seq<Tree>)
    requires IsStyle(style) && AreFormed(style, ts) && !style.isExplodable(kind)
    ensures AreSound(RowFlow(style, kind, ts), ProgramTokensIn(style, false, true, ts), LastTokenIn(ts),
                     AreTidy(style, ts) && AreOnClearLines(style, kind, ts))
    decreases ts, 0
  {
    hide AreSound, FlowOf, ChildFlow, SepFlow, IsFormed, IsTidy, IsOnClearLine, LastToken, FirstToken, ProgramTokens, AreOnClearLines;
    if ts == [] {
      NoBits(AreTidy(style, ts) && AreOnClearLines(style, kind, ts));
    } else {
      var init, t := ts[..|ts| - 1], ts[|ts| - 1];
      assert ts == init + [t];
      var tidy := AreTidy(style, ts) && AreOnClearLines(style, kind, ts);
      RowIsSound(style, kind, init);
      if tidy {
        ClearLast(style, kind, init, t);
      }
      Weaken(RowFlow(style, kind, init), ProgramTokensIn(style, false, true, init), LastTokenIn(init),
             AreTidy(style, init) && AreOnClearLines(style, kind, init), tidy);
      TokensLast(style, false, true, init, t);
      TokensSnoc(init, t);
      if IsTriviaToken(t) {
        OwnToken(t);
        RowOfTrivia(style, kind, ts);
      } else {
        ChildIsSound(style, kind, t);
        Weaken(ChildFlow(style, kind, t), ProgramTokens(style, t), LastToken(t), IsTidy(style, t), tidy);
        SoundMore(style, RowFlow(style, kind, init), ProgramTokensIn(style, false, true, init), LastTokenIn(init), FirstToken(t),
                  ChildFlow(style, kind, t), ProgramTokens(style, t), LastToken(t), tidy);
        RowOfChild(style, kind, ts);
        if t.Node? && style.isEolSeparated(t.at) {
          SeparatedHasTokens(style, t);
          CommaIsSound(RowFlow(style, kind, init) + (SepFlow(style, LastTokenIn(init), FirstToken(t)) + ChildFlow(style, kind, t)),
                       ProgramTokensIn(style, false, true, init) + ProgramTokens(style, t), LastTokenIn(ts), tidy);
        }
      }
    }
  }

  lemma Weaken(bits: seq<Bit>, words: seq<string>, last: Option<Tree>, tidy: bool, tidier: bool)
    requires AreSound(bits, words, last, tidy) && (tidier ==> tidy)
    ensures AreSound(bits, words, last, tidier)
  {
    hide BitWords, BitScan;
  }

  lemma OwnToken(t: Tree)
    requires t.Token?
    ensures FirstToken(t) == LastToken(t) == if IsTrivia(t.tokenKind) then None else Some(t)
  {
  }

  lemma RowOfTrivia(style: Style, kind: nat, ts: seq<Tree>)
    requires ts != [] && IsTriviaToken(ts[|ts| - 1])
    ensures RowFlow(style, kind, ts) == RowFlow(style, kind, ts[..|ts| - 1])
    ensures forall words: seq<string> :: words + [] == words
  {
  }

  lemma RowOfChild(style: Style, kind: nat, ts: seq<Tree>)
    requires ts != [] && !IsTriviaToken(ts[|ts| - 1])
    ensures var init, t := ts[..|ts| - 1], ts[|ts| - 1];
            RowFlow(style, kind, ts)
            == RowFlow(style, kind, init) + (SepFlow(style, LastTokenIn(init), FirstToken(t)) + ChildFlow(style, kind, t))
               + CommaFlow(style, t)
    ensures forall bits: seq<Bit> :: bits + [] == bits
    ensures forall words: seq<string> :: words + [] == words
  {
    hide SepFlow, ChildFlow, LastTokenIn, FirstToken;
    var init, t := ts[..|ts| - 1], ts[|ts| - 1];
    Regroup(RowFlow(style, kind, init), SepFlow(style, LastTokenIn(init), FirstToken(t)) + ChildFlow(style, kind, t),
            CommaFlow(style, t));
  }

  lemma SeparatedHasTokens(style: Style, t: Tree)
    requires t.Node? && IsFormed(style, t) && style.isEolSeparated(t.at)
    ensures LastToken(t).Some?
  {
    FirstMeansLast(t);
  }

  /** A comma behind a token that is no comment. */
  lemma CommaIsSound(bits: seq<Bit>, words: seq<string>, last: Option<Tree>, tidy: bool)
    requires AreSound(bits, words, last, tidy) && last.Some? && (tidy ==> !EndsInComment(last))
    ensures AreSound(bits + [Word(",")], words + [","], last, tidy)
  {
    hide BitWords, BitScan, EndsInComment;
    OneBit(Word(","), Clear);
    BitsConcat(bits, [Word(",")], Clear);
    assert ","[0] == ',' && !IsBlank(",");
  }

  // ---- Specifiers -------------------------------------------------------------------------------------

  lemma FormedParts(style: Style, n: Tree)
    requires n.Node? && IsFormed(style, n)
    ensures AreFormed(style, n.children)
    ensures style.isMemberList(n.kind) ==> exists i, j :: IsDelimited(n.children, style.listCfg(n.kind), i, j)
    ensures !style.isMemberList(n.kind) && style.isChoice(n.kind) ==> exists i, j :: IsBraced(n.children, i, j)
    ensures style.isExplodable(n.kind) ==> LastTokenIn(n.children).Some?
    ensures IsTidy(style, n) ==>
        && AreTidy(style, n.children)
        && (style.isMemberList(n.kind) ==> AreClosed(n.children))
        && (!style.isMemberList(n.kind) && !style.isChoice(n.kind) ==> AreOnClearLines(style, n.kind, n.children))
  {
    hide IsDelimited, IsBraced, IsOnClearLine;
    FirstMeansLastIn(n.children);
  }

  lemma GroupIsSound(bits: seq<Bit>, words: seq<string>, last: Option<Tree>, tidy: bool)
    requires AreSound(bits, words, last, tidy)
    ensures AreSound([Enter] + bits + [Leave], words, last, tidy)
  {
    hide BitWords, BitScan, EndsInComment;
    forall st: LineState
      ensures BitScan([Enter] + bits + [Leave], st) == BitScan(bits, st)
    {
      GroupScans(bits, st);
    }
    GroupScans(bits, Clear);
  }

  lemma GroupScans(bits: seq<Bit>, st: LineState)
    ensures BitScan([Enter] + bits + [Leave], st) == BitScan(bits, st) && BitWords([Enter] + bits + [Leave]) == BitWords(bits)
  {
    hide BitWords, BitScan;
    OneBit(Enter, st);
    OneBit(Leave, BitScan(bits, st));
    BitsConcat([Enter], bits, st);
    BitsConcat([Enter] + bits, [Leave], st);
    assert [] + BitWords(bits) + [] == BitWords(bits);
  }

  lemma ShiftedEnd(a: seq<Bit>, b: seq<Bit>, n: int, words: seq<string>, last: Option<Tree>, tidy: bool)
    requires AreSound(a + b, words, last, tidy)
    ensures AreSound(a + Shift(b, n), words, last, tidy)
  {
    hide BitWords, BitScan, EndsInComment, Shift;
    forall st: LineState
      ensures BitScan(a + Shift(b, n), st) == BitScan(a + b, st)
    {
      BitsConcat(a, b, st);
      BitsConcat(a, Shift(b, n), st);
      BitsShift(b, n, BitScan(a, st));
    }
    BitsConcat(a, b, Clear);
    BitsConcat(a, Shift(b, n), Clear);
    BitsShift(b, n, BitScan(a, Clear));
  }

  const CONT_LINE := Gap(Some(" "), true, 0)

  /** A clause on a continued line, behind what does not end in a comment. */
  lemma ClauseMore(bits: seq<Bit>, words: seq<string>, prev: Option<Tree>, more: seq<Bit>, words': seq<string>,
                   last: Option<Tree>, tidy: bool)
    requires AreSound(bits, words, prev, tidy) && AreSound(more, words', last, tidy) && (tidy ==> !EndsInComment(prev))
    ensures AreSound(bits + ([CONT_LINE] + more), words + words', Later(prev, last), tidy)
  {
    hide BitWords, BitScan, EndsInComment;
    forall st: LineState
      ensures BitScan(bits + ([CONT_LINE] + more), st) == BitScan(more, BitScan(bits, st))
    {
      ClauseScans(bits, more, st);
    }
    ClauseScans(bits, more, Clear);
  }

  lemma ClauseScans(bits: seq<Bit>, more: seq<Bit>, st: LineState)
    ensures BitScan(bits + ([CONT_LINE] + more), st) == BitScan(more, BitScan(bits, st))
    ensures BitWords(bits + ([CONT_LINE] + more)) == BitWords(bits) + BitWords(more)
  {
    hide BitWords, BitScan;
    OneBit(CONT_LINE, BitScan(bits, st));
    BitsConcat([CONT_LINE], more, BitScan(bits, st));
    BitsConcat(bits, [CONT_LINE] + more, st);
    assert [] + BitWords(more) == BitWords(more);
  }

  lemma {:induction false} SpecRowIsSound(style: Style, kind: nat, ts: seq<Tree>)
    requires IsStyle(style) && AreFormed(style, ts) && style.isExplodable(kind)
    ensures AreSound(SpecRow(style, kind, ts), ProgramTokensIn(style, false, false, ts), LastTokenIn(ts),
                     AreTidy(style, ts) && AreOnClearLines(style, kind, ts))
    decreases ts, 0
  {
    hide AreSound, FlowOf, ChildFlow, SepFlow, IsFormed, IsTidy, IsOnClearLine, LastToken, FirstToken, ProgramTokens, AreOnClearLines,
         StartsClause, HasClause, Shift, EndsInComment;
    if ts == [] {
      NoBits(AreTidy(style, ts) && AreOnClearLines(style, kind, ts));
    } else {
      var init, t := ts[..|ts| - 1], ts[|ts| - 1];
      assert ts == init + [t];
      var tidy := AreTidy(style, ts) && AreOnClearLines(style, kind, ts);
      var words, prev := ProgramTokensIn(style, false, false, init), LastTokenIn(init);
      SpecRowIsSound(style, kind, init);
      if tidy {
        ClearLast(style, kind, init, t);
      }
      Weaken(SpecRow(style, kind, init), words, prev, AreTidy(style, init) && AreOnClearLines(style, kind, init), tidy);
      TokensLast(style, false, false, init, t);
      TokensSnoc(init, t);
      assert forall all: seq<string> :: all + [] == all;
      if IsTriviaToken(t) {
        OwnToken(t);
        assert SpecRow(style, kind, init) + [] == SpecRow(style, kind, init);
      } else {
        var more := ChildFlow(style, kind, t);
        ChildIsSound(style, kind, t);
        Weaken(more, ProgramTokens(style, t), LastToken(t), IsTidy(style, t), tidy);
        if StartsClause(style, kind, t) {
          ClauseMore(SpecRow(style, kind, init), words, prev, more, ProgramTokens(style, t), LastToken(t), tidy);
          ShiftedEnd(SpecRow(style, kind, init), [CONT_LINE] + more, 1, words + ProgramTokens(style, t), LastTokenIn(ts), tidy);
        } else {
          SoundMore(style, SpecRow(style, kind, init), words, prev, FirstToken(t), more, ProgramTokens(style, t), LastToken(t), tidy);
          ShiftedEnd(SpecRow(style, kind, init), SepFlow(style, prev, FirstToken(t)) + more,
                     if HasClause(style, kind, init) then 1 else 0, words + ProgramTokens(style, t), LastTokenIn(ts), tidy);
        }
      }
    }
  }

  lemma SpecIsSound(style: Style, kind: nat, ts: seq<Tree>)
    requires IsStyle(style) && AreFormed(style, ts) && style.isExplodable(kind)
    ensures AreSound(SpecFlow(style, kind, ts), ProgramTokensIn(style, false, false, ts), LastTokenIn(ts),
                     AreTidy(style, ts) && AreOnClearLines(style, kind, ts))
    decreases ts, 1
  {
    hide AreSound, SpecRow, ProgramTokensIn, LastTokenIn, AreTidy, AreOnClearLines, HasClause;
    SpecRowIsSound(style, kind, ts);
    GroupIsSound(SpecRow(style, kind, ts), ProgramTokensIn(style, false, false, ts), LastTokenIn(ts),
                 AreTidy(style, ts) && AreOnClearLines(style, kind, ts));
  }

  // ---- Choices ----------------------------------------------------------------------------------------

  function Inside(i: nat, j: nat, k: nat): nat {
    if k <= i + 1 then i + 1 else if k <= j then k else j
  }

  function Before(i: nat, k: nat): nat {
    if k <= i then k else i
  }

  lemma {:induction false} FormedAt(style: Style, ts: seq<Tree>, i: nat)
    requires i < |ts|
    ensures AreFormed(style, ts) ==> IsFormed(style, ts[i])
    ensures AreTidy(style, ts) ==> IsTidy(style, ts[i])
    decreases |ts|
  {
    hide IsFormed, IsTidy;
    if i < |ts| - 1 {
      FormedAt(style, ts[..|ts| - 1], i);
    }
  }

  lemma BracedAt(children: seq<Tree>, i: nat, j: nat, k: nat)
    requires IsBraced(children, i, j) && k < |children|
    ensures IsLeftCurly(children[k]) <==> k == i
    ensures IsCurly(children[k]) <==> k == i || k == j
    ensures j < k ==> IsTriviaToken(children[k])
  {
  }

  lemma CurlyLast(ts: seq<Tree>, t: Tree)
    ensures HasLeftCurly(ts + [t]) <==> HasLeftCurly(ts) || IsLeftCurly(t)
    ensures PrevInChoice(ts + [t])
         == if IsLeftCurly(t) then None else if IsCurly(t) || LastToken(t).None? then PrevInChoice(ts) else LastToken(t)
    ensures !HasLeftCurly([]) && PrevInChoice([]) == None
  {
    hide LastToken;
    var all := ts + [t];
    assert all[..|ts|] == ts && all[|ts|] == t;
    forall i | 0 <= i < |ts|
      ensures all[i] == ts[i]
    {
    }
  }

  lemma PartLast(style: Style, ts: seq<Tree>, t: Tree, inBody: bool)
    ensures IsTriviaToken(t) || IsCurly(t) || HasLeftCurly(ts) != inBody ==>
        ChoicePart(style, ts + [t], inBody) == ChoicePart(style, ts, inBody)
    ensures !IsTriviaToken(t) && !IsCurly(t) && HasLeftCurly(ts) == inBody ==>
        ChoicePart(style, ts + [t], inBody)
        == ChoicePart(style, ts, inBody) + (SepFlow(style, PrevInChoice(ts), FirstToken(t)) + PlainFlow(style, t))
    ensures ChoicePart(style, [], inBody) == []
  {
    hide SepFlow, PlainFlow, PrevInChoice, HasLeftCurly, FirstToken;
    assert (ts + [t])[..|ts|] == ts;
    assert ChoicePart(style, ts, inBody) + [] == ChoicePart(style, ts, inBody);
  }

  /** Both parts of a choice are sound, up to some child. */
  lemma {:induction false} PartsAreSound(style: Style, all: seq<Tree>, i: nat, j: nat, k: nat)
    requires IsStyle(style) && AreFormed(style, all) && IsBraced(all, i, j) && k <= |all|
    ensures HasLeftCurly(all[..k]) <==> i < k
    ensures PrevInChoice(all[..k]) == LastTokenIn(if k <= i then all[..k] else all[i + 1..Inside(i, j, k)])
    ensures AreSound(ChoicePart(style, all[..k], false), ProgramTokensIn(style, false, false, all[..Before(i, k)]),
                     LastTokenIn(all[..Before(i, k)]), AreTidy(style, all))
    ensures AreSound(ChoicePart(style, all[..k], true), ProgramTokensIn(style, false, false, all[i + 1..Inside(i, j, k)]),
                     LastTokenIn(all[i + 1..Inside(i, j, k)]), AreTidy(style, all))
    decreases all, 0, k
  {
    hide AreSound, ChoicePart, PlainFlow, SepFlow, IsFormed, IsTidy, AreFormed, AreTidy, LastToken, FirstToken, LastTokenIn, FirstTokenIn,
         ProgramTokens, ProgramTokensIn, IsBraced, HasLeftCurly, PrevInChoice, EndsInComment;
    var tidy := AreTidy(style, all);
    BracedBounds(all, i, j);
    NoBits(tidy);
    if k == 0 {
      CurlyLast([], all[0]);
      PartLast(style, [], all[0], false);
      PartLast(style, [], all[0], true);
      TokensLast(style, false, false, [], all[0]);
      TokensSnoc([], all[0]);
      assert all[..0] == [] && all[i + 1..i + 1] == [];
    } else {
      var init, t := all[..k - 1], all[k - 1];
      PartsAreSound(style, all, i, j, k - 1);
      BracedAt(all, i, j, k - 1);
      assert all[..k] == init + [t];
      CurlyLast(init, t);
      PartLast(style, init, t, false);
      PartLast(style, init, t, true);
      FormedAt(style, all, k - 1);
      var from := if k - 1 < i then 0 else i + 1;
      if k - 1 < i || i < k - 1 < j {
        var row := all[from..k - 1];
        assert all[from..k] == row + [t];
        TokensLast(style, false, false, row, t);
        TokensSnoc(row, t);
        assert forall words: seq<string> :: words + [] == words;
        if IsTriviaToken(t) {
          OwnToken(t);
        } else {
          ChildIsSound(style, 0, t);
          Weaken(PlainFlow(style, t), ProgramTokens(style, t), LastToken(t), IsTidy(style, t), tidy);
          SoundMore(style, ChoicePart(style, init, i < k - 1), ProgramTokensIn(style, false, false, row), LastTokenIn(row), FirstToken(t),
                    PlainFlow(style, t), ProgramTokens(style, t), LastToken(t), tidy);
        }
      } else if k - 1 == i {
        TokensSnoc([], t);
        assert all[i + 1..i + 1] == [];
      } else {
        if j < k - 1 {
          OwnToken(t);
        }
      }
    }
  }

  lemma BracedBounds(children: seq<Tree>, i: nat, j: nat)
    requires IsBraced(children, i, j)
    ensures i < j < |children| && !EndsInComment(LastTokenIn(children[..i]))
    ensures children[i].Token? && children[i].tokenKind.LeftCurly? && children[j].Token? && children[j].tokenKind.RightCurly?
    ensures forall k :: j < k < |children| ==> IsTriviaToken(children[k])
  {
  }

  lemma {:induction false} TokensConcat(style: Style, isList: bool, isInline: bool, a: seq<Tree>, b: seq<Tree>)
    ensures ProgramTokensIn(style, isList, isInline, a + b)
         == ProgramTokensIn(style, isList, isInline, a) + ProgramTokensIn(style, isList, isInline, b)
    decreases |b|
  {
    hide ProgramTokens;
    if b == [] {
      assert a + b == a;
    } else {
      assert (a + b)[..|a + b| - 1] == a + b[..|b| - 1];
      TokensConcat(style, isList, isInline, a, b[..|b| - 1]);
    }
  }

  lemma {:induction false} TriviaTokens(style: Style, isList: bool, ts: seq<Tree>)
    requires forall k :: 0 <= k < |ts| ==> IsTriviaToken(ts[k])
    ensures ProgramTokensIn(style, isList, false, ts) == [] && KeptTokens(style, ts) == []
  {
    if ts != [] {
      TriviaTokens(style, isList, ts[..|ts| - 1]);
    }
  }

  /** The last token is the one after which there are only trivia. */
  lemma {:induction false} LastIsToken(ts: seq<Tree>, j: nat)
    requires j < |ts| && ts[j].Token? && !IsTrivia(ts[j].tokenKind)
    requires forall k :: j < k < |ts| ==> IsTriviaToken(ts[k])
    ensures LastTokenIn(ts) == Some(ts[j])
    decreases |ts|
  {
    if j < |ts| - 1 {
      LastIsToken(ts[..|ts| - 1], j);
    }
  }

  /** The tokens of a choice are those of its head and of its body, and its braces. */
  lemma BracedTokens(style: Style, ts: seq<Tree>, i: nat, j: nat)
    requires IsBraced(ts, i, j) && AreFormed(style, ts)
    ensures ProgramTokensIn(style, false, false, ts)
         == ProgramTokensIn(style, false, false, ts[..i]) + ["{"] + ProgramTokensIn(style, false, false, ts[i + 1..j]) + ["}"]
  {
    hide ProgramTokens, ProgramTokensIn, IsBraced, AreFormed;
    BracedBounds(ts, i, j);
    FormedAt(style, ts, i);
    FormedAt(style, ts, j);
    CurlyTexts(style, ts[i]);
    CurlyTexts(style, ts[j]);
    var a, b := ts[..i] + [ts[i]], ts[i + 1..j] + [ts[j]];
    assert ts == a + b + ts[j + 1..];
    TriviaTokens(style, false, ts[j + 1..]);
    TokensConcat(style, false, false, a + b, ts[j + 1..]);
    TokensConcat(style, false, false, a, b);
    TokensLast(style, false, false, ts[..i], ts[i]);
    TokensLast(style, false, false, ts[i + 1..j], ts[j]);
    assert forall words: seq<string> :: words + [] == words;
    Regroup(ProgramTokensIn(style, false, false, ts[..i]) + ["{"], ProgramTokensIn(style, false, false, ts[i + 1..j]), ["}"]);
  }

  lemma CurlyTexts(style: Style, t: Tree)
    requires t.Token? && (t.tokenKind.LeftCurly? || t.tokenKind.RightCurly?) && IsFormed(style, t)
    ensures t.text == (if t.tokenKind.LeftCurly? then "{" else "}") && !IsTrivia(t.tokenKind) && !EndsInComment(Some(t))
  {
  }

  /** The words of a choice between its braces; its lines are clear around them. */
  lemma BracesScan(head: seq<Bit>, body: seq<Bit>)
    ensures var all := head + [Word(" {")] + Shift([BREAK] + ([Enter] + body + [Leave]), 1) + [BREAK] + [Word("}")];
            && BitWords(all) == BitWords(head) + ["{"] + BitWords(body) + ["}"]
            && (BitScan(head, Clear) == Clear && !BitScan(body, Clear).Swallowed? ==> BitScan(all, Clear) == Clear)
  {
    hide BitWords, BitScan, Shift;
    var inner := [BREAK] + ([Enter] + body + [Leave]);
    var st := BitScan(head, Clear);
    var st' := ScanBit(Word(" {"), st);
    BraceBits();
    OneBit(Word(" {"), st);
    BitsConcat(head, [Word(" {")], Clear);
    BitsShift(inner, 1, st');
    OneBit(BREAK, st');
    GroupScans(body, ScanBit(BREAK, st'));
    BitsConcat([BREAK], [Enter] + body + [Leave], st');
    BitsConcat(head + [Word(" {")], Shift(inner, 1), Clear);
    var st'' := BitScan(head + [Word(" {")] + Shift(inner, 1), Clear);
    OneBit(BREAK, st'');
    BitsConcat(head + [Word(" {")] + Shift(inner, 1), [BREAK], Clear);
    OneBit(Word("}"), ScanBit(BREAK, st''));
    BitsConcat(head + [Word(" {")] + Shift(inner, 1) + [BREAK], [Word("}")], Clear);
    assert [] + BitWords(body) == BitWords(body);
    assert BitWords(head) + ["{"] + BitWords(body) + [] == BitWords(head) + ["{"] + BitWords(body);
  }

  lemma BraceBits()
    ensures Words(" {") == ["{"] && Words("}") == ["}"]
    ensures ScanBit(Word(" {"), Clear) == Clear && ScanBit(Word("}"), Clear) == Clear
  {
    assert " {"[1..] == "{";
    assert " {"[1] == '{' && "}"[0] == '}';
  }

  lemma ChoiceIsSound(style: Style, ts: seq<Tree>)
    requires IsStyle(style) && AreFormed(style, ts) && exists i, j :: IsBraced(ts, i, j)
    ensures AreSound(ChoiceFlow(style, ts), ProgramTokensIn(style, false, false, ts), LastTokenIn(ts), AreTidy(style, ts))
    decreases ts, 1
  {
    hide IsBraced, ChoicePart, ProgramTokensIn, LastTokenIn, AreTidy, AreFormed, BitWords, BitScan, EndsInComment;
    var i: nat, j: nat :| IsBraced(ts, i, j);
    BracedBounds(ts, i, j);
    PartsAreSound(style, ts, i, j, |ts|);
    assert ts[..|ts|] == ts;
    BracedTokens(style, ts, i, j);
    FormedAt(style, ts, j);
    CurlyTexts(style, ts[j]);
    LastIsToken(ts, j);
    BracesScan(ChoicePart(style, ts, false), ChoicePart(style, ts, true));
  }

  // ---- Member lists -------------------------------------------------------------------------------------

  function KeptTokens(style: Style, ts: seq<Tree>): seq<string> {
    if ts == [] then
      []
    else
      KeptTokens(style, ts[..|ts| - 1]) + if IsKept(ts[|ts| - 1]) then ProgramTokens(style, ts[|ts| - 1]) else []
  }

  /** How a line stands after the last member. */
  function AfterMember(last: Option<Tree>): LineState {
    if last.Some? && IsSwallowing(last.value) then Commented else Clear
  }

  lemma MemberLast(style: Style, block: bool, ts: seq<Tree>, t: Tree)
    ensures !IsKept(t) ==> MembersFlow(style, block, ts + [t]) == MembersFlow(style, block, ts)
    ensures IsKept(t) && StartsMember(ts, t) ==>
        MembersFlow(style, block, ts + [t])
        == MembersFlow(style, block, ts)
           + ((if LastKept(ts).None? then [] else MemberSep(block, HasBlank(ts))) + PlainFlow(style, t))
    ensures IsKept(t) && !StartsMember(ts, t) ==>
        MembersFlow(style, block, ts + [t]) == MembersFlow(style, block, ts) + AttachedFlow(LastKept(ts), t)
    ensures LastKept(ts + [t]) == if IsKept(t) then Some(t) else LastKept(ts)
    ensures KeptTokens(style, ts + [t]) == KeptTokens(style, ts) + if IsKept(t) then ProgramTokens(style, t) else []
    ensures MembersFlow(style, block, []) == [] && LastKept([]) == None && KeptTokens(style, []) == []
    ensures forall words: seq<string> :: words + [] == words
  {
    hide PlainFlow, AttachedFlow, MemberSep, HasBlank, ProgramTokens, StartsMember, IsKept;
    assert (ts + [t])[..|ts|] == ts;
    assert MembersFlow(style, block, ts) + [] == MembersFlow(style, block, ts);
  }

  lemma KeptLast(style: Style, ts: seq<Tree>, t: Tree)
    ensures AreClosed(ts + [t]) ==> AreClosed(ts) && (t.Node? ==> !EndsInComment(LastToken(t)))
    ensures HasSwallowing(ts + [t]) <==> HasSwallowing(ts) || IsSwallowing(t)
  {
    hide LastToken, EndsInComment;
    var all := ts + [t];
    assert all[|ts|] == t;
    forall i | 0 <= i < |ts|
      ensures all[i] == ts[i]
    {
    }
  }

  lemma SepScans(block: bool, blank: bool, st: LineState)
    ensures BitWords(MemberSep(block, blank)) == []
    ensures !st.Swallowed? && (block || st.Clear?) ==> BitScan(MemberSep(block, blank), st) == Clear
  {
    hide Words;
    OneBit(BREAK, st);
    OneBit(BREAK, ScanBit(BREAK, st));
    BitsConcat([BREAK], [BREAK], st);
    assert [BREAK] + [BREAK] == [BREAK, BREAK];
    OneBit(Gap(Some(", "), false, 0), st);
    assert ", "[0] == ',' && !IsBlank(", ");
  }

  lemma AttachedScans(last: Option<Tree>, t: Tree, st: LineState)
    requires t.Token? && IsSwallowing(t) && IsLexed(t.tokenKind, t.text)
    ensures BitWords(AttachedFlow(last, t)) == [t.text]
    ensures st == AfterMember(last) ==> BitScan(AttachedFlow(last, t), st) == Commented
  {
    hide BitWords, BitScan, Words, IsBlank, TextState;
    var gap := if t.tokenKind.PostAnnotation? then "  " else " ";
    var sep := if last.Some? && IsSwallowing(last.value) then BREAK else Word(gap);
    var note := if t.tokenKind.PostAnnotation? then [Mark(AnchorKind.PostAnnotation, 0)] else [];
    OneBit(sep, st);
    OneBit(Mark(AnchorKind.PostAnnotation, 0), ScanBit(sep, st));
    OneBit(BREAK, ScanBit(sep, st));
    NothingScanned();
    OneBit(Word(t.text), ScanBit(sep, st));
    BitsConcat([sep], note, st);
    BitsConcat([sep] + note, [Word(t.text)], st);
    GapScans(gap, st);
    SwallowingText(t);
  }

  lemma GapScans(gap: string, st: LineState)
    requires gap == " " || gap == "  "
    ensures Words(gap) == [] && TextState(gap, st) == st
  {
    assert IsBlank(gap);
    BlankWords(gap);
  }

  lemma SwallowingText(t: Tree)
    requires t.Token? && IsSwallowing(t) && IsLexed(t.tokenKind, t.text)
    ensures Words(t.text) == [t.text] && TextState(t.text, Clear) == Commented
  {
  }

  /** The members print the kept tokens, and leave a clear line unless the last one is a comment. */
  lemma {:induction false} MembersAreSound(style: Style, block: bool, ts: seq<Tree>)
    requires IsStyle(style) && AreFormed(style, ts)
    ensures BitWords(MembersFlow(style, block, ts)) == KeptTokens(style, ts)
    ensures AreTidy(style, ts) && AreClosed(ts) && (block || !HasSwallowing(ts)) ==>
        BitScan(MembersFlow(style, block, ts), Clear) == AfterMember(LastKept(ts))
    decreases ts, 0
  {
    hide BitWords, BitScan, MembersFlow, PlainFlow, AttachedFlow, MemberSep, HasBlank, ProgramTokens, KeptTokens, LastKept, IsFormed,
         IsTidy, AreFormed, AreTidy, AreClosed, HasSwallowing, LastToken, FirstToken, EndsInComment, IsLexed;
    if ts == [] {
      MemberLast(style, block, [], Token(Whitespace, "", 0));
      NoneAreMembers();
      return;
    }
    var init, t := ts[..|ts| - 1], ts[|ts| - 1];
    assert ts == init + [t];
    FormedLast(style, init, t);
    MembersAreSound(style, block, init);
    MemberLast(style, block, init, t);
    KeptLast(style, init, t);
    var tidy := AreTidy(style, ts) && AreClosed(ts) && (block || !HasSwallowing(ts));
    var before := MembersFlow(style, block, init);
    var st := BitScan(before, Clear);
    if !IsKept(t) {
    } else if StartsMember(init, t) {
      var sep := if LastKept(init).None? then [] else MemberSep(block, HasBlank(init));
      ChildIsSound(style, 0, t);
      SepScans(block, HasBlank(init), st);
      OneBit(BREAK, st);
      NothingScanned();
      SwallowingLast(init);
      BitsConcat(sep, PlainFlow(style, t), st);
      BitsConcat(before, sep + PlainFlow(style, t), Clear);
      assert [] + BitWords(PlainFlow(style, t)) == BitWords(PlainFlow(style, t));
      OwnEnd(style, t);
    } else {
      FormedSwallowing(style, t);
      AttachedScans(LastKept(init), t, st);
      BitsConcat(before, AttachedFlow(LastKept(init), t), Clear);
    }
  }

  lemma NoneAreMembers()
    ensures BitWords([]) == [] && BitScan([], Clear) == Clear
  {
  }

  lemma FormedSwallowing(style: Style, t: Tree)
    requires IsFormed(style, t) && t.Token?
    ensures IsLexed(t.tokenKind, t.text)
    ensures !IsTrivia(t.tokenKind) ==> ProgramTokens(style, t) == [t.text]
  {
  }

  lemma OwnEnd(style: Style, t: Tree)
    ensures t.Token? && !IsTrivia(t.tokenKind) ==>
        After(LastToken(t), Clear) == (if IsSwallowing(t) then Commented else Clear) && LastToken(t).Some?
    ensures t.Node? && !EndsInComment(LastToken(t)) ==> After(LastToken(t), Clear) == Clear
  {
  }

  lemma {:induction false} SwallowingLast(ts: seq<Tree>)
    ensures !HasSwallowing(ts) ==> AfterMember(LastKept(ts)) == Clear
  {
    if ts != [] {
      var init, t := ts[..|ts| - 1], ts[|ts| - 1];
      assert ts == init + [t];
      SwallowingLast(init);
      if !HasSwallowing(ts) {
        assert !IsSwallowing(ts[|ts| - 1]);
        forall i | 0 <= i < |init|
          ensures !IsSwallowing(init[i])
        {
          assert init[i] == ts[i];
        }
      }
    }
  }

  lemma DelimitedBounds(ts: seq<Tree>, cfg: ListCfg, i: nat, j: nat)
    requires IsDelimited(ts, cfg, i, j)
    ensures i < j < |ts| && IsBracket(ts[i]) && IsBracket(ts[j]) && ts[i].text == cfg.open && ts[j].text == cfg.close
    ensures !IsTrivia(ts[i].tokenKind) && !IsTrivia(ts[j].tokenKind) && !EndsInComment(Some(ts[j]))
    ensures forall k :: 0 <= k < |ts| && !(i <= k <= j) ==> IsTriviaToken(ts[k])
    ensures forall k :: i < k < j ==> !IsBracket(ts[k])
  {
  }

  /** Between the delimiters, what is printed are the kept children. */
  lemma {:induction false} InnerTokens(style: Style, ts: seq<Tree>)
    requires forall k :: 0 <= k < |ts| ==> !IsBracket(ts[k])
    ensures ProgramTokensIn(style, true, false, ts) == KeptTokens(style, ts)
  {
    hide ProgramTokens;
    if ts != [] {
      var init, t := ts[..|ts| - 1], ts[|ts| - 1];
      InnerTokens(style, init);
      NotKept(style, t);
    }
  }

  lemma NotKept(style: Style, t: Tree)
    ensures IsTriviaToken(t) ==> ProgramTokens(style, t) == []
  {
  }

  lemma {:induction false} KeptConcat(style: Style, a: seq<Tree>, b: seq<Tree>)
    ensures KeptTokens(style, a + b) == KeptTokens(style, a) + KeptTokens(style, b)
    decreases |b|
  {
    hide ProgramTokens, IsKept;
    if b == [] {
      assert a + b == a;
    } else {
      assert (a + b)[..|a + b| - 1] == a + b[..|b| - 1];
      KeptConcat(style, a, b[..|b| - 1]);
    }
  }

  /** The tokens of a list are those of its members between its delimiters. */
  lemma DelimitedTokens(style: Style, ts: seq<Tree>, cfg: ListCfg, i: nat, j: nat)
    requires IsDelimited(ts, cfg, i, j)
    ensures ProgramTokensIn(style, true, false, ts) == [cfg.open] + KeptTokens(style, ts) + [cfg.close]
    ensures LastTokenIn(ts) == Some(ts[j])
  {
    hide ProgramTokens, ProgramTokensIn, KeptTokens, IsDelimited;
    DelimitedBounds(ts, cfg, i, j);
    LastIsToken(ts, j);
    var a, b := ts[..i] + [ts[i]], ts[i + 1..j] + [ts[j]];
    assert ts == a + b + ts[j + 1..];
    TriviaTokens(style, true, ts[..i]);
    TriviaTokens(style, true, ts[j + 1..]);
    TokensConcat(style, true, false, a + b, ts[j + 1..]);
    TokensConcat(style, true, false, a, b);
    TokensLast(style, true, false, ts[..i], ts[i]);
    TokensLast(style, true, false, ts[i + 1..j], ts[j]);
    InnerTokens(style, ts[i + 1..j]);
    KeptConcat(style, a + b, ts[j + 1..]);
    KeptConcat(style, a, b);
    MemberLast(style, true, ts[..i], ts[i]);
    MemberLast(style, true, ts[i + 1..j], ts[j]);
    var inner := KeptTokens(style, ts[i + 1..j]);
    assert [] + inner == inner && [] + [cfg.open] == [cfg.open];
    Regroup([cfg.open], inner, [cfg.close]);
  }

  lemma BreaksScan(blank: bool, st: LineState)
    ensures BitWords(Breaks(blank)) == [] && (!st.Swallowed? ==> BitScan(Breaks(blank), st) == Clear)
  {
    SepScans(true, blank, st);
  }

  lemma DelimiterBits(open: string, close: string)
    requires IsDelimiter(open) && IsDelimiter(close)
    ensures Words(open) == [open] && Words(close) == [close] && Words(open + close) == [open] + [close]
    ensures TextState(open, Clear) == TextState(close, Clear) == TextState(open + close, Clear) == Clear
  {
    assert |open| == |close| == 1 && open[0] in ['(', ')', '[', ']', '{', '}'] && close[0] in ['(', ')', '[', ']', '{', '}'];
    assert (open + close)[0] == open[0];
    assert !IsBlank(open) && !IsBlank(close) && !IsBlank(open + close);
  }

  /** Between delimiters, breaks or pads around members print nothing more. */
  lemma ListScans(cfg: ListCfg, lead: seq<Bit>, members: seq<Bit>, trail: seq<Bit>)
    requires IsDelimiter(cfg.open) && IsDelimiter(cfg.close) && BitWords(lead) == [] && BitWords(trail) == []
    ensures var all := [Word(cfg.open)] + Shift(lead + members, 1) + trail + [Word(cfg.close)];
            && BitWords(all) == [cfg.open] + BitWords(members) + [cfg.close]
            && (BitScan(lead, Clear) == Clear && BitScan(trail, BitScan(members, Clear)) == Clear ==> BitScan(all, Clear) == Clear)
  {
    hide BitWords, BitScan, Shift, Words, TextState;
    DelimiterBits(cfg.open, cfg.close);
    var open := [Word(cfg.open)];
    var st := TextState(cfg.open, Clear);
    OneBit(Word(cfg.open), Clear);
    BitsConcat(lead, members, st);
    BitsShift(lead + members, 1, st);
    BitsConcat(open, Shift(lead + members, 1), Clear);
    BitsConcat(open + Shift(lead + members, 1), trail, Clear);
    var st' := BitScan(open + Shift(lead + members, 1) + trail, Clear);
    OneBit(Word(cfg.close), st');
    BitsConcat(open + Shift(lead + members, 1) + trail, [Word(cfg.close)], Clear);
    assert [] + BitWords(members) == BitWords(members);
    assert [cfg.open] + BitWords(members) + [] == [cfg.open] + BitWords(members);
  }

  lemma {:induction false} NothingKept(style: Style, ts: seq<Tree>)
    requires LastKept(ts).None?
    ensures KeptTokens(style, ts) == []
  {
    if ts != [] {
      NothingKept(style, ts[..|ts| - 1]);
    }
  }

  lemma StyleDelimits(style: Style, kind: nat)
    requires IsStyle(style)
    ensures IsDelimiter(style.listCfg(kind).open) && IsDelimiter(style.listCfg(kind).close)
  {
  }

  /** A list prints its members' tokens between its delimiters, and leaves a clear line. */
  lemma ListIsSound(style: Style, kind: nat, ts: seq<Tree>)
    requires IsStyle(style) && AreFormed(style, ts) && exists i, j :: IsDelimited(ts, style.listCfg(kind), i, j)
    ensures AreSound(ListFlow(style, kind, ts), ProgramTokensIn(style, true, false, ts), LastTokenIn(ts),
                     AreTidy(style, ts) && AreClosed(ts))
    decreases ts, 1
  {
    hide IsDelimited, MembersFlow, ProgramTokensIn, LastTokenIn, AreTidy, AreFormed, AreClosed, BitWords, BitScan, Shift, Breaks, IsStyle,
         KeptTokens, LastKept, HasSwallowing, EndsInComment, TextState, Words, IsDelimiter, LeadsWithBlank, TrailsWithBlank;
    var cfg := style.listCfg(kind);
    var i: nat, j: nat :| IsDelimited(ts, cfg, i, j);
    StyleDelimits(style, kind);
    DelimitedTokens(style, ts, cfg, i, j);
    DelimitedBounds(ts, cfg, i, j);
    var lead, trail := style.preservesEdgeBlanks(kind) && LeadsWithBlank(ts), style.preservesEdgeBlanks(kind) && TrailsWithBlank(ts);
    BreaksScan(lead, Clear);
    BreaksScan(trail, AfterMember(LastKept(ts)));
    if LastKept(ts).None? {
      NothingKept(style, ts);
      EmptyListScans(cfg, trail);
    } else if MustBeBlock(style, kind, ts) {
      MembersAreSound(style, true, ts);
      ListScans(cfg, Breaks(lead), MembersFlow(style, true, ts), Breaks(trail));
    } else {
      MembersAreSound(style, false, ts);
      SwallowingLast(ts);
      PadScans(PadOf(cfg));
      PadScans(if cfg.closeStyle.Dedent? then PadOf(cfg) else "");
      var open, close := [Gap(Some(PadOf(cfg)), false, 0)], [Gap(Some(if cfg.closeStyle.Dedent? then PadOf(cfg) else ""), false, 0)];
      ListScans(cfg, open, MembersFlow(style, false, ts), close);
      GroupScans([Word(cfg.open)] + Shift(open + MembersFlow(style, false, ts), 1) + close + [Word(cfg.close)], Clear);
    }
  }

  lemma PadScans(pad: FlatText)
    requires pad == " " || pad == ""
    ensures BitWords([Gap(Some(pad), false, 0)]) == [] && BitScan([Gap(Some(pad), false, 0)], Clear) == Clear
  {
    OneBit(Gap(Some(pad), false, 0), Clear);
  }

  lemma EmptyListScans(cfg: ListCfg, blank: bool)
    requires IsDelimiter(cfg.open) && IsDelimiter(cfg.close)
    ensures BitWords([Word(cfg.open)] + Breaks(blank) + [Word(cfg.close)]) == [cfg.open] + [] + [cfg.close]
    ensures BitScan([Word(cfg.open)] + Breaks(blank) + [Word(cfg.close)], Clear) == Clear
    ensures BitWords([Word(cfg.open + cfg.close)]) == [cfg.open] + [] + [cfg.close]
    ensures BitScan([Word(cfg.open + cfg.close)], Clear) == Clear
  {
    hide Words, TextState, Breaks, BitScan, BitWords;
    DelimiterBits(cfg.open, cfg.close);
    OneBit(Word(cfg.open), Clear);
    OneBit(Word(cfg.close), Clear);
    OneBit(Word(cfg.open + cfg.close), Clear);
    BreaksScan(blank, Clear);
    BitsConcat([Word(cfg.open)], Breaks(blank), Clear);
    BitsConcat([Word(cfg.open)] + Breaks(blank), [Word(cfg.close)], Clear);
    assert [cfg.open] + [] + [cfg.close] == [cfg.open] + [cfg.close];
  }
}
