/** From a syntax tree to formatted text (fpp_format/src/formatter.rs:31-34). */
module FormatText {
  import opened Wrappers
  import opened Docs
  import opened Rendering
  import opened RenderLaws
  import opened Alignment
  import opened Finishing
  import opened Lowering
  import opened TreeFlows
  import opened Flows
  import opened FormatLaws
  import opened Spacings
  import opened SpaceLaws
  import opened Formatting

  // ---- The words of the output ---------------------------------------------------------------

  function WordsAll(texts: seq<string>): seq<string> {
    if texts == [] then [] else Words(texts[0]) + WordsAll(texts[1..])
  }

  lemma {:induction false} WordsConcat(a: seq<string>, b: seq<string>)
    ensures WordsAll(a + b) == WordsAll(a) + WordsAll(b)
  {
    hide Words;
    if a == [] {
      assert a + b == b;
    } else {
      assert (a + b)[0] == a[0] && (a + b)[1..] == a[1..] + b;
      WordsConcat(a[1..], b);
      assert Words(a[0]) + (WordsAll(a[1..]) + WordsAll(b)) == Words(a[0]) + WordsAll(a[1..]) + WordsAll(b);
    }
  }

  lemma NoWords()
    ensures WordsAll([]) == [] && Leaves([]) == []
    ensures forall words: seq<string> :: words + [] == words
  {
  }

  lemma {:induction false} LeavesConcat(a: seq<Piece>, b: seq<Piece>)
    ensures Leaves(a + b) == Leaves(a) + Leaves(b)
    decreases |b|
  {
    if b == [] {
      assert a + b == a;
    } else {
      assert (a + b)[..|a + b| - 1] == a + b[..|b| - 1];
      LeavesConcat(a, b[..|b| - 1]);
    }
  }

  lemma WordsOfPiece(b: Bit, open: seq<Mode>, w: nat)
    ensures WordsAll(Leaves(PieceOf(b, open, w))) == if b.Word? then Words(b.s) else []
  {
    hide Words, Broken, IsFlat;
    if b.Word? {
      assert Leaves([Leaf(b.s)]) == [b.s];
      assert [b.s][1..] == [];
      NoWords();
    }
  }

  /** Whatever breaks, the words that are printed are those of the document in a row. */
  lemma {:induction false} PrintedWords(bits: seq<Bit>, outer: seq<Mode>, modes: seq<Mode>, w: nat)
    requires |modes| == |bits|
    ensures WordsAll(Leaves(Printed(bits, outer, modes, w))) == BitWords(bits)
    decreases |bits|
  {
    hide Words, WordsAll, Leaves, PieceOf, OpenGroups;
    NoWords();
    if bits != [] {
      var n := |bits| - 1;
      var open := OpenGroups(bits[..n], outer, modes[..n]);
      PrintedWords(bits[..n], outer, modes[..n], w);
      WordsOfPiece(bits[n], open, w);
      LeavesConcat(Printed(bits[..n], outer, modes[..n], w), PieceOf(bits[n], open, w));
      WordsConcat(Leaves(Printed(bits[..n], outer, modes[..n], w)), Leaves(PieceOf(bits[n], open, w)));
    }
  }

  // ---- The lines of the output ------------------------------------------------------------------------

  /** How the line stands at the end of the output. */
  function PiecesState(pieces: seq<Piece>): LineState {
    if pieces == [] then
      Clear
    else
      var st, last := PiecesState(pieces[..|pieces| - 1]), pieces[|pieces| - 1];
      if last.Sep? && NEWLINE in last.s then (if st.Swallowed? then Swallowed else Clear) else TextState(last.s, st)
  }

  lemma PiecesSnoc(pieces: seq<Piece>, p: Piece)
    ensures var st := PiecesState(pieces);
            PiecesState(pieces + [p])
            == if p.Sep? && NEWLINE in p.s then (if st.Swallowed? then Swallowed else Clear) else TextState(p.s, st)
  {
    hide TextState;
    assert (pieces + [p])[..|pieces|] == pieces;
  }

  function Rank(st: LineState): nat {
    match st case Clear => 0 case Commented => 1 case Swallowed => 2
  }

  lemma NothingMore(pieces: seq<Piece>)
    ensures pieces + [] == pieces && PiecesState([]) == Clear
  {
  }

  lemma BrokenHasNewline(cont: bool, depth: int, w: nat)
    ensures NEWLINE in Broken(cont, depth, w)
  {
    hide Spaces;
    assert Broken(cont, depth, w)[if cont then 2 else 0] == NEWLINE;
  }

  lemma FlatHasNoNewline(flat: FlatText)
    ensures NEWLINE !in flat
  {
  }

  /** One more bit leaves the line no worse than its scan says. */
  lemma PieceSwallowsNoMore(b: Bit, pieces: seq<Piece>, open: seq<Mode>, w: nat, st: LineState)
    requires Rank(PiecesState(pieces)) <= Rank(st)
    ensures Rank(PiecesState(pieces + PieceOf(b, open, w))) <= Rank(ScanBit(b, st))
  {
    hide PiecesState, Broken, IsBlank, Swallows, IsFlat;
    NothingMore(pieces);
    match b
    case Word(s) => PiecesSnoc(pieces, Leaf(s));
    case Gap(flat, cont, depth) =>
      BrokenHasNewline(cont, depth, w);
      PiecesSnoc(pieces, Sep(Broken(cont, depth, w)));
      if IsFlat(flat, open) {
        FlatIsSome(flat, open);
        FlatHasNoNewline(flat.value);
        PiecesSnoc(pieces, Sep(flat.value));
      }
    case _ =>
  }

  lemma FlatIsSome(flat: Option<FlatText>, open: seq<Mode>)
    requires IsFlat(flat, open)
    ensures flat.Some?
  {
  }

  /** Whatever breaks, nothing more is swallowed than the scan of the document in a row says. */
  lemma {:induction false} PrintedSwallowsNoMore(bits: seq<Bit>, outer: seq<Mode>, modes: seq<Mode>, w: nat)
    requires |modes| == |bits|
    ensures Rank(PiecesState(Printed(bits, outer, modes, w))) <= Rank(BitScan(bits, Clear))
    decreases |bits|
  {
    hide PiecesState, PieceOf, OpenGroups, ScanBit, Rank;
    if bits == [] {
      NothingMore([]);
    } else {
      var n := |bits| - 1;
      PrintedSwallowsNoMore(bits[..n], outer, modes[..n], w);
      PieceSwallowsNoMore(bits[n], Printed(bits[..n], outer, modes[..n], w), OpenGroups(bits[..n], outer, modes[..n]), w,
                          BitScan(bits[..n], Clear));
    }
  }

  lemma RankOfSwallowed(a: LineState, b: LineState)
    requires Rank(a) <= Rank(b)
    ensures !b.Swallowed? ==> !a.Swallowed?
  {
  }

  // ---- Formatting ---------------------------------------------------------------------------------------

  /** What is printed of a file keeps the program. */
  lemma FileIsKept(style: Style, ts: seq<Tree>, modes: seq<Mode>, w: nat)
    requires IsStyle(style) && AreFormed(style, ts) && |modes| == |MembersFlow(style, true, ts)|
    requires forall i :: 0 <= i < |ts| ==> !IsBracket(ts[i])
    ensures var pieces := Printed(MembersFlow(style, true, ts), [Break], modes, w);
            && WordsAll(Leaves(pieces)) == ProgramTokensIn(style, true, false, ts)
            && (AreTidy(style, ts) && AreClosed(ts) ==> !PiecesState(pieces).Swallowed?)
            && (IsSpacing(style) ==> AreSetApart(pieces))
  {
    hide *;
    MembersAreSound(style, true, ts);
    InnerTokens(style, ts);
    PrintedWords(MembersFlow(style, true, ts), [Break], modes, w);
    PrintedSwallowsNoMore(MembersFlow(style, true, ts), [Break], modes, w);
    RankOfSwallowed(PiecesState(Printed(MembersFlow(style, true, ts), [Break], modes, w)),
                    BitScan(MembersFlow(style, true, ts), Clear));
    NeverSwallowed(LastKept(ts));
    if IsSpacing(style) {
      NothingIsFree();
      MembersAreApart(style, true, ts, None);
      PrintedIsSetApart(MembersFlow(style, true, ts), [Break], modes, w);
    }
  }

  lemma NothingIsFree()
    ensures IsFree(None)
  {
  }

  lemma NeverSwallowed(last: Option<Tree>)
    ensures !AfterMember(last).Swallowed?
  {
  }

  /**
   Formatting prints the members of the file as a block, each as `TreeFlows` says, and keeps the
   program: whatever the width, the texts that are laid out are the tokens of the tree in order,
   apart from separators, no two of them run together, and none of them stands behind a comment on
   its line.
   */
  method Format(style: Style, root: Tree, width: nat, indentWidth: nat, isWhitespace: char -> bool)
    returns (out: string, ghost canvas: Canvas, ghost trimmed: seq<string>, ghost modes: seq<Mode>)
    requires root.Node? && IsStyle(style) && AreFormed(style, root.children)
    requires forall i :: 0 <= i < |root.children| ==> !IsBracket(root.children[i])
    ensures |modes| == |MembersFlow(style, true, root.children)|
    ensures canvas.pieces == Printed(MembersFlow(style, true, root.children), [Break], modes, indentWidth)
    ensures canvas.anchors == Recorded([], MembersFlow(style, true, root.children), [Break], modes, indentWidth)
    ensures WordsAll(Leaves(canvas.pieces)) == ProgramTokensIn(style, true, false, root.children)
    ensures AreTidy(style, root.children) && AreClosed(root.children) ==> !PiecesState(canvas.pieces).Swallowed?
    ensures IsSpacing(style) ==> AreSetApart(canvas.pieces)
    ensures AreTrimmed(Split(AlignedText(canvas)), trimmed, VerbatimOf(canvas.pieces), isWhitespace)
    ensures out != "" && out[|out| - 1] == NEWLINE
    ensures var body := out[..|out| - 1];
            body <= Join(trimmed) && forall i :: |body| <= i < |Join(trimmed)| ==> Join(trimmed)[i] == NEWLINE
  {
    hide *;
    var doc := LowerContainer(style, root);
    out, canvas, trimmed, modes := Render(doc, width, indentWidth, isWhitespace);
    FileIsKept(style, root.children, modes, indentWidth);
  }
}
