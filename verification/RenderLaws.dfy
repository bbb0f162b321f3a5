/** What the layout promises: fpp_format/src/doc.rs:101-226. */
module RenderLaws {
  import opened Docs
  import opened Rendering

  // ---- Text ---------------------------------------------------------------------

  lemma {:induction false} CountConcat(a: string, b: string)
    ensures CountNewlines(a + b) == CountNewlines(a) + CountNewlines(b)
  {
    if a == "" {
      assert a + b == b;
    } else {
      assert (a + b)[1..] == a[1..] + b;
      CountConcat(a[1..], b);
    }
  }

  lemma TailSnoc(s: string, c: char)
    ensures Tail(s + [c]) == if c == NEWLINE then "" else Tail(s) + [c]
    ensures NEWLINE in s + [c] <==> NEWLINE in s || c == NEWLINE
  {
    assert (s + [c])[..|s|] == s;
  }

  lemma {:induction false} TailConcat(a: string, b: string)
    ensures Tail(a + b) == if NEWLINE in b then Tail(b) else Tail(a) + b
    decreases |b|
  {
    hide Tail;
    if b == "" {
      assert a + b == a && Tail(a) + b == Tail(a);
    } else {
      var init, c := b[..|b| - 1], b[|b| - 1];
      TailConcat(a, init);
      assert b == init + [c] && a + b == (a + init) + [c];
      TailSnoc(a + init, c);
      TailSnoc(init, c);
      if NEWLINE !in init {
        assert Tail(a) + init + [c] == Tail(a) + b;
      }
    }
  }

  /** A text with a newline is its first line, the newline and the rest. */
  lemma {:induction false} HeadSplit(s: string)
    requires NEWLINE in s
    ensures Head(s) + [NEWLINE] <= s
  {
    if s[0] != NEWLINE {
      HeadSplit(s[1..]);
      assert s == [s[0]] + s[1..];
    }
  }

  // ---- Every text, once, in order --------------------------------------------------

  /** The texts of a document, in document order. */
  function Texts(d: Doc): seq<string>
    decreases d, 0
  {
    match d
    case Text(s) => [s]
    case Nest(_, child) => Texts(child)
    case Concat(docs) => TextsAll(docs)
    case Group(child) => Texts(child)
    case AnchorAt(_, child) => Texts(child)
    case _ => []
  }

  function TextsAll(docs: seq<Doc>): seq<string>
    decreases docs
  {
    if docs == [] then [] else Texts(docs[0]) + TextsAll(docs[1..])
  }

  /** The texts among the pieces of an output. */
  function Leaves(pieces: seq<Piece>): seq<string> {
    if pieces == [] then
      []
    else
      var last := pieces[|pieces| - 1];
      Leaves(pieces[..|pieces| - 1]) + if last.Leaf? then [last.s] else []
  }

  lemma LeavesSnoc(pieces: seq<Piece>, p: Piece)
    ensures Leaves(pieces + [p]) == Leaves(pieces) + if p.Leaf? then [p.s] else []
  {
    assert (pieces + [p])[..|pieces|] == pieces;
  }

  /** Whatever the width and the mode, a layout emits each text once, in document order. */
  lemma {:induction false} LayoutEmitsTexts(d: Doc, ind: int, mode: Mode, rest: seq<Item>, c: Canvas, cfg: Config)
    ensures Leaves(Layout(d, ind, mode, rest, c, cfg).pieces) == Leaves(c.pieces) + Texts(d)
    decreases d, 0
  {
    hide Fits, Spaces, Leaves;
    match d
    case Nil =>
    case Text(s) => LeavesSnoc(c.pieces, Leaf(s));
    case Line(flat, cont) => LeavesOfBreak(c, flat, cont, ind, cfg.indentWidth);
    case Hard(cont) => LeavesOfBreak(c, "", cont, ind, cfg.indentWidth);
    case Nest(n, child) => LayoutEmitsTexts(child, ind + n, mode, rest, c, cfg);
    case Concat(docs) => LayoutSeqEmitsTexts(docs, ind, mode, rest, c, cfg);
    case Group(child) =>
      LayoutEmitsTexts(child, ind, if Fits(cfg.width - c.col, child, rest) then Flat else Break, rest, c, cfg);
    case AnchorAt(kind, child) =>
      LayoutEmitsTexts(child, ind, mode, rest, c.(anchors := c.anchors + [Anchor(c.line, c.col, ind, kind)]), cfg);
  }

  lemma LeavesOfBreak(c: Canvas, flat: FlatText, cont: bool, ind: int, indentWidth: nat)
    ensures Leaves(EmitBreak(c, cont, ind, indentWidth).pieces) == Leaves(c.pieces)
    ensures Leaves(EmitFlat(c, flat).pieces) == Leaves(c.pieces)
  {
    hide Spaces, Leaves;
    var pieces := EmitBreak(c, cont, ind, indentWidth).pieces;
    LeavesSnoc(c.pieces, pieces[|c.pieces|]);
    LeavesSnoc(c.pieces, Sep(flat));
  }

  lemma {:induction false} LayoutSeqEmitsTexts(docs: seq<Doc>, ind: int, mode: Mode, rest: seq<Item>,
                                               c: Canvas, cfg: Config)
    ensures Leaves(LayoutSeq(docs, ind, mode, rest, c, cfg).pieces) == Leaves(c.pieces) + TextsAll(docs)
    decreases docs
  {
    hide Leaves, Layout, Texts;
    if docs != [] {
      var rest' := rest + ItemsOf(docs[1..], ind, mode);
      var c' := Layout(docs[0], ind, mode, rest', c, cfg);
      LayoutEmitsTexts(docs[0], ind, mode, rest', c, cfg);
      LayoutSeqEmitsTexts(docs[1..], ind, mode, rest, c', cfg);
    }
  }

  // ---- True positions ----------------------------------------------------------------

  /** Whether a position is where `out` ends: its newlines, and the characters after the last. */
  predicate EndsAt(out: string, line: nat, col: nat) {
    line == CountNewlines(out) && col == |Tail(out)|
  }

  /** The output that was there when an anchor was recorded. */
  ghost predicate IsTruePosition(a: Anchor, out: string) {
    exists n :: 0 <= n <= |out| && EndsAt(out[..n], a.line, a.col)
  }

  /** The lines whose end lies inside a text. */
  function VerbatimOf(pieces: seq<Piece>): seq<nat> {
    if pieces == [] then
      []
    else
      var init, last := pieces[..|pieces| - 1], pieces[|pieces| - 1];
      VerbatimOf(init)
      + if last.Leaf? then seq(CountNewlines(last.s), i => CountNewlines(Output(init)) + i) else []
  }

  ghost predicate Increasing(s: seq<nat>, bound: nat) {
    && (forall i, j :: 0 <= i < j < |s| ==> s[i] < s[j])
    && (forall i :: 0 <= i < |s| ==> s[i] < bound)
  }

  /** The renderer's bookkeeping is true of its output. */
  ghost predicate IsTrue(c: Canvas) {
    && EndsAt(Output(c.pieces), c.line, c.col)
    && (forall a :: a in c.anchors ==> IsTruePosition(a, Output(c.pieces)))
    && c.verbatim == VerbatimOf(c.pieces)
    && Increasing(c.verbatim, c.line)
  }

  lemma PositionStaysTrue(a: Anchor, out: string, more: string)
    requires IsTruePosition(a, out)
    ensures IsTruePosition(a, out + more)
  {
    var n :| 0 <= n <= |out| && EndsAt(out[..n], a.line, a.col);
    assert (out + more)[..n] == out[..n];
  }

  /** Adding a piece moves the end of the output past it. */
  lemma AddPiece(c: Canvas, c': Canvas, p: Piece)
    requires IsTrue(c) && c'.pieces == c.pieces + [p] && c'.anchors == c.anchors
    requires c'.line == c.line + CountNewlines(p.s)
    requires c'.col == if NEWLINE in p.s then |Tail(p.s)| else c.col + |p.s|
    requires c'.verbatim == c.verbatim + if p.Leaf? then seq(CountNewlines(p.s), i => c.line + i) else []
    ensures IsTrue(c')
  {
    hide CountNewlines, Tail, IsTruePosition;
    var out := Output(c.pieces);
    OutputSnoc(c.pieces, p);
    CountConcat(out, p.s);
    TailConcat(out, p.s);
    forall a | a in c'.anchors
      ensures IsTruePosition(a, out + p.s)
    {
      PositionStaysTrue(a, out, p.s);
    }
    assert c'.pieces[..|c.pieces|] == c.pieces;
    assert c'.verbatim == VerbatimOf(c'.pieces);
  }

  lemma BreakText(cont: bool, spaces: nat)
    ensures var s := (if cont then " \\" else "") + [NEWLINE] + Spaces(spaces);
            CountNewlines(s) == 1 && |Tail(s)| == spaces && NEWLINE in s
  {
    hide Tail, CountNewlines;
    var a, b := if cont then " \\" else "", [NEWLINE] + Spaces(spaces);
    var s := a + [NEWLINE] + Spaces(spaces);
    assert s == a + b;
    CountConcat(a, b);
    CountConcat([NEWLINE], Spaces(spaces));
    OneNewline();
    TailConcat(a, b);
    TailConcat([NEWLINE], Spaces(spaces));
    assert s[|a|] == NEWLINE;
  }

  lemma OneNewline()
    ensures CountNewlines([NEWLINE]) == 1 && Tail([NEWLINE]) == ""
  {
  }

  /** The layout keeps `col` and `line` equal to where the output ends, so every anchor is
      recorded at a true position and the verbatim lines are those of the texts, in order. */
  lemma {:induction false} LayoutIsTrue(d: Doc, ind: int, mode: Mode, rest: seq<Item>, c: Canvas, cfg: Config)
    requires IsTrue(c)
    ensures IsTrue(Layout(d, ind, mode, rest, c, cfg))
    decreases d, 0
  {
    hide Fits, Spaces, IsTrue, CountNewlines, Tail, Output;
    match d
    case Nil =>
    case Text(s) =>
      AddPiece(c, EmitText(c, s), Leaf(s));
    case Line(flat, cont) =>
      if mode.Flat? {
        AddPiece(c, EmitFlat(c, flat), Sep(flat));
      } else {
        BreakIsTrue(c, cont, ind, cfg.indentWidth);
      }
    case Hard(cont) =>
      BreakIsTrue(c, cont, ind, cfg.indentWidth);
    case Nest(n, child) =>
      LayoutIsTrue(child, ind + n, mode, rest, c, cfg);
    case Concat(docs) =>
      LayoutSeqIsTrue(docs, ind, mode, rest, c, cfg);
    case Group(child) =>
      LayoutIsTrue(child, ind, if Fits(cfg.width - c.col, child, rest) then Flat else Break, rest, c, cfg);
    case AnchorAt(kind, child) =>
      var a := Anchor(c.line, c.col, ind, kind);
      AnchorIsTrue(c, a);
      LayoutIsTrue(child, ind, mode, rest, c.(anchors := c.anchors + [a]), cfg);
  }

  lemma AnchorIsTrue(c: Canvas, a: Anchor)
    requires IsTrue(c) && a.line == c.line && a.col == c.col
    ensures IsTrue(c.(anchors := c.anchors + [a]))
  {
    hide CountNewlines, Tail, Output, VerbatimOf;
    var out := Output(c.pieces);
    assert out[..|out|] == out;
    assert IsTruePosition(a, out);
  }

  lemma BreakIsTrue(c: Canvas, cont: bool, ind: int, indentWidth: nat)
    requires IsTrue(c)
    ensures IsTrue(EmitBreak(c, cont, ind, indentWidth))
  {
    hide Spaces, IsTrue, CountNewlines, Tail, Output;
    var c' := EmitBreak(c, cont, ind, indentWidth);
    BreakText(cont, Max0(ind) * indentWidth);
    AddPiece(c, c', c'.pieces[|c.pieces|]);
  }

  lemma {:induction false} LayoutSeqIsTrue(docs: seq<Doc>, ind: int, mode: Mode, rest: seq<Item>,
                                           c: Canvas, cfg: Config)
    requires IsTrue(c)
    ensures IsTrue(LayoutSeq(docs, ind, mode, rest, c, cfg))
    decreases docs
  {
    hide IsTrue, Layout;
    if docs != [] {
      var rest' := rest + ItemsOf(docs[1..], ind, mode);
      LayoutIsTrue(docs[0], ind, mode, rest', c, cfg);
      LayoutSeqIsTrue(docs[1..], ind, mode, rest, Layout(docs[0], ind, mode, rest', c, cfg), cfg);
    }
  }

  // ---- Flat groups ----------------------------------------------------------------------

  /** Whether no text of a document spans lines. */
  predicate IsSingleLine(d: Doc) {
    forall s :: s in Texts(d) ==> NEWLINE !in s
  }

  /** The layout with every group flat, which consults no width. */
  function FlatLayout(d: Doc, ind: int, c: Canvas, indentWidth: nat): Canvas
    decreases d, 0
  {
    match d
    case Nil => c
    case Text(s) => EmitText(c, s)
    case Line(flat, _) => EmitFlat(c, flat)
    case Hard(cont) => EmitBreak(c, cont, ind, indentWidth)
    case Nest(n, child) => FlatLayout(child, ind + n, c, indentWidth)
    case Concat(docs) => FlatLayoutSeq(docs, ind, c, indentWidth)
    case Group(child) => FlatLayout(child, ind, c, indentWidth)
    case AnchorAt(kind, child) =>
      FlatLayout(child, ind, c.(anchors := c.anchors + [Anchor(c.line, c.col, ind, kind)]), indentWidth)
  }

  function FlatLayoutSeq(docs: seq<Doc>, ind: int, c: Canvas, indentWidth: nat): Canvas
    decreases docs
  {
    if docs == [] then c else FlatLayoutSeq(docs[1..], ind, FlatLayout(docs[0], ind, c, indentWidth), indentWidth)
  }

  /** In a flat group without texts that span lines, every nested group is flat too, and the
      whole group stays on the line. */
  lemma {:induction false} NestedGroupsAreFlat(d: Doc, ind: int, rest: seq<Item>, c: Canvas, cfg: Config)
    requires IsSingleLine(d) && Fits(cfg.width - c.col, d, rest)
    ensures FirstLine(d, Flat).ending.Open?
    ensures var r := Layout(d, ind, Flat, rest, c, cfg);
            && r == FlatLayout(d, ind, c, cfg.indentWidth)
            && r.line == c.line && r.col == c.col + |FirstLine(d, Flat).text|
    decreases d, 0
  {
    hide Spaces, FirstLineOf;
    match d
    case Concat(docs) =>
      FlatSequence(docs, ind, rest, c, cfg);
    case Group(child) =>
      NestedGroupsAreFlat(child, ind, rest, c, cfg);
    case Nest(n, child) =>
      NestedGroupsAreFlat(child, ind + n, rest, c, cfg);
    case AnchorAt(kind, child) =>
      NestedGroupsAreFlat(child, ind, rest, c.(anchors := c.anchors + [Anchor(c.line, c.col, ind, kind)]), cfg);
    case _ =>
  }

  lemma {:induction false} FlatSequence(docs: seq<Doc>, ind: int, rest: seq<Item>, c: Canvas, cfg: Config)
    requires forall s :: s in TextsAll(docs) ==> NEWLINE !in s
    requires var s := Append(FirstLineAll(docs, Flat), FirstLineOf(rest));
             |s.text| <= cfg.width - c.col && !s.ending.Blocked?
    ensures FirstLineAll(docs, Flat).ending.Open?
    ensures var r := LayoutSeq(docs, ind, Flat, rest, c, cfg);
            && r == FlatLayoutSeq(docs, ind, c, cfg.indentWidth)
            && r.line == c.line && r.col == c.col + |FirstLineAll(docs, Flat).text|
    decreases docs
  {
    hide FirstLine, FirstLineOf, Layout, FlatLayout;
    if docs != [] {
      var rest' := rest + ItemsOf(docs[1..], ind, Flat);
      ItemsFirstLine(docs[1..], ind, Flat, rest);
      AppendAssociates(FirstLine(docs[0], Flat), FirstLineAll(docs[1..], Flat), FirstLineOf(rest));
      NestedGroupsAreFlat(docs[0], ind, rest', c, cfg);
      FlatSequence(docs[1..], ind, rest, Layout(docs[0], ind, Flat, rest', c, cfg), cfg);
    }
  }

  // ---- Lines within the width ---------------------------------------------------------

  lemma {:induction false} OutputPrefix(a: seq<Piece>, b: seq<Piece>)
    requires a <= b
    ensures Output(a) <= Output(b)
    decreases |b|
  {
    if |a| < |b| {
      OutputPrefix(a, b[..|b| - 1]);
    } else {
      assert a == b;
    }
  }

  lemma {:induction false} LayoutGrows(d: Doc, ind: int, mode: Mode, rest: seq<Item>, c: Canvas, cfg: Config)
    ensures c.pieces <= Layout(d, ind, mode, rest, c, cfg).pieces
    decreases d, 0
  {
    hide Fits, Spaces;
    match d
    case Nest(n, child) => LayoutGrows(child, ind + n, mode, rest, c, cfg);
    case Concat(docs) => LayoutSeqGrows(docs, ind, mode, rest, c, cfg);
    case Group(child) =>
      LayoutGrows(child, ind, if Fits(cfg.width - c.col, child, rest) then Flat else Break, rest, c, cfg);
    case AnchorAt(kind, child) =>
      LayoutGrows(child, ind, mode, rest, c.(anchors := c.anchors + [Anchor(c.line, c.col, ind, kind)]), cfg);
    case _ =>
  }

  lemma {:induction false} LayoutSeqGrows(docs: seq<Doc>, ind: int, mode: Mode, rest: seq<Item>, c: Canvas, cfg: Config)
    ensures c.pieces <= LayoutSeq(docs, ind, mode, rest, c, cfg).pieces
    decreases docs
  {
    hide Layout;
    if docs != [] {
      var rest' := rest + ItemsOf(docs[1..], ind, mode);
      LayoutGrows(docs[0], ind, mode, rest', c, cfg);
      LayoutSeqGrows(docs[1..], ind, mode, rest, Layout(docs[0], ind, mode, rest', c, cfg), cfg);
    }
  }

  lemma {:induction false} LayoutStackGrows(stack: seq<Item>, c: Canvas, cfg: Config)
    ensures c.pieces <= LayoutStack(stack, c, cfg).pieces
    decreases |stack|
  {
    hide Layout;
    if stack != [] {
      var top, rest := stack[|stack| - 1], stack[..|stack| - 1];
      LayoutGrows(top.doc, top.ind, top.mode, rest, c, cfg);
      LayoutStackGrows(rest, Layout(top.doc, top.ind, top.mode, rest, c, cfg), cfg);
    }
  }

  /** Whether a line is over: at the end of the output, or at a newline, which a
      continuation mark may precede. */
  predicate EndsLine(tail: string, ending: Ending) {
    if ending.Open? then tail == "" else [NEWLINE] <= tail || " \\" + [NEWLINE] <= tail
  }

  lemma FirstPiece(c: Canvas, p: Piece, final: Canvas) returns (more: string)
    requires c.pieces + [p] <= final.pieces
    ensures Output(final.pieces) == Output(c.pieces) + p.s + more
  {
    OutputPrefix(c.pieces + [p], final.pieces);
    OutputSnoc(c.pieces, p);
    more := Output(final.pieces)[|Output(c.pieces + [p])|..];
  }

  /** When what is measured ahead fits, the current line is completed by exactly that. */
  lemma {:induction false} LineIsCompleted(stack: seq<Item>, c: Canvas, cfg: Config) returns (tail: string)
    requires WorkFits(cfg.width - c.col, stack)
    ensures Output(LayoutStack(stack, c, cfg).pieces) == Output(c.pieces) + FirstLineOf(stack).text + tail
    ensures EndsLine(tail, FirstLineOf(stack).ending)
    decreases StackSize(stack)
  {
    hide Layout, LayoutStack, LayoutSeq, FirstLine, FirstLineOf, Fits, Size, StackSize, Output, EmitText, EmitBreak,
      CountNewlines, Tail, Head;
    if stack == [] {
      EmptyLayout(c, cfg);
      NothingAhead();
      tail := "";
      return;
    }
    var top, rest := stack[|stack| - 1], stack[..|stack| - 1];
    assert stack == rest + [top];
    PushLayout(rest, top, c, cfg);
    PushSize(rest, top);
    PushFirstLine(rest, top);
    TopLayout(top, rest, c, cfg);
    TopFirstLine(top);
    var d := top.doc;
    match d {
      case Nil =>
        tail := LineIsCompleted(rest, c, cfg);
      case Text(s) =>
        tail := TextCompletes(stack, rest, s, c, cfg);
      case Concat(docs) =>
        ItemsLayout(docs, top.ind, top.mode, rest, c, cfg);
        ItemsFirstLine(docs, top.ind, top.mode, rest);
        ItemsSize(docs, top.ind, top.mode, rest);
        tail := LineIsCompleted(rest + ItemsOf(docs, top.ind, top.mode), c, cfg);
      case Nest(n, child) =>
        var item := Item(top.ind + n, top.mode, child);
        PushLayout(rest, item, c, cfg);
        PushChild(rest, top, item);
        tail := LineIsCompleted(rest + [item], c, cfg);
      case Group(child) =>
        var item := Item(top.ind, Flat, child);
        FitsIsWork(cfg.width - c.col, child, rest, item);
        PushLayout(rest, item, c, cfg);
        PushChild(rest, top, item);
        tail := LineIsCompleted(rest + [item], c, cfg);
      case AnchorAt(kind, child) =>
        var item := Item(top.ind, top.mode, child);
        var c' := c.(anchors := c.anchors + [Anchor(c.line, c.col, top.ind, kind)]);
        PushLayout(rest, item, c', cfg);
        PushChild(rest, top, item);
        tail := LineIsCompleted(rest + [item], c', cfg);
      case Line(flat, cont) =>
        if top.mode == Flat {
          var c' := EmitFlat(c, flat);
          OutputSnoc(c.pieces, Sep(flat));
          tail := LineIsCompleted(rest, c', cfg);
        } else {
          tail := BreakCompletes(rest, c, cont, top.ind, cfg);
        }
      case Hard(cont) =>
        tail := BreakCompletes(rest, c, cont, top.ind, cfg);
    }
  }

  lemma NothingAhead()
    ensures FirstLineOf([]) == Stretch("", Open)
  {
  }

  lemma TopFirstLine(top: Item)
    ensures var s, d := FirstLine(top.doc, top.mode), top.doc;
            && (d.Nil? ==> s == Stretch("", Open))
            && (d.Text? ==> s == Stretch(Head(d.s), if NEWLINE in d.s then Newline else Open))
            && (d.Line? ==> s == if top.mode.Flat? then Stretch(d.flat, Open) else Stretch("", Newline))
            && (d.Hard? ==> s == Stretch("", if top.mode.Flat? then Blocked else Newline))
            && (d.Concat? ==> s == FirstLineAll(d.docs, top.mode))
  {
  }

  lemma FitsIsWork(rem: int, x: Doc, rest: seq<Item>, item: Item)
    requires item.doc == x && item.mode == Flat
    ensures Fits(rem, x, rest) == WorkFits(rem, rest + [item])
  {
    PushFirstLine(rest, item);
  }

  lemma BreakCompletes(rest: seq<Item>, c: Canvas, cont: bool, ind: int, cfg: Config) returns (tail: string)
    ensures Output(LayoutStack(rest, EmitBreak(c, cont, ind, cfg.indentWidth), cfg).pieces) == Output(c.pieces) + tail
    ensures EndsLine(tail, Newline)
  {
    hide LayoutStack, Output, Spaces;
    var c' := EmitBreak(c, cont, ind, cfg.indentWidth);
    LayoutStackGrows(rest, c', cfg);
    var p := c'.pieces[|c.pieces|];
    var more := FirstPiece(c, p, LayoutStack(rest, c', cfg));
    tail := p.s + more;
    var mark := (if cont then " \\" else "") + [NEWLINE];
    assert p.s == mark + Spaces(Max0(ind) * cfg.indentWidth);
    assert mark <= tail;
  }

  lemma TextCompletes(stack: seq<Item>, rest: seq<Item>, s: string, c: Canvas, cfg: Config) returns (tail: string)
    requires WorkFits(cfg.width - c.col, stack)
    requires StackSize(rest) < StackSize(stack)
    requires FirstLineOf(stack)
          == Append(Stretch(Head(s), if NEWLINE in s then Newline else Open), FirstLineOf(rest))
    ensures Output(LayoutStack(rest, EmitText(c, s), cfg).pieces) == Output(c.pieces) + FirstLineOf(stack).text + tail
    ensures EndsLine(tail, FirstLineOf(stack).ending)
    decreases StackSize(stack), 0
  {
    hide LayoutStack, Output, FirstLineOf, StackSize, Tail, Head;
    var c' := EmitText(c, s);
    if NEWLINE in s {
      LayoutStackGrows(rest, c', cfg);
      var more := FirstPiece(c, Leaf(s), LayoutStack(rest, c', cfg));
      HeadSplit(s);
      tail := s[|Head(s)|..] + more;
      assert s == Head(s) + s[|Head(s)|..];
      assert s[|Head(s)|] == (Head(s) + [NEWLINE])[|Head(s)|] == NEWLINE;
      assert tail[0] == NEWLINE;
      assert [NEWLINE] <= tail;
    } else {
      OutputSnoc(c.pieces, Leaf(s));
      tail := LineIsCompleted(rest, c', cfg);
    }
  }

  /** A line that holds a flat group is no wider than `width`, not counting a continuation
      mark: when a group is laid flat, its line ends as measured. */
  lemma FlatGroupLineFits(rest: seq<Item>, ind: int, child: Doc, c: Canvas, cfg: Config)
    returns (line: string, tail: string)
    requires IsTrue(c) && Fits(cfg.width - c.col, child, rest)
    ensures var final := Output(LayoutStack(rest + [Item(ind, Break, Group(child))], c, cfg).pieces);
            && final == Output(c.pieces)[..|Output(c.pieces)| - |Tail(Output(c.pieces))|] + line + tail
            && EndsLine(tail, Append(FirstLine(child, Flat), FirstLineOf(rest)).ending)
    ensures Tail(Output(c.pieces)) <= line && NEWLINE !in line && |line| <= cfg.width
  {
    hide Layout, LayoutStack, FirstLine, Fits, Output, Tail, CountNewlines;
    var top := Item(ind, Break, Group(child));
    var item := Item(ind, Flat, child);
    PushLayout(rest, top, c, cfg);
    TopLayout(top, rest, c, cfg);
    PushLayout(rest, item, c, cfg);
    FitsIsWork(cfg.width - c.col, child, rest, item);
    PushFirstLine(rest, item);
    tail := LineIsCompleted(rest + [item], c, cfg);
    var out := Output(c.pieces);
    var ahead := FirstLineOf(rest + [item]).text;
    TailIsSuffix(out);
    FirstLineIsFlat(rest + [item]);
    line := Tail(out) + ahead;
    assert out[..|out| - |Tail(out)|] + (Tail(out) + ahead) == out + ahead;
  }

  /**
   A group is laid flat exactly if the line that it would then complete is no wider than the width and
   does not run into a hard break; then that line is what is printed, and else the group is broken.
   */
  lemma GroupIsFlatIfItFits(rest: seq<Item>, ind: int, child: Doc, c: Canvas, cfg: Config)
    returns (flat: bool, line: string, tail: string)
    requires IsTrue(c)
    ensures var ahead := Append(FirstLine(child, Flat), FirstLineOf(rest));
            && line == Tail(Output(c.pieces)) + ahead.text
            && (flat <==> |line| <= cfg.width && !ahead.ending.Blocked?)
            && (flat ==> EndsLine(tail, ahead.ending))
    ensures var final := LayoutStack(rest + [Item(ind, Break, Group(child))], c, cfg);
            && final == LayoutStack(rest + [Item(ind, if flat then Flat else Break, child)], c, cfg)
            && (flat ==> Output(final.pieces) == Output(c.pieces)[..|Output(c.pieces)| - |Tail(Output(c.pieces))|] + line + tail)
  {
    hide Layout, LayoutStack, FirstLine, FirstLineOf, Fits, Output, Tail, CountNewlines, EndsLine;
    var top := Item(ind, Break, Group(child));
    flat := Fits(cfg.width - c.col, child, rest);
    var item := Item(ind, if flat then Flat else Break, child);
    PushLayout(rest, top, c, cfg);
    TopLayout(top, rest, c, cfg);
    PushLayout(rest, item, c, cfg);
    FitsFromHere(c, cfg, child, rest);
    var out := Output(c.pieces);
    line := Tail(out) + Append(FirstLine(child, Flat), FirstLineOf(rest)).text;
    tail := "";
    TailIsSuffix(out);
    if flat {
      FitsIsWork(cfg.width - c.col, child, rest, item);
      PushFirstLine(rest, item);
      tail := LineIsCompleted(rest + [item], c, cfg);
      var ahead := FirstLineOf(rest + [item]).text;
      assert out[..|out| - |Tail(out)|] + (Tail(out) + ahead) == out + ahead;
    }
  }

  lemma FitsFromHere(c: Canvas, cfg: Config, child: Doc, rest: seq<Item>)
    requires IsTrue(c)
    ensures var ahead := Append(FirstLine(child, Flat), FirstLineOf(rest));
            Fits(cfg.width - c.col, child, rest) <==> |Tail(Output(c.pieces)) + ahead.text| <= cfg.width && !ahead.ending.Blocked?
  {
    hide FirstLine, FirstLineOf, Output, Tail;
  }

  lemma {:induction false} TailIsSuffix(s: string)
    ensures |Tail(s)| <= |s| && s == s[..|s| - |Tail(s)|] + Tail(s)
  {
    if s != "" && s[|s| - 1] != NEWLINE {
      TailIsSuffix(s[..|s| - 1]);
    }
  }

  lemma {:induction false} FirstLineIsFlat(stack: seq<Item>)
    ensures NEWLINE !in FirstLineOf(stack).text
    decreases |stack|
  {
    hide FirstLine;
    if stack != [] {
      var top := stack[|stack| - 1];
      FirstLineOfDocIsFlat(top.doc, top.mode);
      FirstLineIsFlat(stack[..|stack| - 1]);
    }
  }

  lemma {:induction false} FirstLineOfDocIsFlat(d: Doc, mode: Mode)
    ensures NEWLINE !in FirstLine(d, mode).text
    decreases d, 0
  {
    match d
    case Nest(_, child) => FirstLineOfDocIsFlat(child, mode);
    case Group(child) => FirstLineOfDocIsFlat(child, Flat);
    case AnchorAt(_, child) => FirstLineOfDocIsFlat(child, mode);
    case Concat(docs) => FirstLineOfDocsIsFlat(docs, mode);
    case _ =>
  }

  lemma {:induction false} FirstLineOfDocsIsFlat(docs: seq<Doc>, mode: Mode)
    ensures NEWLINE !in FirstLineAll(docs, mode).text
    decreases docs
  {
    if docs != [] {
      FirstLineOfDocIsFlat(docs[0], mode);
      FirstLineOfDocsIsFlat(docs[1..], mode);
    }
  }
}
