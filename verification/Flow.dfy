/** What a document prints, whatever its layout (fpp_format/src/doc.rs:8-183). */
module Flows {
  import opened Wrappers
  import opened Docs
  import opened Rendering
  import opened RenderLaws

  /**
   A document in a row: its texts, the places where it may or must break, its groups, and where
   anchors are recorded. `depth` counts the nesting around a place.
   */
  datatype Bit =
    | Word(s: string)
    | Gap(flat: Option<FlatText>, cont: bool, depth: int)
    | Mark(kind: AnchorKind, depth: int)
    | Enter
    | Leave

  function ShiftBit(b: Bit, n: int): Bit {
    match b
    case Gap(flat, cont, depth) => Gap(flat, cont, depth + n)
    case Mark(kind, depth) => Mark(kind, depth + n)
    case _ => b
  }

  /** The same, `n` levels deeper. */
  function Shift(bits: seq<Bit>, n: int): (r: seq<Bit>)
    ensures |r| == |bits| && forall i :: 0 <= i < |bits| ==> r[i] == ShiftBit(bits[i], n)
  {
    seq(|bits|, i requires 0 <= i < |bits| => ShiftBit(bits[i], n))
  }

  lemma ShiftConcat(a: seq<Bit>, b: seq<Bit>, n: int)
    ensures Shift(a + b, n) == Shift(a, n) + Shift(b, n)
  {
  }

  lemma ShiftTwice(a: seq<Bit>, n: int, m: int)
    ensures Shift(Shift(a, n), m) == Shift(a, n + m) && Shift(a, 0) == a
  {
  }

  function Flow(d: Doc): seq<Bit>
    decreases d, 0
  {
    match d
    case Nil => []
    case Text(s) => [Word(s)]
    case Line(flat, cont) => [Gap(Some(flat), cont, 0)]
    case Hard(cont) => [Gap(None, cont, 0)]
    case Nest(n, child) => Shift(Flow(child), n)
    case Concat(docs) => FlowAll(docs)
    case Group(child) => [Enter] + Flow(child) + [Leave]
    case AnchorAt(kind, child) => [Mark(kind, 0)] + Flow(child)
  }

  function FlowAll(docs: seq<Doc>): seq<Bit>
    decreases docs
  {
    if docs == [] then [] else FlowAll(docs[..|docs| - 1]) + Flow(docs[|docs| - 1])
  }

  lemma FlowSnoc(docs: seq<Doc>, d: Doc)
    ensures FlowAll(docs + [d]) == FlowAll(docs) + Flow(d) && FlowAll([]) == []
  {
    hide Flow;
    assert (docs + [d])[..|docs|] == docs;
  }

  lemma {:induction false} FlowConcat(a: seq<Doc>, b: seq<Doc>)
    ensures FlowAll(a + b) == FlowAll(a) + FlowAll(b)
    decreases |b|
  {
    hide Flow;
    if b == [] {
      assert a + b == a;
    } else {
      assert (a + b)[..|a + b| - 1] == a + b[..|b| - 1];
      FlowConcat(a, b[..|b| - 1]);
      assert FlowAll(a) + FlowAll(b[..|b| - 1]) + Flow(b[|b| - 1]) == FlowAll(a) + (FlowAll(b[..|b| - 1]) + Flow(b[|b| - 1]));
    }
  }

  lemma FlowCons(d: Doc, docs: seq<Doc>)
    ensures FlowAll([d] + docs) == Flow(d) + FlowAll(docs)
  {
    hide Flow, FlowAll;
    FlowConcat([d], docs);
    FlowSnoc([], d);
    assert [] + [d] == [d] && [] + Flow(d) == Flow(d);
  }

  // ---- Printing -------------------------------------------------------------------------

  /** A broken line: a mark if it is continued, the end of the line, and the indent of the next. */
  function Broken(cont: bool, depth: int, indentWidth: nat): string {
    (if cont then " \\" else "") + "\n" + Spaces(Max0(depth) * indentWidth)
  }

  /** The open groups after one more bit. */
  function Next(open: seq<Mode>, b: Bit, m: Mode): seq<Mode> {
    match b
    case Enter => open + [m]
    case Leave => if open == [] then [] else open[..|open| - 1]
    case _ => open
  }

  /** The modes of the open groups after some bits, the innermost last. `modes[i]` is that of a group
      that is entered at bit `i`. */
  function OpenGroups(bits: seq<Bit>, outer: seq<Mode>, modes: seq<Mode>): (r: seq<Mode>)
    requires |modes| == |bits|
  {
    if bits == [] then
      outer
    else
      var n := |bits| - 1;
      Next(OpenGroups(bits[..n], outer, modes[..n]), bits[n], modes[n])
  }

  /** Whether a gap stays on its line: it may, and its group does. */
  predicate IsFlat(flat: Option<FlatText>, open: seq<Mode>) {
    flat.Some? && open != [] && open[|open| - 1].Flat?
  }

  /** A text as it is; a gap flat if its group is and it may be, and else broken. */
  function PieceOf(b: Bit, open: seq<Mode>, indentWidth: nat): seq<Piece> {
    match b
    case Word(s) => [Leaf(s)]
    case Gap(flat, cont, depth) =>
      if IsFlat(flat, open) then [Sep(flat.value)] else [Sep(Broken(cont, depth, indentWidth))]
    case _ => []
  }

  function Printed(bits: seq<Bit>, outer: seq<Mode>, modes: seq<Mode>, indentWidth: nat): seq<Piece>
    requires |modes| == |bits|
  {
    if bits == [] then
      []
    else
      var n := |bits| - 1;
      Printed(bits[..n], outer, modes[..n], indentWidth)
      + PieceOf(bits[n], OpenGroups(bits[..n], outer, modes[..n]), indentWidth)
  }

  lemma {:induction false} PrintedConcat(a: seq<Bit>, b: seq<Bit>, outer: seq<Mode>, ma: seq<Mode>, mb: seq<Mode>, w: nat)
    requires |ma| == |a| && |mb| == |b|
    ensures OpenGroups(a + b, outer, ma + mb) == OpenGroups(b, OpenGroups(a, outer, ma), mb)
    ensures Printed(a + b, outer, ma + mb, w) == Printed(a, outer, ma, w) + Printed(b, OpenGroups(a, outer, ma), mb, w)
    decreases |b|
  {
    hide PieceOf, Next, OpenGroups, Printed;
    if b == [] {
      assert a + b == a && ma + mb == ma;
      PrintedOne(Enter, OpenGroups(a, outer, ma), Flat, w);
      assert Printed(a, outer, ma, w) + [] == Printed(a, outer, ma, w);
    } else {
      var n := |b| - 1;
      PrintedConcat(a, b[..n], outer, ma, mb[..n], w);
      PrintedSnoc(a + b[..n], b[n], outer, ma + mb[..n], mb[n], w);
      PrintedSnoc(b[..n], b[n], OpenGroups(a, outer, ma), mb[..n], mb[n], w);
      assert b == b[..n] + [b[n]] && mb == mb[..n] + [mb[n]];
      assert a + b == a + b[..n] + [b[n]] && ma + mb == ma + mb[..n] + [mb[n]];
      var piece := PieceOf(b[n], OpenGroups(a + b[..n], outer, ma + mb[..n]), w);
      Regroup(Printed(a, outer, ma, w), Printed(b[..n], OpenGroups(a, outer, ma), mb[..n], w), piece);
    }
  }

  lemma Regroup<T>(a: seq<T>, b: seq<T>, c: seq<T>)
    ensures a + b + c == a + (b + c)
  {
  }

  lemma PrintedSnoc(bits: seq<Bit>, b: Bit, outer: seq<Mode>, modes: seq<Mode>, m: Mode, w: nat)
    requires |modes| == |bits|
    ensures OpenGroups(bits + [b], outer, modes + [m]) == Next(OpenGroups(bits, outer, modes), b, m)
    ensures Printed(bits + [b], outer, modes + [m], w) == Printed(bits, outer, modes, w) + PieceOf(b, OpenGroups(bits, outer, modes), w)
  {
    hide PieceOf, Next;
    assert (bits + [b])[..|bits|] == bits && (modes + [m])[..|bits|] == modes;
  }

  lemma PrintedOne(b: Bit, outer: seq<Mode>, m: Mode, w: nat)
    ensures Printed([b], outer, [m], w) == PieceOf(b, outer, w)
    ensures OpenGroups([b], outer, [m]) == Next(outer, b, m)
    ensures Printed([], outer, [], w) == [] && OpenGroups([], outer, []) == outer
  {
    hide PieceOf;
    assert [b][..0] == [] && [m][..0] == [];
  }

  /** A group between its brackets prints in its own mode, and leaves the others as they were. */
  lemma PrintedGroup(inner: seq<Bit>, outer: seq<Mode>, m: Mode, modes: seq<Mode>, w: nat)
    requires |modes| == |inner| && OpenGroups(inner, outer + [m], modes) == outer + [m]
    ensures Printed([Enter] + inner + [Leave], outer, [m] + modes + [m], w) == Printed(inner, outer + [m], modes, w)
    ensures OpenGroups([Enter] + inner + [Leave], outer, [m] + modes + [m]) == outer
  {
    hide Printed, OpenGroups;
    PrintedOne(Enter, outer, m, w);
    PrintedOne(Leave, outer + [m], m, w);
    PrintedConcat([Enter], inner, outer, [m], modes, w);
    PrintedConcat([Enter] + inner, [Leave], outer, [m] + modes, [m], w);
    assert (outer + [m])[..|outer|] == outer;
    var pieces := Printed(inner, outer + [m], modes, w);
    assert [] + pieces + [] == pieces;
  }

  /** Where the output ends after some pieces, as an anchor there. */
  function AnchorAfter(pieces: seq<Piece>, kind: AnchorKind, level: int): Anchor {
    Anchor(CountNewlines(Output(pieces)), |Tail(Output(pieces))|, level, kind)
  }

  /** The anchors of the marks: each is where the output before its mark ends, and has the nesting as its level. */
  function Recorded(before: seq<Piece>, bits: seq<Bit>, outer: seq<Mode>, modes: seq<Mode>, w: nat): seq<Anchor>
    requires |modes| == |bits|
  {
    if bits == [] then
      []
    else
      var n := |bits| - 1;
      Recorded(before, bits[..n], outer, modes[..n], w)
      + match bits[n]
        case Mark(kind, depth) => [AnchorAfter(before + Printed(bits[..n], outer, modes[..n], w), kind, depth)]
        case _ => []
  }

  lemma {:induction false} RecordedConcat(before: seq<Piece>, a: seq<Bit>, b: seq<Bit>, outer: seq<Mode>, ma: seq<Mode>,
                                          mb: seq<Mode>, w: nat)
    requires |ma| == |a| && |mb| == |b|
    ensures Recorded(before, a + b, outer, ma + mb, w)
         == Recorded(before, a, outer, ma, w) + Recorded(before + Printed(a, outer, ma, w), b, OpenGroups(a, outer, ma), mb, w)
    decreases |b|
  {
    hide Printed, OpenGroups, AnchorAfter;
    if b == [] {
      assert a + b == a && ma + mb == ma;
    } else {
      var n := |b| - 1;
      RecordedConcat(before, a, b[..n], outer, ma, mb[..n], w);
      PrintedConcat(a, b[..n], outer, ma, mb[..n], w);
      assert (a + b)[..|a + b| - 1] == a + b[..n] && (ma + mb)[..|a + b| - 1] == ma + mb[..n];
      var pa, pb := Printed(a, outer, ma, w), Printed(b[..n], OpenGroups(a, outer, ma), mb[..n], w);
      assert before + (pa + pb) == before + pa + pb;
    }
  }

  lemma RecordedOne(before: seq<Piece>, b: Bit, outer: seq<Mode>, m: Mode, w: nat)
    ensures Recorded(before, [b], outer, [m], w)
         == match b
            case Mark(kind, depth) => [AnchorAfter(before, kind, depth)]
            case _ => []
    ensures Recorded(before, [], outer, [], w) == []
  {
    hide AnchorAfter;
    assert [b][..0] == [] && [m][..0] == [];
    assert before + [] == before;
  }

  lemma RecordedGroup(before: seq<Piece>, inner: seq<Bit>, outer: seq<Mode>, m: Mode, modes: seq<Mode>, w: nat)
    requires |modes| == |inner|
    ensures Recorded(before, [Enter] + inner + [Leave], outer, [m] + modes + [m], w) == Recorded(before, inner, outer + [m], modes, w)
  {
    hide Recorded, Printed, OpenGroups;
    PrintedOne(Enter, outer, m, w);
    RecordedOne(before, Enter, outer, m, w);
    RecordedConcat(before, [Enter], inner, outer, [m], modes, w);
    RecordedConcat(before, [Enter] + inner, [Leave], outer, [m] + modes, [m], w);
    RecordedOne(before + Printed([Enter] + inner, outer, [m] + modes, w), Leave, OpenGroups([Enter] + inner, outer, [m] + modes), m, w);
    assert before + [] == before;
    var anchors := Recorded(before, inner, outer + [m], modes, w);
    assert [] + anchors + [] == anchors;
  }

  /**
   A layout prints the document: its texts, and one separator for each line or hard break, in
   order. A line is flat or broken with its group, a hard break is broken; a broken one has the
   continuation mark that it asks for and the indent of its nesting. Anchors are recorded at their
   marks.
   */
  lemma {:induction false} LayoutPrints(d: Doc, ind: int, mode: Mode, rest: seq<Item>, c: Canvas, cfg: Config, outer: seq<Mode>)
    returns (modes: seq<Mode>)
    requires IsTrue(c)
    ensures |modes| == |Flow(d)| && OpenGroups(Shift(Flow(d), ind), outer + [mode], modes) == outer + [mode]
    ensures Layout(d, ind, mode, rest, c, cfg).pieces
         == c.pieces + Printed(Shift(Flow(d), ind), outer + [mode], modes, cfg.indentWidth)
    ensures Layout(d, ind, mode, rest, c, cfg).anchors
         == c.anchors + Recorded(c.pieces, Shift(Flow(d), ind), outer + [mode], modes, cfg.indentWidth)
    decreases d, 0
  {
    hide Fits, Printed, OpenGroups, Recorded, Spaces, FlowAll, LayoutSeq, CountNewlines, IsTrue, AnchorAfter;
    var w, all := cfg.indentWidth, outer + [mode];
    match d
    case Nil =>
      modes := [];
      PrintedOne(Enter, all, mode, w);
      RecordedOne(c.pieces, Enter, all, mode, w);
      assert c.pieces + [] == c.pieces && c.anchors + [] == c.anchors;
    case Text(s) => modes := OneBit(c, Word(s), ind, all, mode, w);
    case Line(flat, cont) => modes := OneBit(c, Gap(Some(flat), cont, 0), ind, all, mode, w);
    case Hard(cont) => modes := OneBit(c, Gap(None, cont, 0), ind, all, mode, w);
    case Nest(n, child) =>
      modes := LayoutPrints(child, ind + n, mode, rest, c, cfg, outer);
      ShiftTwice(Flow(child), n, ind);
    case Concat(docs) => modes := LayoutSeqPrints(docs, ind, mode, rest, c, cfg, outer);
    case Group(child) =>
      var m := if Fits(cfg.width - c.col, child, rest) then Flat else Break;
      var inner := LayoutPrints(child, ind, m, rest, c, cfg, all);
      modes := [m] + inner + [m];
      GroupPrints(c, Flow(child), ind, all, m, inner, w);
    case AnchorAt(kind, child) =>
      var anchor := Anchor(c.line, c.col, ind, kind);
      EndOfCanvas(c, kind, ind);
      var inner := LayoutPrints(child, ind, mode, rest, c.(anchors := c.anchors + [anchor]), cfg, outer);
      modes := [mode] + inner;
      MarkPrints(c, anchor, Flow(child), ind, all, mode, inner, w);
  }

  lemma GroupPrints(c: Canvas, inner: seq<Bit>, ind: int, all: seq<Mode>, m: Mode, modes: seq<Mode>, w: nat)
    requires |modes| == |inner| && OpenGroups(Shift(inner, ind), all + [m], modes) == all + [m]
    ensures var group := Shift([Enter] + inner + [Leave], ind);
            && OpenGroups(group, all, [m] + modes + [m]) == all
            && c.pieces + Printed(group, all, [m] + modes + [m], w) == c.pieces + Printed(Shift(inner, ind), all + [m], modes, w)
            && c.anchors + Recorded(c.pieces, group, all, [m] + modes + [m], w)
               == c.anchors + Recorded(c.pieces, Shift(inner, ind), all + [m], modes, w)
  {
    hide Printed, OpenGroups, Recorded;
    ShiftGroup(inner, ind);
    PrintedGroup(Shift(inner, ind), all, m, modes, w);
    RecordedGroup(c.pieces, Shift(inner, ind), all, m, modes, w);
  }

  lemma MarkPrints(c: Canvas, anchor: Anchor, inner: seq<Bit>, ind: int, all: seq<Mode>, mode: Mode, modes: seq<Mode>, w: nat)
    requires |modes| == |inner| && OpenGroups(Shift(inner, ind), all, modes) == all
    requires anchor == AnchorAfter(c.pieces, anchor.kind, anchor.level) && anchor.level == ind
    ensures var marked := Shift([Mark(anchor.kind, 0)] + inner, ind);
            && OpenGroups(marked, all, [mode] + modes) == all
            && c.pieces + Printed(marked, all, [mode] + modes, w) == c.pieces + Printed(Shift(inner, ind), all, modes, w)
            && c.anchors + Recorded(c.pieces, marked, all, [mode] + modes, w)
               == c.anchors + [anchor] + Recorded(c.pieces, Shift(inner, ind), all, modes, w)
  {
    hide Printed, OpenGroups, Recorded, AnchorAfter;
    var mark, rest := Mark(anchor.kind, ind), Shift(inner, ind);
    ShiftConcat([Mark(anchor.kind, 0)], inner, ind);
    assert Shift([Mark(anchor.kind, 0)], ind) == [mark];
    PrintedOne(mark, all, mode, w);
    PrintedConcat([mark], rest, all, [mode], modes, w);
    RecordedOne(c.pieces, mark, all, mode, w);
    RecordedConcat(c.pieces, [mark], rest, all, [mode], modes, w);
    assert [] + Printed(rest, all, modes, w) == Printed(rest, all, modes, w) && c.pieces + [] == c.pieces;
    Regroup(c.anchors, [anchor], Recorded(c.pieces, rest, all, modes, w));
  }

  lemma EndOfCanvas(c: Canvas, kind: AnchorKind, level: int)
    requires IsTrue(c)
    ensures Anchor(c.line, c.col, level, kind) == AnchorAfter(c.pieces, kind, level)
    ensures IsTrue(c.(anchors := c.anchors + [Anchor(c.line, c.col, level, kind)]))
  {
    hide IsTrue;
    AnchorIsTrue(c, Anchor(c.line, c.col, level, kind));
    TrueEnd(c);
  }

  lemma TrueEnd(c: Canvas)
    requires IsTrue(c)
    ensures c.line == CountNewlines(Output(c.pieces)) && c.col == |Tail(Output(c.pieces))|
  {
  }

  lemma OneBit(c: Canvas, b: Bit, ind: int, all: seq<Mode>, mode: Mode, w: nat) returns (modes: seq<Mode>)
    requires !b.Enter? && !b.Leave? && !b.Mark?
    ensures |modes| == 1 && OpenGroups(Shift([b], ind), all, modes) == all
    ensures c.anchors == c.anchors + Recorded(c.pieces, Shift([b], ind), all, modes, w)
    ensures Printed(Shift([b], ind), all, modes, w) == PieceOf(ShiftBit(b, ind), all, w)
  {
    hide Printed, OpenGroups, PieceOf, Recorded;
    modes := [mode];
    RecordedOne(c.pieces, ShiftBit(b, ind), all, mode, w);
    assert c.anchors + [] == c.anchors;
    assert Shift([b], ind) == [ShiftBit(b, ind)];
    PrintedOne(ShiftBit(b, ind), all, mode, w);
  }

  lemma ShiftGroup(inner: seq<Bit>, n: int)
    ensures Shift([Enter] + inner + [Leave], n) == [Enter] + Shift(inner, n) + [Leave]
  {
  }

  lemma {:induction false} LayoutSeqPrints(docs: seq<Doc>, ind: int, mode: Mode, rest: seq<Item>, c: Canvas, cfg: Config,
                                           outer: seq<Mode>)
    returns (modes: seq<Mode>)
    requires IsTrue(c)
    ensures |modes| == |FlowAll(docs)| && OpenGroups(Shift(FlowAll(docs), ind), outer + [mode], modes) == outer + [mode]
    ensures LayoutSeq(docs, ind, mode, rest, c, cfg).pieces
         == c.pieces + Printed(Shift(FlowAll(docs), ind), outer + [mode], modes, cfg.indentWidth)
    ensures LayoutSeq(docs, ind, mode, rest, c, cfg).anchors
         == c.anchors + Recorded(c.pieces, Shift(FlowAll(docs), ind), outer + [mode], modes, cfg.indentWidth)
    decreases docs
  {
    hide Layout, Printed, OpenGroups, Recorded, FlowAll, Flow, IsTrue;
    var all := outer + [mode];
    if docs == [] {
      modes := [];
      RecordedOne(c.pieces, Enter, all, mode, cfg.indentWidth);
      assert c.anchors + [] == c.anchors;
      FlowSnoc([], Nil);
      PrintedOne(Enter, all, mode, cfg.indentWidth);
      assert c.pieces + [] == c.pieces;
    } else {
      var rest' := rest + ItemsOf(docs[1..], ind, mode);
      var c' := Layout(docs[0], ind, mode, rest', c, cfg);
      LayoutIsTrue(docs[0], ind, mode, rest', c, cfg);
      var first := LayoutPrints(docs[0], ind, mode, rest', c, cfg, outer);
      var more := LayoutSeqPrints(docs[1..], ind, mode, rest, c', cfg, outer);
      FlowCons(docs[0], docs[1..]);
      assert docs == [docs[0]] + docs[1..];
      var a, b := Shift(Flow(docs[0]), ind), Shift(FlowAll(docs[1..]), ind);
      ShiftConcat(Flow(docs[0]), FlowAll(docs[1..]), ind);
      PrintedConcat(a, b, all, first, more, cfg.indentWidth);
      RecordedConcat(c.pieces, a, b, all, first, more, cfg.indentWidth);
      var ra, rb := Recorded(c.pieces, a, all, first, cfg.indentWidth), Recorded(c'.pieces, b, all, more, cfg.indentWidth);
      assert c.anchors + ra + rb == c.anchors + (ra + rb);
      modes := first + more;
      assert c.pieces + Printed(a, all, first, cfg.indentWidth) + Printed(b, all, more, cfg.indentWidth)
          == c.pieces + (Printed(a, all, first, cfg.indentWidth) + Printed(b, all, more, cfg.indentWidth));
    }
  }

  // ---- Lines of the output --------------------------------------------------------------

  lemma {:induction false} OutputConcat(a: seq<Piece>, b: seq<Piece>)
    ensures Output(a + b) == Output(a) + Output(b)
    decreases |b|
  {
    if b == [] {
      assert a + b == a;
    } else {
      assert (a + b)[..|a + b| - 1] == a + b[..|b| - 1];
      OutputConcat(a, b[..|b| - 1]);
      assert Output(a) + Output(b[..|b| - 1]) + b[|b| - 1].s == Output(a) + (Output(b[..|b| - 1]) + b[|b| - 1].s);
    }
  }

  /** Whether the newline at `p` is in the text at bit `i`, or ends a line at the gap there; then the
      output before it is what was printed before the gap, and the mark if it is continued. */
  ghost predicate IsNewlineOf(bits: seq<Bit>, outer: seq<Mode>, modes: seq<Mode>, w: nat, p: nat, i: nat)
    requires |modes| == |bits| && i < |bits|
  {
    var out := Output(Printed(bits, outer, modes, w));
    var before := Output(Printed(bits[..i], outer, modes[..i], w));
    match bits[i]
    case Word(s) => |before| <= p < |before| + |s|
    case Gap(flat, cont, depth) =>
      && !IsFlat(flat, OpenGroups(bits[..i], outer, modes[..i]))
      && p < |out| && out[..p] == before + if cont then " \\" else ""
    case _ => false
  }

  lemma PrintedLast(bits: seq<Bit>, outer: seq<Mode>, modes: seq<Mode>, w: nat)
    requires |modes| == |bits| && bits != []
    ensures var n := |bits| - 1;
            Output(Printed(bits, outer, modes, w))
            == Output(Printed(bits[..n], outer, modes[..n], w)) + Output(PieceOf(bits[n], OpenGroups(bits[..n], outer, modes[..n]), w))
  {
    hide PieceOf, OpenGroups;
    var n := |bits| - 1;
    OutputConcat(Printed(bits[..n], outer, modes[..n], w), PieceOf(bits[n], OpenGroups(bits[..n], outer, modes[..n]), w));
  }

  /** More output after it does not change whose newline it is. */
  lemma StillNewlineOf(bits: seq<Bit>, outer: seq<Mode>, modes: seq<Mode>, w: nat, p: nat, i: nat)
    requires |modes| == |bits| && i < |bits| - 1 && p < |Output(Printed(bits[..|bits| - 1], outer, modes[..|bits| - 1], w))|
    requires IsNewlineOf(bits[..|bits| - 1], outer, modes[..|bits| - 1], w, p, i)
    ensures IsNewlineOf(bits, outer, modes, w, p, i)
  {
    hide Printed, OpenGroups, Output, PieceOf, IsFlat;
    var n := |bits| - 1;
    PrintedLast(bits, outer, modes, w);
    assert bits[..n][..i] == bits[..i] && modes[..n][..i] == modes[..i] && bits[..n][i] == bits[i];
    PrefixOfPrefix(Output(Printed(bits[..n], outer, modes[..n], w)),
                   Output(PieceOf(bits[n], OpenGroups(bits[..n], outer, modes[..n]), w)), p);
  }

  lemma PrefixOfPrefix(a: string, b: string, p: nat)
    ensures p <= |a| ==> (a + b)[..p] == a[..p]
    ensures |a| <= p <= |a + b| ==> (a + b)[..p] == a + b[..p - |a|]
  {
  }

  /**
   Every newline of the output is in a text or ends a line at a break; it is preceded by the
   continuation mark exactly if that break asks for one.
   */
  lemma {:induction false} EveryNewline(bits: seq<Bit>, outer: seq<Mode>, modes: seq<Mode>, w: nat, p: nat) returns (i: nat)
    requires |modes| == |bits| && p < |Output(Printed(bits, outer, modes, w))| && Output(Printed(bits, outer, modes, w))[p] == NEWLINE
    ensures i < |bits| && IsNewlineOf(bits, outer, modes, w, p, i)
    decreases |bits|
  {
    hide Printed, OpenGroups, Output, PieceOf, IsFlat;
    assert bits != [] by {
      NothingPrinted(outer, w);
    }
    var n := |bits| - 1;
    var before, piece := Output(Printed(bits[..n], outer, modes[..n], w)), PieceOf(bits[n], OpenGroups(bits[..n], outer, modes[..n]), w);
    PrintedLast(bits, outer, modes, w);
    PrefixOfPrefix(before, Output(piece), p);
    if p < |before| {
      i := EveryNewline(bits[..n], outer, modes[..n], w, p);
      hide IsNewlineOf;
      StillNewlineOf(bits, outer, modes, w, p, i);
    } else {
      i := n;
      assert Output(piece)[p - |before|] == NEWLINE;
      OutputOfPiece(bits[n], OpenGroups(bits[..n], outer, modes[..n]), w);
    }
  }

  lemma NothingPrinted(outer: seq<Mode>, w: nat)
    ensures Output(Printed([], outer, [], w)) == ""
  {
  }

  /** A piece has a newline in its text, or one where it breaks. */
  lemma OutputOfPiece(b: Bit, open: seq<Mode>, w: nat)
    ensures var out := Output(PieceOf(b, open, w));
            match b
            case Word(s) => out == s
            case Gap(flat, cont, depth) =>
              if IsFlat(flat, open) then NEWLINE !in out
              else forall q :: 0 <= q < |out| && out[q] == NEWLINE ==> out[..q] == if cont then " \\" else ""
            case _ => out == ""
  {
    hide Spaces;
    assert forall p: Piece :: [p][..0] == [] && Output([p]) == "" + p.s;
    if b.Gap? {
      OneNewline(if b.cont then " \\" else "", Spaces(Max0(b.depth) * w));
    }
  }

  lemma OneNewline(mark: string, spaces: string)
    requires NEWLINE !in mark && NEWLINE !in spaces
    ensures var s := mark + "\n" + spaces; forall q :: 0 <= q < |s| && s[q] == NEWLINE ==> s[..q] == mark
  {
    var s := mark + "\n" + spaces;
    forall q | 0 <= q < |s| && q != |mark|
      ensures s[q] != NEWLINE
    {
      if q < |mark| {
        assert s[q] == mark[q];
      } else {
        assert s[q] == spaces[q - |mark| - 1];
      }
    }
  }
}
