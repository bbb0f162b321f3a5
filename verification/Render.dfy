/** The renderer's two work lists: `fits` and `render` (fpp_format/src/doc.rs:100-226). */
module Rendering {
  import opened Docs

  // ---- The stack ---------------------------------------------------------------

  lemma {:induction false} ItemsSize(docs: seq<Doc>, ind: int, mode: Mode, rest: seq<Item>)
    ensures StackSize(rest + ItemsOf(docs, ind, mode)) == StackSize(rest) + SizeAll(docs)
  {
    hide StackSize, Size;
    if docs == [] {
      assert rest + [] == rest;
    } else {
      var init := rest + ItemsOf(docs[1..], ind, mode);
      ItemsSize(docs[1..], ind, mode, rest);
      assert rest + ItemsOf(docs, ind, mode) == init + [Item(ind, mode, docs[0])];
      PushSize(init, Item(ind, mode, docs[0]));
    }
  }

  lemma PushSize(stack: seq<Item>, item: Item)
    ensures StackSize(stack + [item]) == StackSize(stack) + Size(item.doc)
  {
    assert (stack + [item])[..|stack|] == stack;
  }

  lemma PushFirstLine(stack: seq<Item>, item: Item)
    ensures FirstLineOf(stack + [item]) == Append(FirstLine(item.doc, item.mode), FirstLineOf(stack))
  {
    assert (stack + [item])[..|stack|] == stack;
  }

  lemma AppendAssociates(a: Stretch, b: Stretch, c: Stretch)
    ensures Append(Append(a, b), c) == Append(a, Append(b, c))
  {
    assert a.text + b.text + c.text == a.text + (b.text + c.text);
  }

  lemma {:induction false} ItemsFirstLine(docs: seq<Doc>, ind: int, mode: Mode, rest: seq<Item>)
    ensures FirstLineOf(rest + ItemsOf(docs, ind, mode)) == Append(FirstLineAll(docs, mode), FirstLineOf(rest))
  {
    hide FirstLine, FirstLineOf;
    hide StackSize, Size;
    if docs == [] {
      assert rest + [] == rest;
    } else {
      var init := rest + ItemsOf(docs[1..], ind, mode);
      ItemsFirstLine(docs[1..], ind, mode, rest);
      assert rest + ItemsOf(docs, ind, mode) == init + [Item(ind, mode, docs[0])];
      PushFirstLine(init, Item(ind, mode, docs[0]));
      AppendAssociates(FirstLine(docs[0], mode), FirstLineAll(docs[1..], mode), FirstLineOf(rest));
    }
  }

  // ---- fits ---------------------------------------------------------------------

  /** Pushing the children of a `Concat`, the last one first. */
  method PushAll(stack: seq<Item>, docs: seq<Doc>, ind: int, mode: Mode) returns (pushed: seq<Item>)
    ensures pushed == stack + ItemsOf(docs, ind, mode)
  {
    pushed := stack;
    var i := |docs|;
    assert docs[i..] == [];
    while 0 < i
      invariant 0 <= i <= |docs|
      invariant pushed == stack + ItemsOf(docs[i..], ind, mode)
    {
      i := i - 1;
      assert docs[i..][1..] == docs[i + 1..];
      pushed := pushed + [Item(ind, mode, docs[i])];
    }
    assert docs[i..] == docs;
  }

  /** Whether the work still to be measured fits in `rem` characters. */
  ghost predicate WorkFits(rem: int, work: seq<Item>) {
    |FirstLineOf(work).text| <= rem && !FirstLineOf(work).ending.Blocked?
  }

  method FitsLookahead(rem0: int, x: Doc, rest: seq<Item>) returns (fits: bool)
    ensures fits == Fits(rem0, x, rest)
  {
    var rem := rem0;
    var work := rest + [Item(0, Flat, x)];
    PushFirstLine(rest, Item(0, Flat, x));
    while 0 <= rem
      invariant WorkFits(rem, work) == Fits(rem0, x, rest)
      decreases StackSize(work)
    {
      if work == [] {
        return true;
      }
      var top := work[|work| - 1];
      work := work[..|work| - 1];
      var m := top.mode;
      match top.doc {
        case Nil =>
        case Text(s) =>
          var head := Head(s);
          rem := rem - |head|;
          if NEWLINE in s {
            return 0 <= rem;
          }
        case AnchorAt(_, child) =>
          PushChild(work, top, Item(0, m, child));
          work := work + [Item(0, m, child)];
        case Concat(docs) =>
          ItemsFirstLine(docs, 0, m, work);
          ItemsSize(docs, 0, m, work);
          work := PushAll(work, docs, 0, m);
        case Nest(_, child) =>
          PushChild(work, top, Item(0, m, child));
          work := work + [Item(0, m, child)];
        case Group(child) =>
          PushChild(work, top, Item(0, Flat, child));
          work := work + [Item(0, Flat, child)];
        case Line(flat, _) =>
          if m == Flat {
            rem := rem - |flat|;
          } else {
            return true;
          }
        case Hard(_) =>
          return m == Break;
      }
    }
    return false;
  }

  lemma PushChild(work: seq<Item>, top: Item, item: Item)
    requires top.doc.AnchorAt? || top.doc.Nest? || top.doc.Group?
    requires item.doc == top.doc.child && item.mode == if top.doc.Group? then Flat else top.mode
    ensures StackSize(work + [item]) < StackSize(work) + Size(top.doc)
    ensures FirstLineOf(work + [item]) == Append(FirstLine(top.doc, top.mode), FirstLineOf(work))
  {
    PushSize(work, item);
    PushFirstLine(work, item);
  }

  // ---- render ---------------------------------------------------------------------

  lemma PushLayout(stack: seq<Item>, item: Item, c: Canvas, cfg: Config)
    ensures LayoutStack(stack + [item], c, cfg)
         == LayoutStack(stack, Layout(item.doc, item.ind, item.mode, stack, c, cfg), cfg)
  {
    hide Layout;
    assert (stack + [item])[..|stack|] == stack;
  }

  lemma {:induction false} ItemsLayout(docs: seq<Doc>, ind: int, mode: Mode, rest: seq<Item>, c: Canvas, cfg: Config)
    ensures LayoutStack(rest + ItemsOf(docs, ind, mode), c, cfg)
         == LayoutStack(rest, LayoutSeq(docs, ind, mode, rest, c, cfg), cfg)
  {
    hide Layout, LayoutStack;
    hide StackSize, Size;
    if docs == [] {
      assert rest + [] == rest;
    } else {
      var init := rest + ItemsOf(docs[1..], ind, mode);
      var item := Item(ind, mode, docs[0]);
      assert rest + ItemsOf(docs, ind, mode) == init + [item];
      PushLayout(init, item, c, cfg);
      ItemsLayout(docs[1..], ind, mode, rest, Layout(docs[0], ind, mode, init, c, cfg), cfg);
    }
  }

  lemma OutputSnoc(pieces: seq<Piece>, p: Piece)
    ensures Output(pieces + [p]) == Output(pieces) + p.s
  {
    assert (pieces + [p])[..|pieces|] == pieces;
  }

  /** The loop of `render`, up to the alignment. */
  method RenderStack(doc: Doc, cfg: Config)
    returns (out: string, col: nat, line: nat, anchors: seq<Anchor>, verbatimLines: seq<nat>)
    ensures var canvas := Layout(doc, 0, Break, [], BLANK, cfg);
            && out == Output(canvas.pieces) && col == canvas.col && line == canvas.line
            && anchors == canvas.anchors && verbatimLines == canvas.verbatim
  {
    hide Layout, LayoutSeq, LayoutStack, Fits, Size, StackSize, Output, Spaces;
    out, col, line, anchors, verbatimLines := "", 0, 0, [], [];
    ghost var pieces: seq<Piece> := [];
    var stack := [Item(0, Break, doc)];
    EmptyOutput();
    SingleLayout(Item(0, Break, doc), BLANK, cfg);
    while stack != []
      invariant LayoutStack(stack, Canvas(pieces, col, line, anchors, verbatimLines), cfg)
             == Layout(doc, 0, Break, [], BLANK, cfg)
      invariant out == Output(pieces)
      decreases StackSize(stack)
    {
      ghost var canvas := Canvas(pieces, col, line, anchors, verbatimLines);
      var top := stack[|stack| - 1];
      var rest := stack[..|stack| - 1];
      assert stack == rest + [top];
      PushLayout(rest, top, canvas, cfg);
      PushSize(rest, top);
      TopLayout(top, rest, canvas, cfg);
      stack := rest;
      match top.doc {
        case Nil =>
        case Text(s) =>
          out, col, line, verbatimLines, pieces := PutText(out, col, line, anchors, verbatimLines, pieces, s);
        case AnchorAt(kind, child) =>
          anchors := anchors + [Anchor(line, col, top.ind, kind)];
          PushLayout(rest, Item(top.ind, top.mode, child), canvas.(anchors := anchors), cfg);
          PushChild(rest, top, Item(top.ind, top.mode, child));
          stack := rest + [Item(top.ind, top.mode, child)];
        case Concat(docs) =>
          ItemsLayout(docs, top.ind, top.mode, rest, canvas, cfg);
          ItemsSize(docs, top.ind, top.mode, rest);
          stack := PushAll(rest, docs, top.ind, top.mode);
        case Nest(n, child) =>
          PushLayout(rest, Item(top.ind + n, top.mode, child), canvas, cfg);
          PushChild(rest, top, Item(top.ind + n, top.mode, child));
          stack := rest + [Item(top.ind + n, top.mode, child)];
        case Group(child) =>
          var fits := FitsLookahead(cfg.width - col, child, rest);
          var m := if fits then Flat else Break;
          PushLayout(rest, Item(top.ind, m, child), canvas, cfg);
          PushGroup(rest, top, Item(top.ind, m, child));
          stack := rest + [Item(top.ind, m, child)];
        case Line(flat, cont) =>
          if top.mode == Flat {
            out := out + flat;
            col := col + |flat|;
            OutputSnoc(pieces, Sep(flat));
            pieces := pieces + [Sep(flat)];
          } else {
            out, col, line, pieces := PutBreak(out, col, line, anchors, verbatimLines, pieces, cont, top.ind, cfg.indentWidth);
          }
        case Hard(cont) =>
          out, col, line, pieces := PutBreak(out, col, line, anchors, verbatimLines, pieces, cont, top.ind, cfg.indentWidth);
      }
    }
    EmptyLayout(Canvas(pieces, col, line, anchors, verbatimLines), cfg);
  }

  /** `emit_break`. */
  method PutBreak(out0: string, col0: nat, line0: nat, ghost anchors: seq<Anchor>, ghost verbatim: seq<nat>,
                  ghost pieces0: seq<Piece>, cont: bool, ind: int, indentWidth: nat)
    returns (out: string, col: nat, line: nat, ghost pieces: seq<Piece>)
    requires out0 == Output(pieces0)
    ensures out == Output(pieces)
    ensures Canvas(pieces, col, line, anchors, verbatim)
         == EmitBreak(Canvas(pieces0, col0, line0, anchors, verbatim), cont, ind, indentWidth)
  {
    hide Output;
    out := out0;
    if cont {
      out := out + " \\";
    }
    out := out + [NEWLINE];
    line := line0 + 1;
    var spaces := Max0(ind) * indentWidth;
    out := out + Spaces(spaces);
    col := spaces;
    ghost var s := (if cont then " \\" else "") + [NEWLINE] + Spaces(spaces);
    OutputSnoc(pieces0, Sep(s));
    pieces := pieces0 + [Sep(s)];
    assert out == out0 + s;
  }

  method PutText(out0: string, col0: nat, line0: nat, ghost anchors: seq<Anchor>, verbatim0: seq<nat>,
                 ghost pieces0: seq<Piece>, s: string)
    returns (out: string, col: nat, line: nat, verbatim: seq<nat>, ghost pieces: seq<Piece>)
    requires out0 == Output(pieces0)
    ensures out == Output(pieces)
    ensures Canvas(pieces, col, line, anchors, verbatim)
         == EmitText(Canvas(pieces0, col0, line0, anchors, verbatim0), s)
  {
    hide Output;
    out := out0 + s;
    OutputSnoc(pieces0, Leaf(s));
    pieces := pieces0 + [Leaf(s)];
    line, col, verbatim := line0, col0, verbatim0;
    if NEWLINE in s {
      var newlines := CountNewlines(s);
      verbatim := verbatim + seq(newlines, i => line + i);
      line := line + newlines;
      col := |Tail(s)|;
    } else {
      col := col + |s|;
    }
  }

  lemma EmptyOutput()
    ensures Output([]) == ""
  {
  }

  lemma EmptyLayout(c: Canvas, cfg: Config)
    ensures LayoutStack([], c, cfg) == c
  {
  }

  lemma SingleLayout(item: Item, c: Canvas, cfg: Config)
    ensures LayoutStack([item], c, cfg) == Layout(item.doc, item.ind, item.mode, [], c, cfg)
  {
    assert [item] == [] + [item];
    PushLayout([], item, c, cfg);
  }

  /** The layout of the top of the stack, by the form of its document. */
  lemma TopLayout(top: Item, rest: seq<Item>, c: Canvas, cfg: Config)
    ensures var r, d := Layout(top.doc, top.ind, top.mode, rest, c, cfg), top.doc;
            && (d.Nil? ==> r == c)
            && (d.Text? ==> r == EmitText(c, d.s))
            && (d.Line? ==>
                  r == if top.mode.Flat? then EmitFlat(c, d.flat) else EmitBreak(c, d.cont, top.ind, cfg.indentWidth))
            && (d.Hard? ==> r == EmitBreak(c, d.cont, top.ind, cfg.indentWidth))
            && (d.Nest? ==> r == Layout(d.child, top.ind + d.n, top.mode, rest, c, cfg))
            && (d.Concat? ==> r == LayoutSeq(d.docs, top.ind, top.mode, rest, c, cfg))
            && (d.Concat? ==> Size(d) == 1 + SizeAll(d.docs))
            && (d.Group? ==>
                  var m := if Fits(cfg.width - c.col, d.child, rest) then Flat else Break;
                  r == Layout(d.child, top.ind, m, rest, c, cfg))
            && (d.AnchorAt? ==>
                  var c' := c.(anchors := c.anchors + [Anchor(c.line, c.col, top.ind, d.kind)]);
                  r == Layout(d.child, top.ind, top.mode, rest, c', cfg))
  {
    hide Fits;
  }

  lemma PushGroup(work: seq<Item>, top: Item, item: Item)
    requires top.doc.Group? && item.doc == top.doc.child
    ensures StackSize(work + [item]) < StackSize(work) + Size(top.doc)
  {
    PushSize(work, item);
  }
}
