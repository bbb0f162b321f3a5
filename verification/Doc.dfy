/**
 The document language of the formatter and its renderer (fpp_format/src/doc.rs).

 `Layout` lays a document out by recursion on the document. The renderer runs an explicit
 stack instead, and is proved to compute it.
 */
module Docs {

  const NEWLINE: char := '\n'

  /** Text that stays on its line. */
  type FlatText = s: string | NEWLINE !in s

  datatype AnchorKind = PostAnnotation | Arrow | Equals

  datatype Doc =
    | Nil
    | Text(s: string)
    | Line(flat: FlatText, cont: bool)
    | Hard(cont: bool)
    | Nest(n: int, child: Doc)
    | Concat(docs: seq<Doc>)
    | Group(child: Doc)
    | AnchorAt(kind: AnchorKind, child: Doc)

  datatype Mode = Flat | Break

  /** A document waiting on the renderer's stack, whose top is its last element. */
  datatype Item = Item(ind: int, mode: Mode, doc: Doc)

  datatype Anchor = Anchor(line: nat, col: nat, level: int, kind: AnchorKind)

  /** A stretch of output: a text of the document, or a separator or break. */
  datatype Piece = Leaf(s: string) | Sep(s: string)

  /** The state of the renderer. */
  datatype Canvas = Canvas(pieces: seq<Piece>, col: nat, line: nat, anchors: seq<Anchor>, verbatim: seq<nat>)

  const BLANK := Canvas([], 0, 0, [], [])

  function Output(pieces: seq<Piece>): string {
    if pieces == [] then "" else Output(pieces[..|pieces| - 1]) + pieces[|pieces| - 1].s
  }

  /** The items for the children of a `Concat`, the first one on top. */
  function ItemsOf(docs: seq<Doc>, ind: int, mode: Mode): seq<Item> {
    if docs == [] then [] else ItemsOf(docs[1..], ind, mode) + [Item(ind, mode, docs[0])]
  }

  function Size(d: Doc): (n: nat)
    ensures 0 < n
    decreases d, 0
  {
    match d
    case Nest(_, child) => 1 + Size(child)
    case Group(child) => 2 + Size(child)
    case AnchorAt(_, child) => 1 + Size(child)
    case Concat(docs) => 1 + SizeAll(docs)
    case _ => 1
  }

  function SizeAll(docs: seq<Doc>): nat
    decreases docs
  {
    if docs == [] then 0 else Size(docs[0]) + SizeAll(docs[1..])
  }

  function StackSize(stack: seq<Item>): nat {
    if stack == [] then 0 else StackSize(stack[..|stack| - 1]) + Size(stack[|stack| - 1].doc)
  }

  // ---- Lines --------------------------------------------------------------------

  function CountNewlines(s: string): (n: nat)
    ensures n == 0 <==> NEWLINE !in s
  {
    if s == "" then 0 else CountNewlines(s[1..]) + if s[0] == NEWLINE then 1 else 0
  }

  /** The characters after the last newline. */
  function Tail(s: string): (t: string)
    ensures NEWLINE !in t && |t| <= |s|
    ensures NEWLINE !in s ==> t == s
  {
    if s == "" || s[|s| - 1] == NEWLINE then "" else Tail(s[..|s| - 1]) + [s[|s| - 1]]
  }

  /** The characters before the first newline. */
  function Head(s: string): (h: string)
    ensures NEWLINE !in h && h <= s
    ensures NEWLINE !in s ==> h == s
  {
    if s == "" || s[0] == NEWLINE then "" else [s[0]] + Head(s[1..])
  }

  function Spaces(n: nat): (s: string)
    ensures |s| == n && forall i :: 0 <= i < n ==> s[i] == ' '
  {
    seq(n, _ => ' ')
  }

  function Max0(i: int): nat {
    if i < 0 then 0 else i
  }

  // ---- What fits ----------------------------------------------------------------

  /** How a stretch of a line ends: it goes on, it meets a newline, or it meets a hard break
      that a flat group cannot hold. */
  datatype Ending = Open | Newline | Blocked

  datatype Stretch = Stretch(text: string, ending: Ending)

  function Append(a: Stretch, b: Stretch): Stretch {
    if a.ending.Open? then Stretch(a.text + b.text, b.ending) else a
  }

  /** What a document contributes to the current line, its groups flat. */
  function FirstLine(d: Doc, mode: Mode): Stretch
    decreases d, 0
  {
    match d
    case Nil => Stretch("", Open)
    case Text(s) => Stretch(Head(s), if NEWLINE in s then Newline else Open)
    case Line(flat, _) => if mode.Flat? then Stretch(flat, Open) else Stretch("", Newline)
    case Hard(_) => Stretch("", if mode.Flat? then Blocked else Newline)
    case Nest(_, child) => FirstLine(child, mode)
    case Concat(docs) => FirstLineAll(docs, mode)
    case Group(child) => FirstLine(child, Flat)
    case AnchorAt(_, child) => FirstLine(child, mode)
  }

  function FirstLineAll(docs: seq<Doc>, mode: Mode): Stretch
    decreases docs
  {
    if docs == [] then Stretch("", Open) else Append(FirstLine(docs[0], mode), FirstLineAll(docs[1..], mode))
  }

  /** What a stack contributes to the current line, from its top down. */
  function FirstLineOf(stack: seq<Item>): Stretch {
    if stack == [] then
      Stretch("", Open)
    else
      var top := stack[|stack| - 1];
      Append(FirstLine(top.doc, top.mode), FirstLineOf(stack[..|stack| - 1]))
  }

  /** Whether `x`, laid flat in front of the stack, ends its line within `rem` characters. */
  predicate Fits(rem: int, x: Doc, stack: seq<Item>) {
    var s := Append(FirstLine(x, Flat), FirstLineOf(stack));
    |s.text| <= rem && !s.ending.Blocked?
  }

  // ---- The layout ---------------------------------------------------------------

  function EmitText(c: Canvas, s: string): Canvas {
    var newlines := CountNewlines(s);
    Canvas(c.pieces + [Leaf(s)],
           if newlines == 0 then c.col + |s| else |Tail(s)|,
           c.line + newlines,
           c.anchors,
           c.verbatim + seq(newlines, i => c.line + i))
  }

  function EmitBreak(c: Canvas, cont: bool, ind: int, indentWidth: nat): Canvas {
    var spaces := Max0(ind) * indentWidth;
    Canvas(c.pieces + [Sep((if cont then " \\" else "") + [NEWLINE] + Spaces(spaces))],
           spaces, c.line + 1, c.anchors, c.verbatim)
  }

  function EmitFlat(c: Canvas, flat: FlatText): Canvas {
    Canvas(c.pieces + [Sep(flat)], c.col + |flat|, c.line, c.anchors, c.verbatim)
  }

  datatype Config = Config(width: nat, indentWidth: nat)

  /** The layout of a document in front of the documents on the stack. */
  function Layout(d: Doc, ind: int, mode: Mode, rest: seq<Item>, c: Canvas, cfg: Config): Canvas
    decreases d, 0
  {
    match d
    case Nil => c
    case Text(s) => EmitText(c, s)
    case Line(flat, cont) => if mode.Flat? then EmitFlat(c, flat) else EmitBreak(c, cont, ind, cfg.indentWidth)
    case Hard(cont) => EmitBreak(c, cont, ind, cfg.indentWidth)
    case Nest(n, child) => Layout(child, ind + n, mode, rest, c, cfg)
    case Concat(docs) => LayoutSeq(docs, ind, mode, rest, c, cfg)
    case Group(child) =>
      Layout(child, ind, if Fits(cfg.width - c.col, child, rest) then Flat else Break, rest, c, cfg)
    case AnchorAt(kind, child) =>
      Layout(child, ind, mode, rest, c.(anchors := c.anchors + [Anchor(c.line, c.col, ind, kind)]), cfg)
  }

  function LayoutSeq(docs: seq<Doc>, ind: int, mode: Mode, rest: seq<Item>, c: Canvas, cfg: Config): Canvas
    decreases docs
  {
    if docs == [] then
      c
    else
      var c' := Layout(docs[0], ind, mode, rest + ItemsOf(docs[1..], ind, mode), c, cfg);
      LayoutSeq(docs[1..], ind, mode, rest, c', cfg)
  }

  /** The layout of everything on a stack. */
  function LayoutStack(stack: seq<Item>, c: Canvas, cfg: Config): Canvas
    decreases |stack|
  {
    if stack == [] then
      c
    else
      var top, rest := stack[|stack| - 1], stack[..|stack| - 1];
      LayoutStack(rest, Layout(top.doc, top.ind, top.mode, rest, c, cfg), cfg)
  }
}
