/** The end of the renderer: `finish` and the whole of `render` (fpp_format/src/doc.rs:100-165, 300-320). */
module Finishing {
  import opened Docs
  import opened Rendering
  import opened RenderLaws
  import opened Alignment
  import opened Strings
  import opened Flows
  import AlignLaws

  // ---- Lines of a text ---------------------------------------------------------------

  lemma SplitCons(c: char, s: string)
    ensures Split([c] + s)
         == if c == NEWLINE then [""] + Split(s) else [[c] + Split(s)[0]] + Split(s)[1..]
    ensures CountNewlines([c] + s) == CountNewlines(s) + if c == NEWLINE then 1 else 0
    ensures Tail([c] + s) == if NEWLINE in s then Tail(s) else if c == NEWLINE then s else [c] + s
  {
    assert ([c] + s)[1..] == s;
    TailConcat([c], s);
    OneCharacter(c);
  }

  lemma {:induction false} SplitLast(a: string)
    ensures |Split(a)| == CountNewlines(a) + 1 && Split(a)[CountNewlines(a)] == Tail(a)
  {
    hide Split, Tail, CountNewlines;
    if a == "" {
      EmptyLines();
    } else {
      SplitCons(a[0], a[1..]);
      assert a == [a[0]] + a[1..];
      SplitLast(a[1..]);
    }
  }

  lemma EmptyLines()
    ensures Split("") == [""] && CountNewlines("") == 0 && Tail("") == ""
  {
  }

  /** The lines of two texts in a row: the last line of one goes on in the other. */
  lemma {:induction false} SplitConcat(a: string, b: string)
    ensures |Split(a)| == CountNewlines(a) + 1
    ensures Split(a + b) == Split(a)[..CountNewlines(a)] + [Tail(a) + Split(b)[0]] + Split(b)[1..]
  {
    hide Split, Tail, CountNewlines;
    SplitLast(a);
    if a == "" {
      EmptyLines();
      assert a + b == b;
      assert "" + Split(b)[0] == Split(b)[0];
      assert Split(a)[..0] == [];
      assert Split(b) == [] + [Split(b)[0]] + Split(b)[1..];
    } else {
      var c, rest := a[0], a[1..];
      SplitLast(rest);
      SplitConcat(rest, b);
      assert a == [c] + rest && a + b == [c] + (rest + b);
      SplitCons(c, rest);
      SplitCons(c, rest + b);
      ConcatLines(c, rest, b);
    }
  }

  /** One more character in front of lines of which the last goes on with `last`. */
  lemma ConcatLines(c: char, rest: string, b: string)
    requires |Split(rest)| == CountNewlines(rest) + 1 && Split(rest)[CountNewlines(rest)] == Tail(rest)
    requires Split(rest + b) == Split(rest)[..CountNewlines(rest)] + [Tail(rest) + Split(b)[0]] + Split(b)[1..]
    requires Split([c] + rest) == if c == NEWLINE then [""] + Split(rest) else [[c] + Split(rest)[0]] + Split(rest)[1..]
    requires Split([c] + (rest + b))
          == if c == NEWLINE then [""] + Split(rest + b) else [[c] + Split(rest + b)[0]] + Split(rest + b)[1..]
    requires Tail([c] + rest) == if NEWLINE in rest then Tail(rest) else if c == NEWLINE then rest else [c] + rest
    requires CountNewlines([c] + rest) == CountNewlines(rest) + if c == NEWLINE then 1 else 0
    ensures var n := CountNewlines([c] + rest);
            n <= |Split([c] + rest)| && Split([c] + (rest + b))
            == Split([c] + rest)[..n] + [Tail([c] + rest) + Split(b)[0]] + Split(b)[1..]
  {
    hide Split, Tail, CountNewlines;
    var lines, n, first, more := Split(rest), CountNewlines(rest), Split(b)[0], Split(b)[1..];
    if c == NEWLINE {
      assert Tail([c] + rest) == Tail(rest);
      PrefixLine("", lines, n, Tail(rest) + first, more);
    } else if n == 0 {
      assert lines[..0] == [] && ([[c] + lines[0]] + lines[1..])[..0] == [];
      assert [c] + (rest + first) == [c] + rest + first;
      assert Split(rest + b) == [rest + first] + more;
      assert [[c] + (rest + first)] + more == [] + [[c] + (rest + first)] + more;
    } else {
      GrowFirstLine(c, lines, n, Tail(rest) + first, more);
    }
  }

  lemma PrefixLine(l: string, lines: seq<string>, n: nat, mid: string, more: seq<string>)
    requires n <= |lines|
    ensures [l] + (lines[..n] + [mid] + more) == ([l] + lines)[..n + 1] + [mid] + more
  {
  }

  lemma GrowFirstLine(c: char, lines: seq<string>, n: nat, mid: string, more: seq<string>)
    requires 0 < n <= |lines|
    ensures var joined := lines[..n] + [mid] + more;
            [[c] + joined[0]] + joined[1..] == ([[c] + lines[0]] + lines[1..])[..n] + [mid] + more
  {
  }

  lemma OneCharacter(c: char)
    ensures Tail([c]) == if c == NEWLINE then "" else [c]
  {
    assert [c][..0] == "";
  }

  /** A recorded position lies within its line. */
  lemma PositionIsWithin(a: Anchor, out: string)
    requires IsTruePosition(a, out)
    ensures a.line < |Split(out)| && a.col <= |Split(out)[a.line]|
  {
    hide Split, CountNewlines, Tail;
    var n :| 0 <= n <= |out| && EndsAt(out[..n], a.line, a.col);
    SplitLast(out[..n]);
    SplitConcat(out[..n], out[n..]);
    assert out == out[..n] + out[n..];
  }

  lemma {:induction false} SplitOfLine(l: string, rest: string)
    requires NEWLINE !in l
    ensures Split(l + [NEWLINE] + rest) == [l] + Split(rest) && Split(l) == [l]
  {
    if l == "" {
      assert (l + [NEWLINE] + rest)[1..] == rest;
    } else {
      SplitOfLine(l[1..], rest);
      assert (l + [NEWLINE] + rest)[1..] == l[1..] + [NEWLINE] + rest;
      assert (l + [NEWLINE] + rest)[0] == l[0];
      assert [l[0]] + l[1..] == l;
    }
  }

  lemma {:induction false} SplitJoin(lines: seq<string>)
    requires lines != [] && forall i :: 0 <= i < |lines| ==> NEWLINE !in lines[i]
    ensures Split(Join(lines)) == lines
  {
    hide Split;
    if |lines| == 1 {
      SplitOfLine(lines[0], "");
    } else {
      SplitJoin(lines[1..]);
      SplitOfLine(lines[0], Join(lines[1..]));
    }
  }

  lemma {:induction false} SplitHasNoNewlines(s: string)
    ensures forall i :: 0 <= i < |Split(s)| ==> NEWLINE !in Split(s)[i]
  {
    if s != "" {
      SplitHasNoNewlines(s[1..]);
      var rest := Split(s[1..]);
      forall i | 0 <= i < |Split(s)|
        ensures NEWLINE !in Split(s)[i]
      {
        if s[0] == NEWLINE && 0 < i {
          assert Split(s)[i] == rest[i - 1];
        } else if s[0] != NEWLINE && 0 < i {
          assert Split(s)[i] == rest[i];
        }
      }
    }
  }

  lemma {:induction false} PaddedHasNoNewlines(page: Page, runs: seq<seq<Anchor>>)
    requires forall i :: 0 <= i < |page.lines| ==> NEWLINE !in page.lines[i]
    ensures forall i :: 0 <= i < |page.lines| ==> NEWLINE !in PadRuns(page, runs).lines[i]
    decreases |runs|
  {
    hide PadRun;
    if runs != [] {
      PaddedRunHasNoNewlines(page, runs[0], Target(page, runs[0]));
      PaddedHasNoNewlines(PadRun(page, runs[0], Target(page, runs[0])), runs[1..]);
    }
  }

  lemma {:induction false} PaddedRunHasNoNewlines(page: Page, run: seq<Anchor>, target: nat)
    requires forall i :: 0 <= i < |page.lines| ==> NEWLINE !in page.lines[i]
    ensures forall i :: 0 <= i < |page.lines| ==> NEWLINE !in PadRun(page, run, target).lines[i]
    decreases |run|
  {
    if run != [] {
      PaddedRunHasNoNewlines(PadAnchor(page, run[0], target), run[1..], target);
    }
  }

  // ---- finish ------------------------------------------------------------------------

  /** `binary_search(&i).is_ok()`. */
  method BinarySearch(s: seq<nat>, key: nat) returns (found: bool)
    requires forall i, j :: 0 <= i < j < |s| ==> s[i] < s[j]
    ensures found <==> key in s
  {
    var lo, hi := 0, |s|;
    while lo < hi
      invariant 0 <= lo <= hi <= |s|
      invariant forall i :: 0 <= i < lo ==> s[i] < key
      invariant forall i :: hi <= i < |s| ==> key < s[i]
    {
      var mid := (lo + hi) / 2;
      if s[mid] < key {
        lo := mid + 1;
      } else if key < s[mid] {
        hi := mid;
      } else {
        return true;
      }
    }
    return false;
  }

  /** The lines as they are kept: those that end inside a text as they are, others trimmed. */
  ghost predicate AreTrimmed(lines: seq<string>, trimmed: seq<string>, verbatim: seq<nat>, isWhitespace: char -> bool) {
    && |trimmed| == |lines|
    && forall i :: 0 <= i < |lines| ==>
         trimmed[i] == if i in verbatim then lines[i] else TrimEnd(lines[i], isWhitespace)
  }

  /** The result ends with exactly one newline, and differs from the trimmed lines only in
      the number of newlines at the end. */
  method Finish(text: string, verbatim: seq<nat>, isWhitespace: char -> bool) returns (out: string, ghost trimmed: seq<string>)
    requires forall i, j :: 0 <= i < j < |verbatim| ==> verbatim[i] < verbatim[j]
    ensures AreTrimmed(Split(text), trimmed, verbatim, isWhitespace)
    ensures out != "" && out[|out| - 1] == NEWLINE
    ensures 1 < |out| ==> out[|out| - 2] != NEWLINE
    ensures var body := out[..|out| - 1];
            body <= Join(trimmed) && forall i :: |body| <= i < |Join(trimmed)| ==> Join(trimmed)[i] == NEWLINE
  {
    hide Split, Join;
    var lines := Split(text);
    var kept: seq<string> := [];
    for i := 0 to |lines|
      invariant |kept| == i
      invariant forall k :: 0 <= k < i ==>
          kept[k] == if k in verbatim then lines[k] else TrimEnd(lines[k], isWhitespace)
    {
      var isVerbatim := BinarySearch(verbatim, i);
      kept := kept + [if isVerbatim then lines[i] else TrimEnd(lines[i], isWhitespace)];
    }
    trimmed := kept;
    out := Join(kept);
    while out != "" && out[|out| - 1] == NEWLINE
      invariant out <= Join(trimmed)
      invariant forall i :: |out| <= i < |Join(trimmed)| ==> Join(trimmed)[i] == NEWLINE
      decreases |out|
    {
      out := out[..|out| - 1];
    }
    ghost var body := out;
    out := out + [NEWLINE];
    assert out[..|out| - 1] == body;
  }

  // ---- render ------------------------------------------------------------------------

  /** What is rendered before the final trim. */
  function AlignedText(canvas: Canvas): string {
    var text := Output(canvas.pieces);
    if canvas.anchors == [] then text else Join(PadRuns(Page(Split(text), map[]), RunOrder(canvas.anchors)).lines)
  }

  /**
   Rendering a document prints its flow, aligns its anchors, and trims every line whose end does
   not lie inside a text.
   */
  method Render(doc: Doc, width: nat, indentWidth: nat, isWhitespace: char -> bool)
    returns (out: string, ghost canvas: Canvas, ghost trimmed: seq<string>, ghost modes: seq<Mode>)
    ensures canvas == Layout(doc, 0, Break, [], BLANK, Config(width, indentWidth))
    ensures |modes| == |Flow(doc)| && canvas.pieces == Printed(Flow(doc), [Break], modes, indentWidth)
    ensures canvas.anchors == Recorded([], Flow(doc), [Break], modes, indentWidth)
    ensures AreTrimmed(Split(AlignedText(canvas)), trimmed, VerbatimOf(canvas.pieces), isWhitespace)
    ensures out != "" && out[|out| - 1] == NEWLINE && (1 < |out| ==> out[|out| - 2] != NEWLINE)
    ensures var body := out[..|out| - 1];
            body <= Join(trimmed) && forall i :: |body| <= i < |Join(trimmed)| ==> Join(trimmed)[i] == NEWLINE
    ensures |trimmed| == |Split(Output(canvas.pieces))|
  {
    hide *;
    var text, col, line, anchors, verbatimLines := RenderStack(doc, Config(width, indentWidth));
    canvas := Layout(doc, 0, Break, [], BLANK, Config(width, indentWidth));
    BlankIsTrue();
    LayoutIsTrue(doc, 0, Break, [], BLANK, Config(width, indentWidth));
    TrueParts(canvas);
    var aligned := Align(text, anchors);
    AlignedIs(canvas, aligned);
    LinesAreKept(canvas);
    out, trimmed := Finish(aligned, verbatimLines, isWhitespace);
    TrimmedLength(Split(aligned), trimmed, verbatimLines, isWhitespace);
    modes := RenderedPrints(doc, Config(width, indentWidth));
  }

  lemma RenderedPrints(doc: Doc, cfg: Config) returns (modes: seq<Mode>)
    ensures var canvas := Layout(doc, 0, Break, [], BLANK, cfg);
            && |modes| == |Flow(doc)| && canvas.pieces == Printed(Flow(doc), [Break], modes, cfg.indentWidth)
            && canvas.anchors == Recorded([], Flow(doc), [Break], modes, cfg.indentWidth)
  {
    hide Layout, Flow, Printed, Recorded, OpenGroups, IsTrue;
    BlankIsTrue();
    modes := LayoutPrints(doc, 0, Break, [], BLANK, cfg, []);
    ShiftTwice(Flow(doc), 0, 0);
    NothingBefore(Printed(Flow(doc), [Break], modes, cfg.indentWidth), Recorded([], Flow(doc), [Break], modes, cfg.indentWidth));
  }

  lemma NothingBefore(pieces: seq<Piece>, anchors: seq<Anchor>)
    ensures BLANK.pieces == [] && BLANK.anchors == [] && [] + [Break] == [Break]
    ensures [] + pieces == pieces && [] + anchors == anchors
  {
  }

  lemma BlankIsTrue()
    ensures IsTrue(BLANK)
  {
  }

  lemma TrueParts(c: Canvas)
    requires IsTrue(c)
    ensures c.verbatim == VerbatimOf(c.pieces)
    ensures forall i, j :: 0 <= i < j < |c.verbatim| ==> c.verbatim[i] < c.verbatim[j]
  {
  }

  lemma AlignedIs(canvas: Canvas, aligned: string)
    requires aligned == if canvas.anchors == [] then Output(canvas.pieces)
                        else Join(PadRuns(Page(Split(Output(canvas.pieces)), map[]), RunOrder(canvas.anchors)).lines)
    ensures aligned == AlignedText(canvas)
  {
  }

  /** The alignment keeps the lines apart, so the verbatim lines are still the same lines. */
  lemma LinesAreKept(canvas: Canvas)
    ensures |Split(AlignedText(canvas))| == |Split(Output(canvas.pieces))|
  {
    hide Split, Join, PadRuns, RunOrder, Output;
    LinesOfAligned(canvas);
  }

  lemma TrimmedLength(lines: seq<string>, trimmed: seq<string>, verbatim: seq<nat>, isWhitespace: char -> bool)
    requires AreTrimmed(lines, trimmed, verbatim, isWhitespace)
    ensures |trimmed| == |lines|
  {
  }

  /** The anchors of a layout lie within the lines of its text. */
  lemma AnchorsAreWithin(doc: Doc, cfg: Config)
    ensures var canvas := Layout(doc, 0, Break, [], BLANK, cfg);
            AlignLaws.AreWithin(canvas.anchors, Split(Output(canvas.pieces)))
  {
    hide Layout, Split, Output, IsTruePosition;
    BlankIsTrue();
    LayoutIsTrue(doc, 0, Break, [], BLANK, cfg);
    var canvas := Layout(doc, 0, Break, [], BLANK, cfg);
    forall a | a in canvas.anchors
      ensures a.line < |Split(Output(canvas.pieces))| && a.col <= |Split(Output(canvas.pieces))[a.line]|
    {
      PositionIsWithin(a, Output(canvas.pieces));
    }
  }

  /**
   Whatever the document: when the runs of its anchors come left to right, the rendered lines
   are those of the layout with spaces inserted before anchors, and each run stands in one
   column of them.
   */
  lemma RenderedRunsAlign(doc: Doc, cfg: Config) returns (pads: seq<seq<Pad>>)
    requires LeftToRight(RunOrder(Layout(doc, 0, Break, [], BLANK, cfg).anchors))
    ensures var canvas := Layout(doc, 0, Break, [], BLANK, cfg);
            var lines, lines' := Split(Output(canvas.pieces)), Split(AlignedText(canvas));
            && |lines'| == |pads| == |lines|
            && (forall i :: 0 <= i < |lines| ==> ArePads(lines[i], pads[i]) && lines'[i] == PadLine(lines[i], pads[i]))
            && (forall run :: run in RunOrder(canvas.anchors) ==> IsAligned(pads, run))
            && AlignLaws.ArePadsBefore(pads, canvas.anchors)
  {
    hide Layout, Split, Join, Output, RunOrder, LeftToRight, PadRuns, IsAligned, PadLine;
    var canvas := Layout(doc, 0, Break, [], BLANK, cfg);
    AnchorsAreWithin(doc, cfg);
    pads := AlignLaws.AlignmentHolds(Output(canvas.pieces), canvas.anchors);
    LinesOfAligned(canvas);
  }

  /** The lines of the aligned text are the padded lines. */
  lemma LinesOfAligned(canvas: Canvas)
    ensures Split(AlignedText(canvas)) == PadRuns(Page(Split(Output(canvas.pieces)), map[]), RunOrder(canvas.anchors)).lines
  {
    hide Split, Join, PadRuns, RunOrder, Output;
    var text := Output(canvas.pieces);
    if canvas.anchors == [] {
      NoRuns(Page(Split(text), map[]));
      assert AlignedText(canvas) == text;
    } else {
      var page := Page(Split(text), map[]);
      SplitHasNoNewlines(text);
      PaddedHasNoNewlines(page, RunOrder(canvas.anchors));
      SplitJoin(PadRuns(page, RunOrder(canvas.anchors)).lines);
    }
  }

  lemma NoRuns(page: Page)
    ensures PadRuns(page, RunOrder([])) == page
  {
    assert AllRuns(Buckets([])) == [];
    assert RunOrder([]) == [];
  }
}
