/** The alignment turn by turn, in whatever order the runs come (fpp_format/src/doc.rs:271-296). */
module AlignTurns {
  import opened Docs
  import opened RenderLaws
  import opened Alignment
  import AlignLaws
  import Finishing

  // ---- A line and what was inserted in it ------------------------------------------------

  /** `n` spaces, at a column of the line as it was by then. */
  datatype Insertion = Insertion(at: nat, n: nat)

  function Inserted(l: string, log: seq<Insertion>): string {
    if log == [] then l else Insert(Inserted(l, log[..|log| - 1]), log[|log| - 1].at, log[|log| - 1].n)
  }

  function Sum(log: seq<Insertion>): nat {
    if log == [] then 0 else Sum(log[..|log| - 1]) + log[|log| - 1].n
  }

  /** Where the character at `col` has been moved to. */
  function Where(log: seq<Insertion>, col: nat): nat {
    if log == [] then
      col
    else
      var at := Where(log[..|log| - 1], col);
      at + if log[|log| - 1].at <= at then log[|log| - 1].n else 0
  }

  /** How much was inserted to the right of the character at `col`. */
  function RightOf(log: seq<Insertion>, col: nat): nat {
    if log == [] then
      0
    else
      RightOf(log[..|log| - 1], col) + if log[|log| - 1].at <= Where(log[..|log| - 1], col) then 0 else log[|log| - 1].n
  }

  lemma {:induction false} CharacterIsThere(l: string, log: seq<Insertion>, col: nat)
    requires col < |l|
    ensures Where(log, col) < |Inserted(l, log)| && Inserted(l, log)[Where(log, col)] == l[col]
  {
    if log != [] {
      CharacterIsThere(l, log[..|log| - 1], col);
    }
  }

  /** All that was inserted counts in the shift of a line, also what is to the right. */
  lemma {:induction false} ShiftSplits(log: seq<Insertion>, col: nat)
    ensures col + Sum(log) == Where(log, col) + RightOf(log, col)
  {
    if log != [] {
      ShiftSplits(log[..|log| - 1], col);
    }
  }

  lemma OneMoreInsertion(l: string, log: seq<Insertion>, i: Insertion, col: nat)
    ensures Inserted(l, log + [i]) == Insert(Inserted(l, log), i.at, i.n) && Sum(log + [i]) == Sum(log) + i.n
    ensures Where(log + [i], col) == Where(log, col) + if i.at <= Where(log, col) then i.n else 0
  {
    assert (log + [i])[..|log|] == log;
  }

  // ---- The pages of a pass ---------------------------------------------------------------

  /** The page is the old lines with these insertions, and its shifts are their sums. */
  ghost predicate IsLogged(page: Page, lines: seq<string>, logs: seq<seq<Insertion>>) {
    && |page.lines| == |lines| == |logs|
    && forall i :: 0 <= i < |lines| ==> page.lines[i] == Inserted(lines[i], logs[i]) && ShiftOf(page, i) == Sum(logs[i])
  }

  function LogAnchor(logs: seq<seq<Insertion>>, a: Anchor, target: nat): (r: seq<seq<Insertion>>)
    ensures |r| == |logs|
  {
    if a.line < |logs| && a.col + Sum(logs[a.line]) < target then
      var at := a.col + Sum(logs[a.line]);
      logs[a.line := logs[a.line] + [Insertion(at, target - at)]]
    else
      logs
  }

  function LogRun(logs: seq<seq<Insertion>>, run: seq<Anchor>, target: nat): (r: seq<seq<Insertion>>)
    ensures |r| == |logs|
    decreases |run|
  {
    if run == [] then logs else LogRun(LogAnchor(logs, run[0], target), run[1..], target)
  }

  /** What was inserted when the runs have had their turns. */
  function LogRuns(lines: seq<string>, runs: seq<seq<Anchor>>): (r: seq<seq<Insertion>>)
    ensures |r| == |lines|
    decreases |runs|
  {
    if runs == [] then
      seq(|lines|, _ => [])
    else
      var run := runs[|runs| - 1];
      LogRun(LogRuns(lines, runs[..|runs| - 1]), run, Target(PadRuns(Page(lines, map[]), runs[..|runs| - 1]), run))
  }

  function StandsAt(logs: seq<seq<Insertion>>, a: Anchor): nat {
    if a.line < |logs| then Where(logs[a.line], a.col) else a.col
  }

  function PaddingRightOf(logs: seq<seq<Insertion>>, a: Anchor): nat {
    if a.line < |logs| then RightOf(logs[a.line], a.col) else 0
  }

  ghost predicate InOneColumn(logs: seq<seq<Insertion>>, run: seq<Anchor>) {
    forall a, b :: a in run && b in run ==> StandsAt(logs, a) == StandsAt(logs, b)
  }

  // ---- One turn --------------------------------------------------------------------------

  /** An anchor is moved to the target, unless something was inserted to its right: then the
      spaces go there, too, and it stays where it is. */
  lemma AnchorMoves(page: Page, lines: seq<string>, logs: seq<seq<Insertion>>, a: Anchor, target: nat)
    requires IsLogged(page, lines, logs) && a.line < |lines| && Shifted(page, a) <= target
    ensures IsLogged(PadAnchor(page, a, target), lines, LogAnchor(logs, a, target))
    ensures StandsAt(LogAnchor(logs, a, target), a) == if PaddingRightOf(logs, a) == 0 then target else StandsAt(logs, a)
    ensures forall i :: 0 <= i < |logs| && i != a.line ==> LogAnchor(logs, a, target)[i] == logs[i]
  {
    hide Insert, Inserted, Sum, Where, RightOf;
    var log, at := logs[a.line], Shifted(page, a);
    ShiftSplits(log, a.col);
    OneMoreInsertion(lines[a.line], log, Insertion(at, target - at), a.col);
  }

  lemma {:induction false} RunMoves(page: Page, lines: seq<string>, logs: seq<seq<Insertion>>, run: seq<Anchor>, target: nat)
    requires IsLogged(page, lines, logs) && OnDifferentLines(run)
    requires forall a :: a in run ==> a.line < |lines| && Shifted(page, a) <= target
    ensures IsLogged(PadRun(page, run, target), lines, LogRun(logs, run, target))
    ensures forall a :: a in run ==>
        StandsAt(LogRun(logs, run, target), a) == if PaddingRightOf(logs, a) == 0 then target else StandsAt(logs, a)
    ensures forall i :: 0 <= i < |logs| && (forall a :: a in run ==> a.line != i) ==> LogRun(logs, run, target)[i] == logs[i]
    decreases |run|
  {
    hide PadAnchor, LogAnchor, Where, RightOf, Inserted, Sum;
    if run != [] {
      var a, rest := run[0], run[1..];
      var page', logs' := PadAnchor(page, a, target), LogAnchor(logs, a, target);
      AnchorMoves(page, lines, logs, a, target);
      assert run == [a] + rest;
      forall b | b in rest
        ensures b in run && b.line != a.line && Shifted(page', b) == Shifted(page, b)
        ensures StandsAt(logs', b) == StandsAt(logs, b) && PaddingRightOf(logs', b) == PaddingRightOf(logs, b)
      {
        var j :| 0 <= j < |rest| && rest[j] == b;
        assert run[j + 1] == b;
        assert ShiftOf(page', b.line) == Sum(logs'[b.line]) && ShiftOf(page, b.line) == Sum(logs[b.line]);
      }
      RunMoves(page', lines, logs', rest, target);
    }
  }

  /**
   A run ends its turn in one column if and only if nothing was inserted to the right of any of
   its anchors, or something was to the right of each, and they stood in one column before.
   */
  lemma TurnAligns(page: Page, lines: seq<string>, logs: seq<seq<Insertion>>, run: seq<Anchor>)
    requires IsLogged(page, lines, logs) && OnDifferentLines(run) && forall a :: a in run ==> a.line < |lines|
    ensures var logs' := LogRun(logs, run, Target(page, run));
            && IsLogged(PadRun(page, run, Target(page, run)), lines, logs')
            && (InOneColumn(logs', run) <==>
                  || (forall a :: a in run ==> PaddingRightOf(logs, a) == 0)
                  || ((forall a :: a in run ==> 0 < PaddingRightOf(logs, a)) && InOneColumn(logs, run)))
  {
    hide PadRun, LogRun, Where, RightOf, Inserted, Sum;
    var target := Target(page, run);
    RunMoves(page, lines, logs, run, target);
    forall a | a in run
      ensures StandsAt(logs, a) + PaddingRightOf(logs, a) <= target
    {
      ShiftSplits(logs[a.line], a.col);
    }
  }

  // ---- All turns -------------------------------------------------------------------------

  lemma {:induction false} PadRunsSnoc(page: Page, runs: seq<seq<Anchor>>, run: seq<Anchor>)
    ensures PadRuns(page, runs + [run]) == PadRun(PadRuns(page, runs), run, Target(PadRuns(page, runs), run))
    decreases |runs|
  {
    hide PadRun, Target;
    if runs == [] {
      assert (runs + [run])[1..] == [];
    } else {
      assert (runs + [run])[1..] == runs[1..] + [run];
      PadRunsSnoc(PadRun(page, runs[0], Target(page, runs[0])), runs[1..], run);
    }
  }

  /** Whether the runs stand on lines of the text, each on different ones. */
  ghost predicate AreOnLines(runs: seq<seq<Anchor>>, lines: seq<string>) {
    forall r :: 0 <= r < |runs| ==> OnDifferentLines(runs[r]) && forall a :: a in runs[r] ==> a.line < |lines|
  }

  lemma {:induction false} RunsAreLogged(lines: seq<string>, runs: seq<seq<Anchor>>)
    requires AreOnLines(runs, lines)
    ensures IsLogged(PadRuns(Page(lines, map[]), runs), lines, LogRuns(lines, runs))
    decreases |runs|
  {
    hide PadRun, LogRun, Target, Inserted, Sum;
    if runs == [] {
      NothingInserted(lines);
    } else {
      var init, run := runs[..|runs| - 1], runs[|runs| - 1];
      RunsAreLogged(lines, init);
      assert runs == init + [run];
      PadRunsSnoc(Page(lines, map[]), init, run);
      TurnAligns(PadRuns(Page(lines, map[]), init), lines, LogRuns(lines, init), run);
    }
  }

  lemma NothingInserted(lines: seq<string>)
    ensures IsLogged(Page(lines, map[]), lines, LogRuns(lines, []))
  {
  }

  /**
   In whatever order the runs come: the text is the old lines with the logged insertions, and
   the r-th run ends its turn in one column exactly as `TurnAligns` says.
   */
  lemma EveryTurn(lines: seq<string>, runs: seq<seq<Anchor>>, r: nat)
    requires AreOnLines(runs, lines) && r < |runs|
    ensures IsLogged(PadRuns(Page(lines, map[]), runs), lines, LogRuns(lines, runs))
    ensures var before, after := LogRuns(lines, runs[..r]), LogRuns(lines, runs[..r + 1]);
            InOneColumn(after, runs[r]) <==>
              || (forall a :: a in runs[r] ==> PaddingRightOf(before, a) == 0)
              || ((forall a :: a in runs[r] ==> 0 < PaddingRightOf(before, a)) && InOneColumn(before, runs[r]))
  {
    hide PadRun, LogRun, Target, Inserted, Sum, PaddingRightOf, InOneColumn, IsLogged, PadRuns;
    RunsAreLogged(lines, runs);
    RunsAreLogged(lines, runs[..r]);
    assert runs[..r + 1][..r] == runs[..r];
    TurnAligns(PadRuns(Page(lines, map[]), runs[..r]), lines, LogRuns(lines, runs[..r]), runs[r]);
  }

  lemma RunsAreOnLines(anchors: seq<Anchor>, lines: seq<string>)
    requires AlignLaws.AreWithin(anchors, lines)
    ensures AreOnLines(RunOrder(anchors), lines)
  {
    hide RunOrder, Flatten;
    AlignLaws.RunOrderIsPartition(anchors);
    var runs := RunOrder(anchors);
    forall r | 0 <= r < |runs|
      ensures OnDifferentLines(runs[r]) && forall a: Anchor :: a in runs[r] ==> a.line < |lines|
    {
      assert runs[r] in runs;
      forall a: Anchor | a in runs[r]
        ensures a.line < |lines|
      {
        AlignLaws.InFlatten(runs, r, a);
        assert a in multiset(Flatten(runs));
      }
    }
  }

  /**
   Whatever the document: its rendered lines are those of the layout with insertions, of which
   every character has been moved by those to its left; and each run of its anchors ends its
   turn in one column exactly as `TurnAligns` says.
   */
  lemma RenderedTurns(doc: Doc, cfg: Config, r: nat)
    requires r < |RunOrder(Layout(doc, 0, Break, [], BLANK, cfg).anchors)|
    ensures var canvas := Layout(doc, 0, Break, [], BLANK, cfg);
            var lines, lines', runs := Split(Output(canvas.pieces)), Split(Finishing.AlignedText(canvas)), RunOrder(canvas.anchors);
            var logs, before, after := LogRuns(lines, runs), LogRuns(lines, runs[..r]), LogRuns(lines, runs[..r + 1]);
            && |lines'| == |lines|
            && (forall i :: 0 <= i < |lines| ==> lines'[i] == Inserted(lines[i], logs[i]))
            && (InOneColumn(after, runs[r]) <==>
                  || (forall a :: a in runs[r] ==> PaddingRightOf(before, a) == 0)
                  || ((forall a :: a in runs[r] ==> 0 < PaddingRightOf(before, a)) && InOneColumn(before, runs[r])))
  {
    hide Layout, Split, Output, RunOrder, PadRuns, LogRuns, Finishing.AlignedText, InOneColumn, PaddingRightOf, AreOnLines;
    var canvas := Layout(doc, 0, Break, [], BLANK, cfg);
    Finishing.AnchorsAreWithin(doc, cfg);
    Finishing.LinesOfAligned(canvas);
    RunsAreOnLines(canvas.anchors, Split(Output(canvas.pieces)));
    EveryTurn(Split(Output(canvas.pieces)), RunOrder(canvas.anchors), r);
  }

  // ---- A document whose runs come out of order -------------------------------------------

  const LONG_NAME: string := "LONGEST "
  const LONG_VALUE: string := "= 1"
  const SHORT_NAME: string := "B "
  const SHORT_VALUE: string := "= 2"
  const SHORT_NOTE: string := "@< x"
  const NO_VALUE: string := "NAME_WITHOUT_VALUE "
  const LAST_NOTE: string := "@< y"

  /** Three constants of an enumeration: with a value, with a value and a note, and with a note. */
  const CONSTANTS: seq<Doc> := [
    Text(LONG_NAME), AnchorAt(Equals, Text(LONG_VALUE)), Hard(false),
    Text(SHORT_NAME), AnchorAt(Equals, Text(SHORT_VALUE)), Text(" "), AnchorAt(PostAnnotation, Text(SHORT_NOTE)), Hard(false),
    Text(NO_VALUE), AnchorAt(PostAnnotation, Text(LAST_NOTE))]

  const EQUALS_1 := Anchor(0, 8, 0, Equals)
  const EQUALS_2 := Anchor(1, 2, 0, Equals)
  const POST_2 := Anchor(1, 6, 0, PostAnnotation)
  const POST_3 := Anchor(2, 19, 0, PostAnnotation)

  const LINES := [LONG_NAME + LONG_VALUE, SHORT_NAME + SHORT_VALUE + " " + SHORT_NOTE, NO_VALUE + LAST_NOTE]
  const RUNS := [[POST_2, POST_3], [EQUALS_1, EQUALS_2]]

  /** What a canvas shows. */
  ghost predicate Shows(c: Canvas, out: string, line: nat, col: nat, anchors: seq<Anchor>) {
    Output(c.pieces) == out && c.line == line && c.col == col && c.anchors == anchors
  }

  lemma NextText(s: string, rest: seq<Item>, cfg: Config, c: Canvas, out: string, line: nat, col: nat, anchors: seq<Anchor>)
    requires Shows(c, out, line, col, anchors) && NEWLINE !in s
    ensures Shows(Layout(Text(s), 0, Break, rest, c, cfg), out + s, line, col + |s|, anchors)
  {
    assert (c.pieces + [Leaf(s)])[..|c.pieces|] == c.pieces;
  }

  lemma NextAnchor(kind: AnchorKind, s: string, rest: seq<Item>, cfg: Config, c: Canvas, out: string, line: nat, col: nat,
                   anchors: seq<Anchor>)
    requires Shows(c, out, line, col, anchors) && NEWLINE !in s
    ensures Shows(Layout(AnchorAt(kind, Text(s)), 0, Break, rest, c, cfg), out + s, line, col + |s|,
                  anchors + [Anchor(line, col, 0, kind)])
  {
    NextText(s, rest, cfg, c.(anchors := c.anchors + [Anchor(line, col, 0, kind)]), out, line, col,
             anchors + [Anchor(line, col, 0, kind)]);
  }

  lemma NextBreak(rest: seq<Item>, cfg: Config, c: Canvas, out: string, line: nat, col: nat, anchors: seq<Anchor>)
    requires Shows(c, out, line, col, anchors)
    ensures Shows(Layout(Hard(false), 0, Break, rest, c, cfg), out + [NEWLINE], line + 1, 0, anchors)
  {
    var c' := Layout(Hard(false), 0, Break, rest, c, cfg);
    assert c'.pieces[..|c.pieces|] == c.pieces;
    assert "" + [NEWLINE] + Spaces(0) == [NEWLINE];
  }

  lemma NextDoc(docs: seq<Doc>, i: nat, rest: seq<Item>, c: Canvas, cfg: Config) returns (rest': seq<Item>)
    requires i < |docs|
    ensures LayoutSeq(docs[i..], 0, Break, rest, c, cfg)
         == LayoutSeq(docs[i + 1..], 0, Break, rest, Layout(docs[i], 0, Break, rest', c, cfg), cfg)
  {
    hide Layout;
    assert docs[i..][1..] == docs[i + 1..];
    rest' := rest + ItemsOf(docs[i + 1..], 0, Break);
  }

  lemma FirstConstant(cfg: Config, c: Canvas) returns (c': Canvas)
    requires Shows(c, "", 0, 0, [])
    ensures LayoutSeq(CONSTANTS, 0, Break, [], c, cfg) == LayoutSeq(CONSTANTS[3..], 0, Break, [], c', cfg)
    ensures Shows(c', LINES[0] + [NEWLINE], 1, 0, [EQUALS_1])
  {
    hide Shows, Layout, LayoutSeq;
    assert CONSTANTS[0..] == CONSTANTS;
    var r0 := NextDoc(CONSTANTS, 0, [], c, cfg);
    var c1 := Layout(CONSTANTS[0], 0, Break, r0, c, cfg);
    NextText(LONG_NAME, r0, cfg, c, "", 0, 0, []);
    var r1 := NextDoc(CONSTANTS, 1, [], c1, cfg);
    var c2 := Layout(CONSTANTS[1], 0, Break, r1, c1, cfg);
    NextAnchor(Equals, LONG_VALUE, r1, cfg, c1, "" + LONG_NAME, 0, 8, []);
    var r2 := NextDoc(CONSTANTS, 2, [], c2, cfg);
    c' := Layout(CONSTANTS[2], 0, Break, r2, c2, cfg);
    NextBreak(r2, cfg, c2, "" + LONG_NAME + LONG_VALUE, 0, 11, [] + [EQUALS_1]);
    assert "" + LONG_NAME + LONG_VALUE + [NEWLINE] == LINES[0] + [NEWLINE] && [] + [EQUALS_1] == [EQUALS_1];
  }

  lemma SecondConstant(cfg: Config, c: Canvas) returns (c': Canvas)
    requires Shows(c, LINES[0] + [NEWLINE], 1, 0, [EQUALS_1])
    ensures LayoutSeq(CONSTANTS[3..], 0, Break, [], c, cfg) == LayoutSeq(CONSTANTS[8..], 0, Break, [], c', cfg)
    ensures Shows(c', LINES[0] + [NEWLINE] + LINES[1] + [NEWLINE], 2, 0, [EQUALS_1, EQUALS_2, POST_2])
  {
    hide Shows, Layout, LayoutSeq;
    var out, eq := LINES[0] + [NEWLINE], [EQUALS_1];
    var r3 := NextDoc(CONSTANTS, 3, [], c, cfg);
    var c4 := Layout(CONSTANTS[3], 0, Break, r3, c, cfg);
    NextText(SHORT_NAME, r3, cfg, c, out, 1, 0, eq);
    var r4 := NextDoc(CONSTANTS, 4, [], c4, cfg);
    var c5 := Layout(CONSTANTS[4], 0, Break, r4, c4, cfg);
    NextAnchor(Equals, SHORT_VALUE, r4, cfg, c4, out + SHORT_NAME, 1, 2, eq);
    var r5 := NextDoc(CONSTANTS, 5, [], c5, cfg);
    var c6 := Layout(CONSTANTS[5], 0, Break, r5, c5, cfg);
    NextText(" ", r5, cfg, c5, out + SHORT_NAME + SHORT_VALUE, 1, 5, eq + [EQUALS_2]);
    var r6 := NextDoc(CONSTANTS, 6, [], c6, cfg);
    var c7 := Layout(CONSTANTS[6], 0, Break, r6, c6, cfg);
    NextAnchor(PostAnnotation, SHORT_NOTE, r6, cfg, c6, out + SHORT_NAME + SHORT_VALUE + " ", 1, 6, eq + [EQUALS_2]);
    var r7 := NextDoc(CONSTANTS, 7, [], c7, cfg);
    c' := Layout(CONSTANTS[7], 0, Break, r7, c7, cfg);
    NextBreak(r7, cfg, c7, out + SHORT_NAME + SHORT_VALUE + " " + SHORT_NOTE, 1, 10, eq + [EQUALS_2] + [POST_2]);
    FourParts(out, SHORT_NAME, SHORT_VALUE, " ", SHORT_NOTE);
    assert eq + [EQUALS_2] + [POST_2] == [EQUALS_1, EQUALS_2, POST_2];
  }

  lemma FourParts(out: string, a: string, b: string, c: string, d: string)
    ensures out + a + b + c + d == out + (a + b + c + d)
  {
  }

  lemma ThirdConstant(cfg: Config, c: Canvas) returns (c': Canvas)
    requires Shows(c, LINES[0] + [NEWLINE] + LINES[1] + [NEWLINE], 2, 0, [EQUALS_1, EQUALS_2, POST_2])
    ensures LayoutSeq(CONSTANTS[8..], 0, Break, [], c, cfg) == c'
    ensures Shows(c', LINES[0] + [NEWLINE] + (LINES[1] + [NEWLINE] + LINES[2]), 2, 23, [EQUALS_1, EQUALS_2, POST_2, POST_3])
  {
    hide Shows, Layout, LayoutSeq;
    var out, before := LINES[0] + [NEWLINE] + LINES[1] + [NEWLINE], [EQUALS_1, EQUALS_2, POST_2];
    var r8 := NextDoc(CONSTANTS, 8, [], c, cfg);
    var c9 := Layout(CONSTANTS[8], 0, Break, r8, c, cfg);
    NextText(NO_VALUE, r8, cfg, c, out, 2, 0, before);
    var r9 := NextDoc(CONSTANTS, 9, [], c9, cfg);
    c' := Layout(CONSTANTS[9], 0, Break, r9, c9, cfg);
    NextAnchor(PostAnnotation, LAST_NOTE, r9, cfg, c9, out + NO_VALUE, 2, 19, before);
    LastDoc(cfg, c');
    Nested(LINES[0] + [NEWLINE], LINES[1], NO_VALUE, LAST_NOTE);
    assert before + [POST_3] == [EQUALS_1, EQUALS_2, POST_2, POST_3];
  }

  lemma Nested(a: string, b: string, c: string, d: string)
    ensures a + b + [NEWLINE] + c + d == a + (b + [NEWLINE] + (c + d))
  {
  }

  lemma LastDoc(cfg: Config, c: Canvas)
    ensures LayoutSeq(CONSTANTS[10..], 0, Break, [], c, cfg) == c
  {
  }

  /** How the constants are laid out, whatever the width. */
  lemma LaidOut(cfg: Config)
    ensures var canvas := Layout(Concat(CONSTANTS), 0, Break, [], BLANK, cfg);
            && Output(canvas.pieces) == LINES[0] + [NEWLINE] + (LINES[1] + [NEWLINE] + LINES[2])
            && canvas.anchors == [EQUALS_1, EQUALS_2, POST_2, POST_3]
  {
    hide LayoutSeq;
    var c1 := FirstConstant(cfg, BLANK);
    var c2 := SecondConstant(cfg, c1);
    var c3 := ThirdConstant(cfg, c2);
  }

  lemma TwoInRow(a: Anchor, b: Anchor)
    requires b.line == a.line + 1
    ensures RunsOf([a, b]) == [[a, b]]
  {
    hide Runs;
    RunsSnoc([], a);
    RunsSnoc([a], b);
    assert [] + [a] == [a] && [a] + [b] == [a, b] && [] + [[a, b]] == [[a, b]];
  }

  lemma AllAnchors()
    ensures RunOrder([EQUALS_1, EQUALS_2, POST_2, POST_3]) == RUNS
  {
    hide Put, RunsOf, SortRuns, AllRuns, Buckets;
    BucketsOfFour();
    TwoInRow(POST_2, POST_3);
    TwoInRow(EQUALS_1, EQUALS_2);
    RunsOfTwo(Bucket(PostAnnotation, 0, [POST_2, POST_3]), Bucket(Equals, 0, [EQUALS_1, EQUALS_2]));
    assert [[POST_2, POST_3]] + [[EQUALS_1, EQUALS_2]] == RUNS;
    TwoSorted([POST_2, POST_3], [EQUALS_1, EQUALS_2]);
  }

  lemma BucketsOfFour()
    ensures Buckets([EQUALS_1, EQUALS_2, POST_2, POST_3])
         == [Bucket(PostAnnotation, 0, [POST_2, POST_3]), Bucket(Equals, 0, [EQUALS_1, EQUALS_2])]
  {
    hide Buckets;
    BucketsStep([], EQUALS_1);
    BucketsStep([EQUALS_1], EQUALS_2);
    BucketsStep([EQUALS_1, EQUALS_2], POST_2);
    BucketsStep([EQUALS_1, EQUALS_2, POST_2], POST_3);
    assert [] + [EQUALS_1] == [EQUALS_1] && [EQUALS_1] + [EQUALS_2] == [EQUALS_1, EQUALS_2];
    assert [EQUALS_1, EQUALS_2] + [POST_2] == [EQUALS_1, EQUALS_2, POST_2];
    assert [EQUALS_1, EQUALS_2, POST_2] + [POST_3] == [EQUALS_1, EQUALS_2, POST_2, POST_3];
    var equals := Bucket(Equals, 0, [EQUALS_1, EQUALS_2]);
    assert Buckets([EQUALS_1]) == [Bucket(Equals, 0, [EQUALS_1])];
    assert Buckets([EQUALS_1, EQUALS_2]) == [equals];
    assert Buckets([EQUALS_1, EQUALS_2, POST_2]) == [Bucket(PostAnnotation, 0, [POST_2]), equals];
    assert [POST_2] + [POST_3] == [POST_2, POST_3];
  }

  lemma BucketsStep(init: seq<Anchor>, a: Anchor)
    ensures Buckets(init + [a]) == Put(Buckets(init), a) && Buckets([]) == []
  {
    assert (init + [a])[..|init|] == init;
  }

  lemma RunsOfTwo(a: Bucket, b: Bucket)
    ensures AllRuns([a, b]) == RunsOf(a.anchors) + RunsOf(b.anchors)
  {
    hide RunsOf;
    assert [a, b][..1] == [a] && [a][..0] == [];
    assert AllRuns([a]) == [] + RunsOf(a.anchors);
  }

  lemma TwoSorted(a: seq<Anchor>, b: seq<Anchor>)
    requires FirstCol(a) <= FirstCol(b)
    ensures SortRuns([a, b]) == [a, b]
  {
    hide FirstCol;
    assert [a, b][..1] == [a] && [a][..0] == [];
    assert SortRuns([a]) == [a];
  }

  /** Pad a run of two: one of them stands at the target. */
  lemma PadTwo(page: Page, a: Anchor, b: Anchor)
    requires Shifted(page, a) < Shifted(page, b) && a.line != b.line && a.line < |page.lines|
    ensures var n := Shifted(page, b) - Shifted(page, a);
            PadRun(page, [a, b], Target(page, [a, b]))
            == Page(page.lines[a.line := Insert(page.lines[a.line], Shifted(page, a), n)],
                    page.shift[a.line := ShiftOf(page, a.line) + n])
  {
    hide Insert, PadRun, Target, PadAnchor;
    var t := Shifted(page, b);
    TargetOfTwo(page, a, b);
    RunOfTwo(page, a, b, t);
    PadToTarget(page, a, t);
    AtTarget(PadAnchor(page, a, t), b, t);
  }

  lemma PadToTarget(page: Page, a: Anchor, t: nat)
    requires Shifted(page, a) < t && a.line < |page.lines|
    ensures PadAnchor(page, a, t)
         == Page(page.lines[a.line := Insert(page.lines[a.line], Shifted(page, a), t - Shifted(page, a))],
                 page.shift[a.line := ShiftOf(page, a.line) + (t - Shifted(page, a))])
  {
    hide Insert;
  }

  lemma AtTarget(page: Page, a: Anchor, t: nat)
    requires Shifted(page, a) == t
    ensures PadAnchor(page, a, t) == page
  {
    hide Insert;
  }

  lemma TargetOfTwo(page: Page, a: Anchor, b: Anchor)
    requires Shifted(page, a) < Shifted(page, b)
    ensures Target(page, [a, b]) == Shifted(page, b)
  {
    hide Shifted;
    assert [a, b][1..] == [b] && [b][1..] == [];
    assert Target(page, [b]) == Shifted(page, b);
  }

  lemma RunOfTwo(page: Page, a: Anchor, b: Anchor, t: nat)
    ensures PadRun(page, [a, b], t) == PadAnchor(PadAnchor(page, a, t), b, t)
  {
    hide PadAnchor;
    assert [a, b][1..] == [b] && [b][1..] == [];
    assert PadRun(PadAnchor(page, a, t), [b], t) == PadAnchor(PadAnchor(page, a, t), b, t);
  }

  lemma PadTwoRuns(page: Page, a: seq<Anchor>, b: seq<Anchor>)
    ensures PadRuns(page, [a, b]) == var mid := PadRun(page, a, Target(page, a)); PadRun(mid, b, Target(mid, b))
  {
    hide PadRun, Target;
    var mid := PadRun(page, a, Target(page, a));
    assert [a, b][1..] == [b] && [b][1..] == [];
    assert PadRuns(mid, [b]) == PadRun(mid, b, Target(mid, b));
  }

  lemma PaddedConstants(l0: string, l1: string, l2: string)
    ensures PadRuns(Page([l0, l1, l2], map[]), RUNS).lines == [Insert(l0, 8, 7), Insert(l1, 6, 13), l2]
  {
    hide Insert, PadRun, PadRuns, Target;
    var page := Page([l0, l1, l2], map[]);
    PadTwo(page, POST_2, POST_3);
    var mid := PadRun(page, [POST_2, POST_3], Target(page, [POST_2, POST_3]));
    assert mid == Page([l0, Insert(l1, 6, 13), l2], map[1 := 13]);
    PadTwo(mid, EQUALS_1, EQUALS_2);
    PadTwoRuns(page, [POST_2, POST_3], [EQUALS_1, EQUALS_2]);
  }

  /** The lines in the end: the equals signs stand in columns 15 and 2. */
  const ALIGNED := [LONG_NAME + Spaces(7) + LONG_VALUE, SHORT_NAME + SHORT_VALUE + " " + Spaces(13) + SHORT_NOTE, LINES[2]]

  lemma InsertedSpaces()
    ensures Insert(LINES[0], 8, 7) == ALIGNED[0] && Insert(LINES[1], 6, 13) == ALIGNED[1]
    ensures |ALIGNED[0]| == 18 && |ALIGNED[1]| == 23 && ALIGNED[0][15] == '=' && ALIGNED[1][2] == '='
  {
    assert LINES[0][..8] == LONG_NAME && LINES[0][8..] == LONG_VALUE;
    assert LINES[1][..6] == SHORT_NAME + SHORT_VALUE + " " && LINES[1][6..] == SHORT_NOTE;
  }

  lemma LinesHaveNoNewlines()
    ensures forall i :: 0 <= i < 3 ==> NEWLINE !in LINES[i] && NEWLINE !in ALIGNED[i]
  {
  }

  /**
   The order of the runs matters. Here the run of notes begins further left than the run of
   equals signs and comes first, but on the line they share its note stands to the right: the
   equals sign there is measured with the padding before the note, and the signs end up apart.
   */
  lemma AlignmentNeedsOrder(cfg: Config)
    ensures var canvas := Layout(Concat(CONSTANTS), 0, Break, [], BLANK, cfg);
            && Split(Output(canvas.pieces)) == LINES && RunOrder(canvas.anchors) == RUNS
            && RUNS == [[POST_2, POST_3], [EQUALS_1, EQUALS_2]] && !LeftToRight(RUNS)
            && Split(Finishing.AlignedText(canvas)) == ALIGNED
            && |ALIGNED[0]| == 18 && |ALIGNED[1]| == 23 && ALIGNED[0][15] == '=' && ALIGNED[1][2] == '='
  {
    hide Shows, Layout, LINES, ALIGNED, RunOrder, PadRuns, Split, Join, Output, Spaces, Insert;
    ThreeLines();
    LaidOut(cfg);
    AllAnchors();
    OutOfOrder();
    LinesHaveNoNewlines();
    InsertedSpaces();
    SplitThree(LINES[0], LINES[1], LINES[2]);
    PaddedConstants(LINES[0], LINES[1], LINES[2]);
    Finishing.SplitJoin(ALIGNED);
  }

  lemma OutOfOrder()
    ensures !LeftToRight(RUNS)
  {
    assert POST_2 in RUNS[0] && EQUALS_2 in RUNS[1];
  }

  lemma ThreeLines()
    ensures LINES == [LINES[0], LINES[1], LINES[2]] && ALIGNED == [ALIGNED[0], ALIGNED[1], ALIGNED[2]]
    ensures ALIGNED[2] == LINES[2]
  {
  }

  lemma SplitThree(a: string, b: string, c: string)
    requires NEWLINE !in a && NEWLINE !in b && NEWLINE !in c
    ensures Split(a + [NEWLINE] + (b + [NEWLINE] + c)) == [a, b, c]
  {
    hide Split;
    Finishing.SplitOfLine(a, b + [NEWLINE] + c);
    Finishing.SplitOfLine(b, c);
    Finishing.SplitOfLine(c, "");
  }
}
