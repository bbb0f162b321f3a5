/** The alignment post-pass: `align` (fpp_format/src/doc.rs:228-298). */
module Alignment {
  import opened Docs

  // ---- Runs ---------------------------------------------------------------------

  /** The anchors of one kind and level, in the order of the lines. */
  datatype Bucket = Bucket(kind: AnchorKind, level: int, anchors: seq<Anchor>)

  function KindRank(k: AnchorKind): nat {
    match k case PostAnnotation => 0 case Arrow => 1 case Equals => 2
  }

  predicate KeyLess(a: Anchor, b: Bucket) {
    KindRank(a.kind) < KindRank(b.kind) || (a.kind == b.kind && a.level < b.level)
  }

  predicate HasKey(a: Anchor, b: Bucket) {
    a.kind == b.kind && a.level == b.level
  }

  /** `buckets.entry(key).or_default().push(a)` on a map ordered by key. */
  function Put(buckets: seq<Bucket>, a: Anchor): seq<Bucket> {
    if buckets == [] || KeyLess(a, buckets[0]) then
      [Bucket(a.kind, a.level, [a])] + buckets
    else if HasKey(a, buckets[0]) then
      [buckets[0].(anchors := buckets[0].anchors + [a])] + buckets[1..]
    else
      [buckets[0]] + Put(buckets[1..], a)
  }

  /** The anchors by kind and level. */
  function Buckets(anchors: seq<Anchor>): seq<Bucket> {
    if anchors == [] then [] else Put(Buckets(anchors[..|anchors| - 1]), anchors[|anchors| - 1])
  }

  /** Whether `a` stands on the line after the last anchor of a run. */
  predicate Continues(run: seq<Anchor>, a: Anchor) {
    run == [] || a.line == run[|run| - 1].line + 1
  }

  /** The runs of the anchors: the finished ones, and the one that may go on. */
  function Runs(anchors: seq<Anchor>): (seq<seq<Anchor>>, seq<Anchor>) {
    if anchors == [] then
      ([], [])
    else
      var (done, run) := Runs(anchors[..|anchors| - 1]);
      var a := anchors[|anchors| - 1];
      if Continues(run, a) then (done, run + [a]) else (done + [run], [a])
  }

  function RunsOf(anchors: seq<Anchor>): seq<seq<Anchor>> {
    var (done, run) := Runs(anchors);
    if run == [] then done else done + [run]
  }

  function Flatten(runs: seq<seq<Anchor>>): seq<Anchor> {
    if runs == [] then [] else Flatten(runs[..|runs| - 1]) + runs[|runs| - 1]
  }

  /** Whether a run stands on consecutive lines. */
  ghost predicate IsRun(run: seq<Anchor>) {
    run != [] && forall i :: 0 <= i < |run| ==> run[i].line == run[0].line + i
  }

  /** Whether the pieces are runs, none of which goes on in the next. */
  ghost predicate AreMaximal(runs: seq<seq<Anchor>>) {
    && (forall r :: 0 <= r < |runs| ==> IsRun(runs[r]))
    && forall r :: 0 < r < |runs| ==> !Continues(runs[r - 1], runs[r][0])
  }

  lemma RunsSnoc(init: seq<Anchor>, a: Anchor)
    ensures var (done, run) := Runs(init);
            Runs(init + [a]) == if Continues(run, a) then (done, run + [a]) else (done + [run], [a])
    ensures Runs([]) == ([], [])
  {
    assert (init + [a])[..|init|] == init;
  }

  lemma FlattenSnoc(runs: seq<seq<Anchor>>, run: seq<Anchor>)
    ensures Flatten(runs + [run]) == Flatten(runs) + run && Flatten([]) == []
  {
    assert (runs + [run])[..|runs|] == runs;
  }

  /** The next anchor goes on with the last run or starts a new one. */
  lemma NextRun(done: seq<seq<Anchor>>, run: seq<Anchor>, a: Anchor)
    requires run != [] && AreMaximal(done + [run])
    ensures Continues(run, a) ==> AreMaximal(done + [run + [a]])
    ensures !Continues(run, a) ==> AreMaximal(done + [run] + [[a]])
  {
    var before := done + [run];
    assert before[|done|] == run && IsRun(run);
    if Continues(run, a) {
      var after := done + [run + [a]];
      assert forall r :: 0 <= r < |done| ==> after[r] == before[r];
    } else {
      var after := before + [[a]];
      assert forall r :: 0 <= r < |before| ==> after[r] == before[r];
    }
  }

  lemma FirstRun(a: Anchor)
    ensures AreMaximal([]) && AreMaximal([[a]]) && Continues([], a)
  {
  }

  /** The runs of a bucket are its anchors, cut where the lines are not consecutive. */
  lemma {:induction false} RunsAreMaximal(anchors: seq<Anchor>)
    ensures AreMaximal(RunsOf(anchors)) && Flatten(RunsOf(anchors)) == anchors
    ensures anchors != [] ==> Runs(anchors).1 != []
  {
    hide Runs, Flatten, AreMaximal, Continues;
    if anchors == [] {
      FirstRun(Anchor(0, 0, 0, Arrow));
      RunsSnoc([], Anchor(0, 0, 0, Arrow));
      FlattenSnoc([], []);
    } else {
      var init, a := anchors[..|anchors| - 1], anchors[|anchors| - 1];
      RunsAreMaximal(init);
      var (done, run) := Runs(init);
      assert anchors == init + [a];
      RunsSnoc(init, a);
      FirstRun(a);
      if init == [] {
        FlattenSnoc([], [a]);
        assert [] + [a] == [a] && [] + [[a]] == [[a]];
      } else {
        NextRun(done, run, a);
        FlattenSnoc(done, run);
        FlattenSnoc(done, run + [a]);
        FlattenSnoc(done + [run], [a]);
        assert Flatten(done) + run + [a] == Flatten(done) + (run + [a]);
      }
    }
  }

  // ---- Padding ------------------------------------------------------------------

  /** The lines being edited, and how far each has been shifted. */
  datatype Page = Page(lines: seq<string>, shift: map<nat, nat>)

  function ShiftOf(page: Page, line: nat): nat {
    if line in page.shift then page.shift[line] else 0
  }

  function Shifted(page: Page, a: Anchor): nat {
    a.col + ShiftOf(page, a.line)
  }

  /** Insert `n` spaces before character `at`, or at the end. */
  function Insert(l: string, at: nat, n: nat): string {
    var b := if at <= |l| then at else |l|;
    l[..b] + Spaces(n) + l[b..]
  }

  function PadAnchor(page: Page, a: Anchor, target: nat): (p: Page)
    ensures |p.lines| == |page.lines|
  {
    var at := Shifted(page, a);
    if at < target && a.line < |page.lines| then
      Page(page.lines[a.line := Insert(page.lines[a.line], at, target - at)],
           page.shift[a.line := ShiftOf(page, a.line) + (target - at)])
    else
      page
  }

  function PadRun(page: Page, run: seq<Anchor>, target: nat): (p: Page)
    ensures |p.lines| == |page.lines|
    decreases |run|
  {
    if run == [] then
      page
    else
      PadRun(PadAnchor(page, run[0], target), run[1..], target)
  }

  /** The largest shifted column of a run. */
  function Target(page: Page, run: seq<Anchor>): (t: nat)
    ensures forall a :: a in run ==> Shifted(page, a) <= t
    ensures run != [] ==> exists a :: a in run && Shifted(page, a) == t
  {
    if run == [] then
      0
    else
      var t := Target(page, run[1..]);
      assert run == [run[0]] + run[1..];
      if Shifted(page, run[0]) < t then
        var a :| a in run[1..] && Shifted(page, a) == t;
        assert a in run;
        t
      else
        Shifted(page, run[0])
  }

  function PadRuns(page: Page, runs: seq<seq<Anchor>>): (p: Page)
    ensures |p.lines| == |page.lines|
    decreases |runs|
  {
    if runs == [] then page else PadRuns(PadRun(page, runs[0], Target(page, runs[0])), runs[1..])
  }

  // ---- What padding does to a line -------------------------------------------------

  /** `n` spaces before character `offset` of a line as it was. */
  datatype Pad = Pad(offset: nat, n: nat)

  /** A line with spaces inserted, the pads in the order of their offsets. */
  function PadLine(l: string, pads: seq<Pad>): string
    requires ArePads(l, pads)
    decreases |pads|
  {
    if pads == [] then
      l
    else
      var pad := pads[|pads| - 1];
      PadLine(l[..pad.offset], pads[..|pads| - 1]) + Spaces(pad.n) + l[pad.offset..]
  }

  /** Whether the offsets ascend within the line. */
  predicate ArePads(l: string, pads: seq<Pad>) {
    && (forall i :: 0 <= i < |pads| ==> pads[i].offset <= |l|)
    && forall i, j :: 0 <= i < j < |pads| ==> pads[i].offset < pads[j].offset
  }

  function Total(pads: seq<Pad>): nat {
    if pads == [] then 0 else Total(pads[..|pads| - 1]) + pads[|pads| - 1].n
  }

  /** Where the character at `col` stands once the pads are inserted. */
  function Column(pads: seq<Pad>, col: nat): nat {
    if pads == [] then
      col
    else
      var pad := pads[|pads| - 1];
      Column(pads[..|pads| - 1], col) + if pad.offset <= col then pad.n else 0
  }

  lemma {:induction false} PadLineLength(l: string, pads: seq<Pad>)
    requires ArePads(l, pads)
    ensures |PadLine(l, pads)| == |l| + Total(pads)
    decreases |pads|
  {
    if pads != [] {
      PadLineLength(l[..pads[|pads| - 1].offset], pads[..|pads| - 1]);
    }
  }

  /** What lies after all the pads is not changed. */
  lemma {:induction false} PadLineSplit(l: string, pads: seq<Pad>, c: nat)
    requires ArePads(l, pads) && c <= |l|
    requires forall i :: 0 <= i < |pads| ==> pads[i].offset <= c
    ensures ArePads(l[..c], pads) && PadLine(l, pads) == PadLine(l[..c], pads) + l[c..]
    decreases |pads|
  {
    if pads == [] {
      assert l == l[..c] + l[c..];
    } else {
      var o := pads[|pads| - 1].offset;
      assert l[..c][..o] == l[..o];
      assert l[o..] == l[..c][o..] + l[c..];
    }
  }

  lemma ColumnAfterPads(pads: seq<Pad>, col: nat)
    requires forall i :: 0 <= i < |pads| ==> pads[i].offset <= col
    ensures Column(pads, col) == col + Total(pads)
  {
    if pads != [] {
      ColumnAfterPads(pads[..|pads| - 1], col);
    }
  }

  /** A padded line holds its characters at their columns. */
  lemma {:induction false} ColumnHolds(l: string, pads: seq<Pad>, c: nat)
    requires ArePads(l, pads) && c < |l|
    ensures Column(pads, c) < |PadLine(l, pads)| && PadLine(l, pads)[Column(pads, c)] == l[c]
    decreases |pads|
  {
    if pads != [] {
      var init, pad := pads[..|pads| - 1], pads[|pads| - 1];
      PadLineLength(l[..pad.offset], init);
      PadLineLength(l, pads);
      if c < pad.offset {
        ColumnHolds(l[..pad.offset], init, c);
      } else {
        ColumnAfterPads(init, c);
      }
    }
  }

  /** One more pad, after the others, is an insertion at the shifted column. */
  lemma InsertIsPad(l: string, pads: seq<Pad>, pad: Pad)
    requires ArePads(l, pads) && pad.offset <= |l|
    requires forall i :: 0 <= i < |pads| ==> pads[i].offset < pad.offset
    ensures ArePads(l, pads + [pad])
    ensures Insert(PadLine(l, pads), pad.offset + Total(pads), pad.n) == PadLine(l, pads + [pad])
  {
    hide PadLine, Spaces, Insert, Total, ArePads;
    var o := pad.offset;
    PadLineSplit(l, pads, o);
    PadLineLength(l[..o], pads);
    InsertAfter(PadLine(l[..o], pads), l[o..], pad.n);
    LastPad(l, pads, pad);
  }

  lemma InsertAfter(a: string, b: string, n: nat)
    ensures Insert(a + b, |a|, n) == a + Spaces(n) + b
  {
    hide Spaces;
    assert (a + b)[..|a|] == a && (a + b)[|a|..] == b;
  }

  lemma LastPad(l: string, pads: seq<Pad>, pad: Pad)
    requires ArePads(l, pads) && pad.offset <= |l|
    requires forall i :: 0 <= i < |pads| ==> pads[i].offset < pad.offset
    ensures ArePads(l, pads + [pad]) && ArePads(l[..pad.offset], pads)
    ensures PadLine(l, pads + [pad]) == PadLine(l[..pad.offset], pads) + Spaces(pad.n) + l[pad.offset..]
  {
    hide Spaces;
    assert (pads + [pad])[..|pads|] == pads;
  }

  // ---- Alignment --------------------------------------------------------------------

  /** The page is the old lines with the pads inserted, and its shifts are their sums. */
  ghost predicate IsPadded(page: Page, lines: seq<string>, pads: seq<seq<Pad>>) {
    && |page.lines| == |lines| == |pads|
    && forall i :: 0 <= i < |lines| ==>
         && ArePads(lines[i], pads[i])
         && page.lines[i] == PadLine(lines[i], pads[i])
         && ShiftOf(page, i) == Total(pads[i])
  }

  /** An anchor on a line that has only been padded to its left. */
  ghost predicate IsAhead(lines: seq<string>, pads: seq<seq<Pad>>, a: Anchor) {
    && a.line < |lines| == |pads|
    && a.col <= |lines[a.line]|
    && forall i :: 0 <= i < |pads[a.line]| ==> pads[a.line][i].offset < a.col
  }

  function ColumnOf(pads: seq<seq<Pad>>, a: Anchor): nat {
    if a.line < |pads| then Column(pads[a.line], a.col) else 0
  }

  lemma PadAnchorAligns(page: Page, lines: seq<string>, pads: seq<seq<Pad>>, a: Anchor, target: nat)
    returns (pads': seq<seq<Pad>>)
    requires IsPadded(page, lines, pads) && IsAhead(lines, pads, a) && Shifted(page, a) <= target
    ensures IsPadded(PadAnchor(page, a, target), lines, pads') && ColumnOf(pads', a) == target
    ensures forall i :: 0 <= i < |pads| && i != a.line ==> pads'[i] == pads[i]
    ensures pads'[a.line] == pads[a.line]
                             + if Shifted(page, a) < target then [Pad(a.col, target - Shifted(page, a))] else []
  {
    hide PadLine, Insert, Column, Total, ArePads;
    var own, at := pads[a.line], Shifted(page, a);
    ColumnAfterPads(own, a.col);
    pads' := pads;
    if at < target {
      var pad := Pad(a.col, target - at);
      InsertIsPad(lines[a.line], own, pad);
      OneMorePad(own, pad, a.col);
      pads' := pads[a.line := own + [pad]];
    } else {
      assert own + [] == own;
    }
  }

  lemma OneMorePad(own: seq<Pad>, pad: Pad, col: nat)
    ensures Total(own + [pad]) == Total(own) + pad.n
    ensures Column(own + [pad], col) == Column(own, col) + if pad.offset <= col then pad.n else 0
  {
    assert (own + [pad])[..|own|] == own;
  }

  /** Whether the anchors stand on different lines. */
  ghost predicate OnDifferentLines(run: seq<Anchor>) {
    forall i, j :: 0 <= i < j < |run| ==> run[i].line != run[j].line
  }

  /** Whether `pads'` has at most one more pad on each line, before an anchor of the run. */
  ghost predicate PadsRun(pads: seq<seq<Pad>>, pads': seq<seq<Pad>>, run: seq<Anchor>) {
    && |pads'| == |pads|
    && forall i :: 0 <= i < |pads| ==>
         pads'[i] == pads[i]
         || exists a, n :: a in run && a.line == i && pads'[i] == pads[i] + [Pad(a.col, n)]
  }

  lemma {:induction false} PadRunAligns(page: Page, lines: seq<string>, pads: seq<seq<Pad>>,
                                        run: seq<Anchor>, target: nat)
    returns (pads': seq<seq<Pad>>)
    requires IsPadded(page, lines, pads) && OnDifferentLines(run)
    requires forall a :: a in run ==> IsAhead(lines, pads, a) && Shifted(page, a) <= target
    ensures IsPadded(PadRun(page, run, target), lines, pads') && PadsRun(pads, pads', run)
    ensures forall a :: a in run ==> ColumnOf(pads', a) == target
    ensures forall a :: a in run && Shifted(page, a) == target ==>
        a.line < |pads| == |pads'| && pads'[a.line] == pads[a.line]
    decreases |run|
  {
    hide PadLine, PadAnchor, Insert, Column, Total, ArePads;
    if run == [] {
      return pads;
    }
    var a, rest := run[0], run[1..];
    var mid := PadAnchorAligns(page, lines, pads, a, target);
    var page' := PadAnchor(page, a, target);
    assert run == [a] + rest;
    forall b | b in rest
      ensures IsAhead(lines, mid, b) && Shifted(page', b) == Shifted(page, b) && b.line != a.line
    {
      var j :| 0 <= j < |rest| && rest[j] == b;
      assert run[j + 1] == b;
      assert IsAhead(lines, pads, b);
      assert mid[b.line] == pads[b.line];
      SameShift(page, page', lines, pads, mid, b);
    }
    pads' := PadRunAligns(page', lines, mid, rest, target);
    StepPads(pads, mid, pads', run);
  }

  lemma SameShift(page: Page, page': Page, lines: seq<string>, pads: seq<seq<Pad>>, pads': seq<seq<Pad>>, a: Anchor)
    requires IsPadded(page, lines, pads) && IsPadded(page', lines, pads')
    requires a.line < |lines| && pads'[a.line] == pads[a.line]
    ensures Shifted(page', a) == Shifted(page, a)
  {
  }

  lemma StepPads(pads: seq<seq<Pad>>, mid: seq<seq<Pad>>, pads': seq<seq<Pad>>, run: seq<Anchor>)
    requires run != [] && OnDifferentLines(run) && |mid| == |pads| && run[0].line < |pads|
    requires forall i :: 0 <= i < |pads| && i != run[0].line ==> mid[i] == pads[i]
    requires mid[run[0].line] == pads[run[0].line]
             || exists n :: mid[run[0].line] == pads[run[0].line] + [Pad(run[0].col, n)]
    requires PadsRun(mid, pads', run[1..])
    ensures PadsRun(pads, pads', run)
    ensures pads'[run[0].line] == mid[run[0].line]
  {
    var a, rest := run[0], run[1..];
    forall b | b in rest
      ensures b in run && b.line != a.line
    {
      var j :| 0 <= j < |rest| && rest[j] == b;
      assert run[j + 1] == b;
    }
  }

  /** Whether, on every line that two runs share, the earlier run's anchor is to the left. */
  ghost predicate LeftToRight(runs: seq<seq<Anchor>>) {
    forall p, q, a, b :: 0 <= p < q < |runs| && a in runs[p] && b in runs[q] && a.line == b.line ==> a.col < b.col
  }

  ghost predicate IsUnpadded(pads: seq<seq<Pad>>, a: Anchor) {
    a.line < |pads| && forall i :: 0 <= i < |pads[a.line]| ==> pads[a.line][i].offset != a.col
  }

  /** The anchors of a run stand in one column, which is that of one that was not moved for it. */
  ghost predicate IsAligned(pads: seq<seq<Pad>>, run: seq<Anchor>) {
    && (forall a, b :: a in run && b in run ==> ColumnOf(pads, a) == ColumnOf(pads, b))
    && (run != [] ==> exists a :: a in run && IsUnpadded(pads, a))
  }

  /** Whether an anchor is to the left of every anchor of the runs on its line. */
  ghost predicate IsLeftOf(a: Anchor, runs: seq<seq<Anchor>>) {
    forall r, b :: 0 <= r < |runs| && b in runs[r] && b.line == a.line ==> a.col < b.col
  }

  /** Pads to the right of an anchor do not move it. */
  lemma PadsToTheRight(pads: seq<seq<Pad>>, pads': seq<seq<Pad>>, run: seq<Anchor>, a: Anchor)
    requires PadsRun(pads, pads', run) && (forall b :: b in run && b.line == a.line ==> a.col < b.col)
    ensures ColumnOf(pads', a) == ColumnOf(pads, a)
    ensures IsUnpadded(pads, a) ==> IsUnpadded(pads', a)
  {
    if a.line < |pads| && pads'[a.line] != pads[a.line] {
      var b, n :| b in run && b.line == a.line && pads'[a.line] == pads[a.line] + [Pad(b.col, n)];
      assert pads'[a.line][..|pads[a.line]|] == pads[a.line];
    }
  }

  lemma StaysAhead(lines: seq<string>, pads: seq<seq<Pad>>, pads': seq<seq<Pad>>, run: seq<Anchor>, b: Anchor)
    requires PadsRun(pads, pads', run) && IsAhead(lines, pads, b)
    requires forall a :: a in run && a.line == b.line ==> a.col < b.col
    ensures IsAhead(lines, pads', b)
  {
    if pads'[b.line] != pads[b.line] {
      var a, n :| a in run && a.line == b.line && pads'[b.line] == pads[b.line] + [Pad(a.col, n)];
    }
  }

  /** When the runs are processed left to right, every run ends up in one column. */
  lemma {:induction false} PadRunsAlign(page: Page, lines: seq<string>, pads: seq<seq<Pad>>, runs: seq<seq<Anchor>>)
    returns (pads': seq<seq<Pad>>)
    requires IsPadded(page, lines, pads) && LeftToRight(runs)
    requires forall r :: 0 <= r < |runs| ==> OnDifferentLines(runs[r])
    requires forall r, a :: 0 <= r < |runs| && a in runs[r] ==> IsAhead(lines, pads, a)
    ensures IsPadded(PadRuns(page, runs), lines, pads')
    ensures forall r :: 0 <= r < |runs| ==> IsAligned(pads', runs[r])
    ensures forall a :: IsLeftOf(a, runs) ==>
        ColumnOf(pads', a) == ColumnOf(pads, a) && (IsUnpadded(pads, a) ==> IsUnpadded(pads', a))
    ensures StandBefore(pads, pads', Flatten(runs))
    decreases |runs|
  {
    hide PadLine, PadRun, IsPadded, PadsRun, IsAhead, IsUnpadded, ColumnOf, StandBefore, LeftToRight, Target;
    if runs == [] {
      NoPads(pads);
      return pads;
    }
    RestIsLeftToRight(runs);
    var run, rest := runs[0], runs[1..];
    var target := Target(page, run);
    assert forall a :: a in run ==> IsAhead(lines, pads, a);
    var mid := PadRunAligns(page, lines, pads, run, target);
    forall r, b | 0 <= r < |rest| && b in rest[r]
      ensures IsAhead(lines, mid, b)
    {
      assert rest[r] == runs[r + 1];
      StaysAhead(lines, pads, mid, run, b);
    }
    pads' := PadRunsAlign(PadRun(page, run, target), lines, mid, rest);
    forall a | IsLeftOf(a, runs)
      ensures ColumnOf(pads', a) == ColumnOf(pads, a) && (IsUnpadded(pads, a) ==> IsUnpadded(pads', a))
    {
      LeftOfParts(a, runs);
      PadsToTheRight(pads, mid, run, a);
    }
    FirstRunStays(page, lines, pads, mid, pads', runs, target);
    MorePads(pads, mid, pads', runs);
    forall r | 0 <= r < |runs|
      ensures IsAligned(pads', runs[r])
    {
      if 0 < r {
        assert runs[r] == rest[r - 1];
      }
    }
  }

  /** Whether every new pad is directly before one of the anchors. */
  ghost predicate StandBefore(pads: seq<seq<Pad>>, pads': seq<seq<Pad>>, anchors: seq<Anchor>) {
    && |pads'| == |pads|
    && forall i, k :: 0 <= i < |pads'| && 0 <= k < |pads'[i]| ==>
         pads'[i][k] in pads[i] || exists a :: a in anchors && a.line == i && a.col == pads'[i][k].offset
  }

  lemma NoPads(pads: seq<seq<Pad>>)
    ensures StandBefore(pads, pads, [])
  {
  }

  lemma {:induction false} FlattenCons(run: seq<Anchor>, rest: seq<seq<Anchor>>)
    ensures Flatten([run] + rest) == run + Flatten(rest)
    decreases |rest|
  {
    if rest == [] {
      assert ([run] + rest)[..0] == [];
    } else {
      assert ([run] + rest)[..|rest|] == [run] + rest[..|rest| - 1];
      FlattenCons(run, rest[..|rest| - 1]);
    }
  }

  lemma MorePads(pads: seq<seq<Pad>>, mid: seq<seq<Pad>>, pads': seq<seq<Pad>>, runs: seq<seq<Anchor>>)
    requires runs != [] && PadsRun(pads, mid, runs[0]) && StandBefore(mid, pads', Flatten(runs[1..]))
    ensures StandBefore(pads, pads', Flatten(runs))
  {
    hide Flatten;
    assert runs == [runs[0]] + runs[1..];
    FlattenCons(runs[0], runs[1..]);
    forall i, k | 0 <= i < |pads'| && 0 <= k < |pads'[i]| && pads'[i][k] !in pads[i]
      ensures exists a :: a in Flatten(runs) && a.line == i && a.col == pads'[i][k].offset
    {
      if pads'[i][k] in mid[i] {
        var a, n :| a in runs[0] && a.line == i && mid[i] == pads[i] + [Pad(a.col, n)];
        assert a in Flatten(runs);
      } else {
        var a :| a in Flatten(runs[1..]) && a.line == i && a.col == pads'[i][k].offset;
        assert a in Flatten(runs);
      }
    }
  }

  lemma LeftOfParts(a: Anchor, runs: seq<seq<Anchor>>)
    requires runs != [] && IsLeftOf(a, runs)
    ensures IsLeftOf(a, runs[1..]) && forall b :: b in runs[0] && b.line == a.line ==> a.col < b.col
  {
    assert forall r :: 0 <= r < |runs[1..]| ==> runs[1..][r] == runs[r + 1];
  }

  lemma RestIsLeftToRight(runs: seq<seq<Anchor>>)
    requires runs != [] && LeftToRight(runs)
    ensures LeftToRight(runs[1..]) && forall a :: a in runs[0] ==> IsLeftOf(a, runs[1..])
  {
    assert forall r :: 0 <= r < |runs[1..]| ==> runs[1..][r] == runs[r + 1];
  }

  lemma FirstRunStays(page: Page, lines: seq<string>, pads: seq<seq<Pad>>, mid: seq<seq<Pad>>, pads': seq<seq<Pad>>,
                      runs: seq<seq<Anchor>>, target: nat)
    requires runs != [] && LeftToRight(runs) && target == Target(page, runs[0])
    requires forall a :: a in runs[0] ==> IsAhead(lines, pads, a) && ColumnOf(mid, a) == target
    requires forall a :: a in runs[0] && Shifted(page, a) == target ==>
        a.line < |pads| == |mid| && mid[a.line] == pads[a.line]
    requires forall a :: IsLeftOf(a, runs[1..]) ==>
        ColumnOf(pads', a) == ColumnOf(mid, a) && (IsUnpadded(mid, a) ==> IsUnpadded(pads', a))
    ensures IsAligned(pads', runs[0])
  {
    hide ColumnOf, Target;
    var run := runs[0];
    RestIsLeftToRight(runs);
    if run != [] {
      var a :| a in run && Shifted(page, a) == target;
      assert IsAhead(lines, pads, a);
      assert IsUnpadded(mid, a);
    }
  }

  // ---- The pass ---------------------------------------------------------------------

  function Split(s: string): (lines: seq<string>)
    ensures lines != []
  {
    if s == "" then
      [""]
    else if s[0] == NEWLINE then
      [""] + Split(s[1..])
    else
      var rest := Split(s[1..]);
      [[s[0]] + rest[0]] + rest[1..]
  }

  function Join(lines: seq<string>): string {
    if lines == [] then "" else if |lines| == 1 then lines[0] else lines[0] + [NEWLINE] + Join(lines[1..])
  }

  function AllRuns(buckets: seq<Bucket>): seq<seq<Anchor>> {
    if buckets == [] then [] else AllRuns(buckets[..|buckets| - 1]) + RunsOf(buckets[|buckets| - 1].anchors)
  }

  function FirstCol(run: seq<Anchor>): nat {
    if run == [] then 0 else run[0].col
  }

  /** Insert a run after the runs whose first column is not larger. */
  function PutRun(runs: seq<seq<Anchor>>, run: seq<Anchor>): seq<seq<Anchor>> {
    if runs != [] && FirstCol(run) < FirstCol(runs[|runs| - 1]) then
      PutRun(runs[..|runs| - 1], run) + [runs[|runs| - 1]]
    else
      runs + [run]
  }

  /** `sort_by_key`, a stable sort. */
  function SortRuns(runs: seq<seq<Anchor>>): seq<seq<Anchor>> {
    if runs == [] then [] else PutRun(SortRuns(runs[..|runs| - 1]), runs[|runs| - 1])
  }

  ghost predicate IsSorted(runs: seq<seq<Anchor>>) {
    forall i, j :: 0 <= i < j < |runs| ==> FirstCol(runs[i]) <= FirstCol(runs[j])
  }

  ghost predicate AreAtMost(runs: seq<seq<Anchor>>, col: nat) {
    forall i :: 0 <= i < |runs| ==> FirstCol(runs[i]) <= col
  }

  lemma {:induction false} PutRunSorts(runs: seq<seq<Anchor>>, run: seq<Anchor>, col: nat)
    requires IsSorted(runs) && AreAtMost(runs, col) && FirstCol(run) <= col
    ensures IsSorted(PutRun(runs, run)) && AreAtMost(PutRun(runs, run), col)
    decreases |runs|
  {
    hide FirstCol;
    if runs != [] && FirstCol(run) < FirstCol(runs[|runs| - 1]) {
      PutRunSorts(runs[..|runs| - 1], run, FirstCol(runs[|runs| - 1]));
    }
  }

  lemma {:induction false} PutRunKeeps(runs: seq<seq<Anchor>>, run: seq<Anchor>)
    ensures multiset(PutRun(runs, run)) == multiset(runs) + multiset{run}
    decreases |runs|
  {
    hide FirstCol;
    if runs != [] && FirstCol(run) < FirstCol(runs[|runs| - 1]) {
      PutRunKeeps(runs[..|runs| - 1], run);
      assert runs == runs[..|runs| - 1] + [runs[|runs| - 1]];
    }
  }

  function MaxFirstCol(runs: seq<seq<Anchor>>): (m: nat)
    ensures AreAtMost(runs, m)
  {
    if runs == [] then
      0
    else
      var m := MaxFirstCol(runs[1..]);
      assert forall i :: 0 < i < |runs| ==> runs[i] == runs[1..][i - 1];
      if m < FirstCol(runs[0]) then FirstCol(runs[0]) else m
  }

  lemma {:induction false} SortRunsSorts(runs: seq<seq<Anchor>>)
    ensures IsSorted(SortRuns(runs)) && multiset(SortRuns(runs)) == multiset(runs)
    decreases |runs|
  {
    if runs != [] {
      var sorted, last := SortRuns(runs[..|runs| - 1]), runs[|runs| - 1];
      SortRunsSorts(runs[..|runs| - 1]);
      PutRunSorts(sorted, last, MaxFirstCol(sorted) + FirstCol(last));
      PutRunKeeps(sorted, last);
      assert runs == runs[..|runs| - 1] + [runs[|runs| - 1]];
    }
  }

  /** The runs of all the anchors, the leftmost first. */
  function RunOrder(anchors: seq<Anchor>): seq<seq<Anchor>> {
    SortRuns(AllRuns(Buckets(anchors)))
  }

  method Align(text: string, anchors: seq<Anchor>) returns (out: string)
    ensures out == if anchors == [] then text
                   else Join(PadRuns(Page(Split(text), map[]), RunOrder(anchors)).lines)
  {
    hide Put, Split, Join, PadRuns, SortRuns, RunsOf, Runs;
    if anchors == [] {
      return text;
    }
    var lines := Split(text);

    var buckets: seq<Bucket> := [];
    for i := 0 to |anchors|
      invariant buckets == Buckets(anchors[..i])
    {
      assert anchors[..i + 1][..i] == anchors[..i];
      buckets := Put(buckets, anchors[i]);
    }
    assert anchors[..|anchors|] == anchors;

    // Split each bucket into maximal runs of consecutive lines.
    var groups: seq<seq<Anchor>> := [];
    for b := 0 to |buckets|
      invariant groups == AllRuns(buckets[..b])
    {
      var runs := SplitRuns(buckets[b].anchors);
      assert buckets[..b + 1][..b] == buckets[..b];
      groups := groups + runs;
    }
    assert buckets[..|buckets|] == buckets;

    // Apply the leftmost anchors first.
    groups := SortRuns(groups);
    lines := ApplyRuns(lines, groups);
    return Join(lines);
  }

  method SplitRuns(anchors: seq<Anchor>) returns (groups: seq<seq<Anchor>>)
    ensures groups == RunsOf(anchors)
  {
    groups := [];
    var run: seq<Anchor> := [];
    for i := 0 to |anchors|
      invariant (groups, run) == Runs(anchors[..i])
    {
      assert anchors[..i + 1][..i] == anchors[..i];
      var a := anchors[i];
      if run != [] && a.line != run[|run| - 1].line + 1 {
        groups := groups + [run];
        run := [];
      }
      run := run + [a];
      assert [] + [a] == [a];
    }
    assert anchors[..|anchors|] == anchors;
    if run != [] {
      groups := groups + [run];
    }
  }

  method ApplyRuns(lines0: seq<string>, groups: seq<seq<Anchor>>) returns (lines: seq<string>)
    ensures lines == PadRuns(Page(lines0, map[]), groups).lines
  {
    hide Insert, Target;
    lines := lines0;
    var shift: map<nat, nat> := map[];
    for g := 0 to |groups|
      invariant PadRuns(Page(lines0, map[]), groups) == PadRuns(Page(lines, shift), groups[g..])
    {
      var group := groups[g];
      assert groups[g..][1..] == groups[g + 1..];
      var target := MaxShifted(lines, shift, group);
      ghost var before := Page(lines, shift);
      for k := 0 to |group|
        invariant PadRun(before, group, target) == PadRun(Page(lines, shift), group[k..], target)
      {
        assert group[k..][1..] == group[k + 1..];
        var a := group[k];
        var at := a.col + (if a.line in shift then shift[a.line] else 0);
        if at < target && a.line < |lines| {
          lines := lines[a.line := Insert(lines[a.line], at, target - at)];
          shift := shift[a.line := (if a.line in shift then shift[a.line] else 0) + (target - at)];
        }
      }
    }
  }

  method MaxShifted(lines: seq<string>, shift: map<nat, nat>, group: seq<Anchor>) returns (target: nat)
    ensures target == Target(Page(lines, shift), group)
  {
    var page := Page(lines, shift);
    target := 0;
    var k := |group|;
    while 0 < k
      invariant 0 <= k <= |group|
      invariant target == Target(page, group[k..])
    {
      k := k - 1;
      assert group[k..][1..] == group[k + 1..];
      if target <= Shifted(page, group[k]) {
        target := Shifted(page, group[k]);
      }
    }
    assert group[0..] == group;
  }
}
