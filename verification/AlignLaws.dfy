/** What the alignment and the final trim promise (fpp_format/src/doc.rs:228-320). */
module AlignLaws {
  import opened Docs
  import opened Alignment
  import Rendering
  import RenderLaws

  // ---- The runs are those of the anchors ---------------------------------------------

  /** The anchors of one kind and level. */
  function Select(anchors: seq<Anchor>, kind: AnchorKind, level: int): seq<Anchor> {
    if anchors == [] then
      []
    else
      var a := anchors[|anchors| - 1];
      Select(anchors[..|anchors| - 1], kind, level) + if a.kind == kind && a.level == level then [a] else []
  }

  function Lookup(buckets: seq<Bucket>, kind: AnchorKind, level: int): seq<Anchor> {
    if buckets == [] then
      []
    else if buckets[0].kind == kind && buckets[0].level == level then
      buckets[0].anchors
    else
      Lookup(buckets[1..], kind, level)
  }

  ghost predicate KeysAscend(buckets: seq<Bucket>) {
    forall i, j :: 0 <= i < j < |buckets| ==> KeyBefore(buckets[i], buckets[j])
  }

  predicate KeyBefore(a: Bucket, b: Bucket) {
    KindRank(a.kind) < KindRank(b.kind) || (a.kind == b.kind && a.level < b.level)
  }

  lemma {:induction false} LookupMissing(buckets: seq<Bucket>, kind: AnchorKind, level: int)
    requires forall i :: 0 <= i < |buckets| ==> KeyBefore(Bucket(kind, level, []), buckets[i])
    ensures Lookup(buckets, kind, level) == []
  {
    if buckets != [] {
      LookupMissing(buckets[1..], kind, level);
    }
  }

  ghost predicate IsBelow(lo: Bucket, buckets: seq<Bucket>) {
    forall i :: 0 <= i < |buckets| ==> KeyBefore(lo, buckets[i])
  }

  lemma {:induction false} PutStaysAbove(buckets: seq<Bucket>, a: Anchor, lo: Bucket)
    requires IsBelow(lo, buckets) && KeyBefore(lo, Bucket(a.kind, a.level, []))
    ensures IsBelow(lo, Put(buckets, a))
  {
    if buckets != [] && !KeyLess(a, buckets[0]) && !HasKey(a, buckets[0]) {
      PutStaysAbove(buckets[1..], a, lo);
    }
  }

  lemma AscendCons(b: Bucket, rest: seq<Bucket>)
    requires KeysAscend(rest) && IsBelow(b, rest)
    ensures KeysAscend([b] + rest)
  {
    hide KeyBefore;
  }

  lemma AscendTail(buckets: seq<Bucket>)
    requires buckets != [] && KeysAscend(buckets)
    ensures KeysAscend(buckets[1..]) && IsBelow(buckets[0], buckets[1..])
  {
    hide KeyBefore;
  }

  lemma {:induction false} PutAscends(buckets: seq<Bucket>, a: Anchor)
    requires KeysAscend(buckets)
    ensures KeysAscend(Put(buckets, a))
  {
    hide KeysAscend;
    var key := Bucket(a.kind, a.level, [a]);
    if buckets == [] {
      NoKeys();
      AscendCons(key, []);
    } else {
      AscendTail(buckets);
      assert buckets == [buckets[0]] + buckets[1..];
      if KeyLess(a, buckets[0]) {
        AscendCons(key, buckets);
      } else if HasKey(a, buckets[0]) {
        AscendCons(buckets[0].(anchors := buckets[0].anchors + [a]), buckets[1..]);
      } else {
        PutAscends(buckets[1..], a);
        PutStaysAbove(buckets[1..], a, buckets[0]);
        AscendCons(buckets[0], Put(buckets[1..], a));
      }
    }
  }

  lemma NoKeys()
    ensures KeysAscend([])
  {
  }

  lemma {:induction false} PutInBucket(buckets: seq<Bucket>, a: Anchor, kind: AnchorKind, level: int)
    requires KeysAscend(buckets)
    ensures Lookup(Put(buckets, a), kind, level)
         == Lookup(buckets, kind, level) + if a.kind == kind && a.level == level then [a] else []
  {
    hide KeysAscend;
    var put := Put(buckets, a);
    if buckets != [] {
      AscendTail(buckets);
      if KeyLess(a, buckets[0]) {
        assert put[1..] == buckets;
        if a.kind == kind && a.level == level {
          LookupMissing(buckets, kind, level);
        }
      } else if HasKey(a, buckets[0]) {
        assert put[1..] == buckets[1..];
      } else {
        PutInBucket(buckets[1..], a, kind, level);
        assert put[1..] == Put(buckets[1..], a);
      }
    }
  }

  /** The buckets hold the anchors of each kind and level, in order. */
  lemma {:induction false} BucketsSelect(anchors: seq<Anchor>, kind: AnchorKind, level: int)
    ensures KeysAscend(Buckets(anchors))
    ensures Lookup(Buckets(anchors), kind, level) == Select(anchors, kind, level)
  {
    if anchors != [] {
      BucketsSelect(anchors[..|anchors| - 1], kind, level);
      PutAscends(Buckets(anchors[..|anchors| - 1]), anchors[|anchors| - 1]);
      PutInBucket(Buckets(anchors[..|anchors| - 1]), anchors[|anchors| - 1], kind, level);
    }
  }

  /** The anchors of all buckets. */
  function Contents(buckets: seq<Bucket>): multiset<Anchor> {
    if buckets == [] then multiset{} else Contents(buckets[..|buckets| - 1]) + multiset(buckets[|buckets| - 1].anchors)
  }

  lemma {:induction false} ContentsCons(b: Bucket, rest: seq<Bucket>)
    ensures Contents([b] + rest) == multiset(b.anchors) + Contents(rest)
    decreases |rest|
  {
    if rest == [] {
      assert ([b] + rest)[..0] == [];
    } else {
      assert ([b] + rest)[..|rest|] == [b] + rest[..|rest| - 1];
      ContentsCons(b, rest[..|rest| - 1]);
    }
  }

  lemma {:induction false} PutContents(buckets: seq<Bucket>, a: Anchor)
    ensures Contents(Put(buckets, a)) == Contents(buckets) + multiset{a}
  {
    hide Contents;
    if buckets == [] || KeyLess(a, buckets[0]) {
      ContentsCons(Bucket(a.kind, a.level, [a]), buckets);
    } else {
      assert buckets == [buckets[0]] + buckets[1..];
      ContentsCons(buckets[0], buckets[1..]);
      if HasKey(a, buckets[0]) {
        ContentsCons(buckets[0].(anchors := buckets[0].anchors + [a]), buckets[1..]);
      } else {
        PutContents(buckets[1..], a);
        ContentsCons(buckets[0], Put(buckets[1..], a));
      }
    }
  }

  lemma BucketsSnoc(init: seq<Anchor>, a: Anchor)
    ensures Buckets(init + [a]) == Put(Buckets(init), a) && Buckets([]) == []
    ensures multiset(init + [a]) == multiset(init) + multiset{a}
    ensures Contents([]) == multiset{}
  {
    assert (init + [a])[..|init|] == init;
  }

  lemma {:induction false} BucketContents(anchors: seq<Anchor>)
    ensures Contents(Buckets(anchors)) == multiset(anchors)
  {
    hide Contents, Buckets, Put;
    if anchors == [] {
      BucketsSnoc([], Anchor(0, 0, 0, Arrow));
    } else {
      var init, a := anchors[..|anchors| - 1], anchors[|anchors| - 1];
      BucketContents(init);
      PutContents(Buckets(init), a);
      BucketsSnoc(init, a);
      assert anchors == init + [a];
    }
  }

  /** The anchors of all runs. */
  function RunContents(runs: seq<seq<Anchor>>): multiset<Anchor> {
    multiset(Flatten(runs))
  }

  lemma {:induction false} FlattenConcat(a: seq<seq<Anchor>>, b: seq<seq<Anchor>>)
    ensures Flatten(a + b) == Flatten(a) + Flatten(b)
    decreases |b|
  {
    hide Flatten;
    if b == [] {
      FlattenSnoc([], []);
      assert a + b == a && Flatten(a) + [] == Flatten(a);
    } else {
      var init, last := b[..|b| - 1], b[|b| - 1];
      FlattenConcat(a, init);
      FlattenSnoc(a + init, last);
      FlattenSnoc(init, last);
      assert b == init + [last] && a + b == (a + init) + [last];
      assert Flatten(a) + Flatten(init) + last == Flatten(a) + (Flatten(init) + last);
    }
  }

  lemma {:induction false} AllRunsAre(buckets: seq<Bucket>)
    ensures RunContents(AllRuns(buckets)) == Contents(buckets)
    ensures forall run :: run in AllRuns(buckets) ==> IsRun(run)
    decreases |buckets|
  {
    hide Flatten, IsRun, RunsOf;
    if buckets == [] {
      NoRuns();
    } else {
      var init, last := buckets[..|buckets| - 1], buckets[|buckets| - 1];
      AllRunsAre(init);
      RunsAreMaximal(last.anchors);
      FlattenConcat(AllRuns(init), RunsOf(last.anchors));
      forall run | run in RunsOf(last.anchors)
        ensures IsRun(run)
      {
        var r :| 0 <= r < |RunsOf(last.anchors)| && RunsOf(last.anchors)[r] == run;
      }
    }
  }

  lemma NoRuns()
    ensures Flatten([]) == []
  {
  }

  lemma {:induction false} PutRunContents(runs: seq<seq<Anchor>>, run: seq<Anchor>)
    ensures RunContents(PutRun(runs, run)) == RunContents(runs) + multiset(run)
    decreases |runs|
  {
    hide FirstCol;
    if runs != [] && FirstCol(run) < FirstCol(runs[|runs| - 1]) {
      var init, last := runs[..|runs| - 1], runs[|runs| - 1];
      PutRunContents(init, run);
      assert (PutRun(init, run) + [last])[..|PutRun(init, run)|] == PutRun(init, run);
    } else {
      assert (runs + [run])[..|runs|] == runs;
    }
  }

  lemma {:induction false} SortRunContents(runs: seq<seq<Anchor>>)
    ensures RunContents(SortRuns(runs)) == RunContents(runs)
    decreases |runs|
  {
    hide PutRun;
    if runs != [] {
      SortRunContents(runs[..|runs| - 1]);
      PutRunContents(SortRuns(runs[..|runs| - 1]), runs[|runs| - 1]);
    }
  }

  /** The runs that are aligned hold every anchor once, and each stands on consecutive lines. */
  lemma RunOrderIsPartition(anchors: seq<Anchor>)
    ensures RunContents(RunOrder(anchors)) == multiset(anchors)
    ensures forall run :: run in RunOrder(anchors) ==> IsRun(run)
    ensures IsSorted(RunOrder(anchors))
  {
    hide Buckets, AllRuns, SortRuns, IsRun, Flatten;
    BucketContents(anchors);
    AllRunsAre(Buckets(anchors));
    SortRunsSorts(AllRuns(Buckets(anchors)));
    SortRunContents(AllRuns(Buckets(anchors)));
    forall run | run in RunOrder(anchors)
      ensures IsRun(run)
    {
      assert run in multiset(RunOrder(anchors));
      assert run in multiset(AllRuns(Buckets(anchors)));
    }
  }

  // ---- The alignment -------------------------------------------------------------------

  /** Whether anchors were recorded within the lines of a text. */
  ghost predicate AreWithin(anchors: seq<Anchor>, lines: seq<string>) {
    forall a :: a in anchors ==> a.line < |lines| && a.col <= |lines[a.line]|
  }

  /** Whether every pad is directly before one of the anchors. */
  ghost predicate ArePadsBefore(pads: seq<seq<Pad>>, anchors: seq<Anchor>) {
    forall i, k :: 0 <= i < |pads| && 0 <= k < |pads[i]| ==>
      exists a :: a in anchors && a.line == i && a.col == pads[i][k].offset
  }

  lemma {:induction false} InFlatten(runs: seq<seq<Anchor>>, r: nat, a: Anchor)
    requires r < |runs| && a in runs[r]
    ensures a in Flatten(runs)
    decreases |runs|
  {
    if r < |runs| - 1 {
      InFlatten(runs[..|runs| - 1], r, a);
    }
  }

  /**
   When the runs are processed left to right on every line they share, all the anchors of
   each run stand in one column, that of an anchor that was not moved for it, and every line
   is its old text with spaces inserted directly before anchors.
   */
  lemma AlignmentHolds(text: string, anchors: seq<Anchor>) returns (pads: seq<seq<Pad>>)
    requires AreWithin(anchors, Split(text)) && LeftToRight(RunOrder(anchors))
    ensures var lines := Split(text);
            var lines' := PadRuns(Page(lines, map[]), RunOrder(anchors)).lines;
            && |lines'| == |pads| == |lines|
            && (forall i :: 0 <= i < |lines| ==>
                  ArePads(lines[i], pads[i]) && lines'[i] == PadLine(lines[i], pads[i]))
    ensures forall run :: run in RunOrder(anchors) ==> IsAligned(pads, run)
    ensures ArePadsBefore(pads, anchors)
  {
    hide Split, RunOrder, PadRuns, Flatten, IsAligned, PadLine, LeftToRight;
    var lines := Split(text);
    var runs := RunOrder(anchors);
    var none: seq<seq<Pad>> := seq(|lines|, _ => []);
    RunOrderIsPartition(anchors);
    Unpadded(lines, none);
    forall r | 0 <= r < |runs|
      ensures OnDifferentLines(runs[r])
    {
      assert runs[r] in runs;
    }
    forall r, a | 0 <= r < |runs| && a in runs[r]
      ensures IsAhead(lines, none, a)
    {
      InFlatten(runs, r, a);
      assert a in multiset(Flatten(runs));
    }
    pads := PadRunsAlign(Page(lines, map[]), lines, none, runs);
    forall i, k | 0 <= i < |pads| && 0 <= k < |pads[i]|
      ensures exists a :: a in anchors && a.line == i && a.col == pads[i][k].offset
    {
      assert pads[i][k] !in none[i];
      var a :| a in Flatten(runs) && a.line == i && a.col == pads[i][k].offset;
      assert a in multiset(Flatten(runs));
    }
  }

  lemma Unpadded(lines: seq<string>, none: seq<seq<Pad>>)
    requires |none| == |lines| && forall i :: 0 <= i < |none| ==> none[i] == []
    ensures IsPadded(Page(lines, map[]), lines, none)
  {
  }

  // ---- Whatever the runs -----------------------------------------------------------------

  /** The characters of a line other than spaces. */
  function Ink(l: string): string {
    if l == "" then "" else Ink(l[..|l| - 1]) + if l[|l| - 1] == ' ' then "" else [l[|l| - 1]]
  }

  lemma {:induction false} InkConcat(a: string, b: string)
    ensures Ink(a + b) == Ink(a) + Ink(b)
    decreases |b|
  {
    if b == "" {
      assert a + b == a;
    } else {
      assert (a + b)[..|a + b| - 1] == a + b[..|b| - 1];
      InkConcat(a, b[..|b| - 1]);
    }
  }

  lemma {:induction false} SpacesHaveNoInk(s: string)
    requires forall i :: 0 <= i < |s| ==> s[i] == ' '
    ensures Ink(s) == ""
  {
    if s != "" {
      SpacesHaveNoInk(s[..|s| - 1]);
    }
  }

  lemma InsertKeepsInk(l: string, at: nat, n: nat)
    ensures Ink(Insert(l, at, n)) == Ink(l)
  {
    hide Ink, Spaces;
    var b := if at <= |l| then at else |l|;
    InkConcat(l[..b] + Spaces(n), l[b..]);
    InkConcat(l[..b], Spaces(n));
    SpacesHaveNoInk(Spaces(n));
    InkConcat(l[..b], l[b..]);
    assert l == l[..b] + l[b..];
    assert Ink(l[..b]) + "" == Ink(l[..b]);
  }

  lemma {:induction false} PadRunKeepsInk(page: Page, run: seq<Anchor>, target: nat, i: nat)
    requires i < |page.lines|
    ensures Ink(PadRun(page, run, target).lines[i]) == Ink(page.lines[i])
    decreases |run|
  {
    hide Ink, Insert;
    if run != [] {
      var a := run[0];
      InsertKeepsInk(page.lines[i], Shifted(page, a), if Shifted(page, a) < target then target - Shifted(page, a) else 0);
      PadRunKeepsInk(PadAnchor(page, a, target), run[1..], target, i);
    }
  }

  /** In whatever order the runs are processed, a line keeps its characters: only spaces are
      inserted. */
  lemma {:induction false} PaddingKeepsInk(page: Page, runs: seq<seq<Anchor>>, i: nat)
    requires i < |page.lines|
    ensures |PadRuns(page, runs).lines| == |page.lines|
    ensures Ink(PadRuns(page, runs).lines[i]) == Ink(page.lines[i])
    decreases |runs|
  {
    hide Ink, PadRun;
    if runs != [] {
      PadRunKeepsInk(page, runs[0], Target(page, runs[0]), i);
      PaddingKeepsInk(PadRun(page, runs[0], Target(page, runs[0])), runs[1..], i);
    }
  }
}
