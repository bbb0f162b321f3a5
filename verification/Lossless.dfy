/**
 The promises of the replay: the source can be recreated from it, and it is the parse it
 replays with trivia put in between.
 */
module Lossless {
  import opened Syntax
  import opened Trivia
  import opened Replay
  import Utf8

  // ---- Every raw token, once, in order -----------------------------------

  function TokensOf(trace: seq<StrStep>): seq<StrStep> {
    if trace == [] then
      []
    else
      (if trace[0].StrToken? then [trace[0]] else []) + TokensOf(trace[1..])
  }

  /** The text of the tokens of a trace. */
  function TextOf(trace: seq<StrStep>): string {
    if trace == [] then "" else (if trace[0].StrToken? then trace[0].text else "") + TextOf(trace[1..])
  }

  lemma {:induction false} TokensOfConcat(a: seq<StrStep>, b: seq<StrStep>)
    ensures TokensOf(a + b) == TokensOf(a) + TokensOf(b)
  {
    if a == [] {
      assert a + b == b;
    } else {
      assert (a + b)[1..] == a[1..] + b;
      TokensOfConcat(a[1..], b);
    }
  }

  lemma {:induction false} TokensOfTokens(a: seq<StrStep>)
    requires forall i :: 0 <= i < |a| ==> a[i].StrToken?
    ensures TokensOf(a) == a
  {
    if a != [] {
      TokensOfTokens(a[1..]);
    }
  }

  lemma {:induction false} TextOfTokens(trace: seq<StrStep>)
    ensures TextOf(TokensOf(trace)) == TextOf(trace)
  {
    if trace != [] {
      TextOfTokens(trace[1..]);
      if trace[0].StrToken? {
        assert TokensOf(trace)[1..] == TokensOf(trace[1..]);
      } else {
        assert TokensOf(trace) == TokensOf(trace[1..]);
      }
    }
  }

  lemma {:induction false} TextOfRaw(lx: LexedStr, lo: nat, hi: nat)
    requires lx.Valid() && lo <= hi <= lx.Len()
    ensures TextOf(Raw(lx, lo, hi)) == lx.RangeText(lo, hi)
    decreases hi - lo
  {
    AscendingOrder(lx.text, lx.starts, lo, hi);
    if lo < hi {
      AscendingOrder(lx.text, lx.starts, lo, lo + 1);
      AscendingOrder(lx.text, lx.starts, lo + 1, hi);
      RawSplit(lx, lo, lo + 1, hi);
      RawOne(lx, lo);
      TextOfRaw(lx, lo + 1, hi);
      Utf8.SliceSplit(lx.text, lx.starts[lo], lx.starts[lo + 1], lx.starts[hi]);
      assert Raw(lx, lo, hi)[1..] == Raw(lx, lo + 1, hi);
    }
  }

  lemma TokensOfStepTrace(lx: LexedStr, step: Step, pos: nat)
    requires lx.Valid() && pos <= lx.Len()
    ensures TokensOf(StepTrace(lx, step, pos)) == Raw(lx, pos, StepEnd(lx, step, pos))
  {
    hide StepEnd, LexedStr.RangeText;
    var raw := Raw(lx, pos, StepEnd(lx, step, pos));
    var rest := StepTrace(lx, step, pos)[|raw|..];
    assert StepTrace(lx, step, pos) == raw + rest;
    TokensOfConcat(raw, rest);
    TokensOfTokens(raw);
  }

  /** The replay emits every raw token from `pos` on, once and in order. */
  lemma {:induction false} ReplayEmitsAllTokens(lx: LexedStr, steps: seq<Step>, i: nat, pos: nat)
    requires lx.Valid() && IsFramed(steps) && i < |steps| && pos <= lx.Len()
    requires InputFrom(lx, pos) == TokenKinds(steps, i)
    ensures TokensOf(Replay.Replay(lx, steps, i, pos)) == Raw(lx, pos, lx.Len())
    decreases |steps| - i
  {
    hide Raw, StepEnd, StepTrace, InputFrom;
    if i == |steps| - 1 {
      EndOfInput(lx, pos);
      TokensOfConcat(Raw(lx, pos, lx.Len()), [StrExit]);
      TokensOfStepTrace(lx, Step.Exit, pos);
      RawIsTokens(lx, pos, lx.Len());
    } else {
      var end := StepEnd(lx, steps[i], pos);
      StepEndInput(lx, steps, i, pos);
      ReplayEmitsAllTokens(lx, steps, i + 1, end);
      TokensOfConcat(StepTrace(lx, steps[i], pos), Replay.Replay(lx, steps, i + 1, end));
      TokensOfStepTrace(lx, steps[i], pos);
      RawSplit(lx, pos, end, lx.Len());
    }
  }

  lemma RawIsTokens(lx: LexedStr, lo: nat, hi: nat)
    requires lx.Valid() && lo <= hi <= lx.Len()
    ensures TokensOf(Raw(lx, lo, hi)) == Raw(lx, lo, hi)
  {
    hide LexedStr.RangeText;
    TokensOfTokens(Raw(lx, lo, hi));
  }

  /** The source can be recreated: the token texts of the replay spell it out. */
  lemma ReplayIsLossless(lx: LexedStr, steps: seq<Step>)
    requires lx.Valid() && IsFramed(steps) && TokenKinds(steps, 0) == InputFrom(lx, 0)
    ensures TokensOf(ReplayAll(lx, steps)) == Raw(lx, 0, lx.Len())
    ensures TextOf(ReplayAll(lx, steps)) == lx.text
  {
    hide Raw, InputFrom, StepEnd, StepTrace;
    ReplayEmitsAllTokens(lx, steps, 1, 0);
    assert ReplayAll(lx, steps)[1..] == Replay.Replay(lx, steps, 1, 0);
    TextOfTokens(ReplayAll(lx, steps));
    TextOfRaw(lx, 0, lx.Len());
    Utf8.SliceWhole(lx.text);
  }

  // ---- The same tree -----------------------------------------------------

  /**
   The parse that a trace replays, read off the trace and the raw tokens alone: the raw
   tokens of a parser token's region stand for that token, removed ones for nothing.
   `left` raw tokens of the region before `pos` are still to come.
   */
  function Skeleton(lx: LexedStr, trace: seq<StrStep>, pos: nat, left: nat): seq<Step>
    requires lx.Valid()
  {
    if trace == [] then
      []
    else
      var rest := trace[1..];
      match trace[0]
      case StrEnter(kind) => [Enter(kind)] + Skeleton(lx, rest, pos, left)
      case StrExit => [Step.Exit] + Skeleton(lx, rest, pos, left)
      case StrError(msg, _) => [Error(msg)] + Skeleton(lx, rest, pos, left)
      case StrExpected(kind, _, _) => [Expected(kind)] + Skeleton(lx, rest, pos, left)
      case StrToken(_, _) =>
        if 0 < left then
          Skeleton(lx, rest, pos + 1, left - 1)
        else if pos < lx.Len() && !RegionAt(lx, pos).Remove? then
          var t := RegionAt(lx, pos);
          [Token(t.kind, 1)] + Skeleton(lx, rest, pos + 1, RegionEnd(pos, t) - pos - 1)
        else
          Skeleton(lx, rest, pos + 1, 0)
  }

  lemma {:induction false} SkeletonInsideToken(lx: LexedStr, lo: nat, hi: nat, rest: seq<StrStep>)
    requires lx.Valid() && lo <= hi <= lx.Len()
    ensures Skeleton(lx, Raw(lx, lo, hi) + rest, lo, hi - lo) == Skeleton(lx, rest, hi, 0)
    decreases hi - lo
  {
    hide RegionAt, LexedStr.RangeText;
    var trace := Raw(lx, lo, hi) + rest;
    if lo == hi {
      assert trace == rest;
    } else {
      assert trace[1..] == Raw(lx, lo + 1, hi) + rest;
      SkeletonInsideToken(lx, lo + 1, hi, rest);
    }
  }

  lemma {:induction false} SkeletonOfRemoved(lx: LexedStr, lo: nat, hi: nat, rest: seq<StrStep>)
    requires lx.Valid() && lo <= lx.Len() && lo <= hi <= RemovedEnd(lx, lo)
    ensures Skeleton(lx, Raw(lx, lo, hi) + rest, lo, 0) == Skeleton(lx, rest, hi, 0)
    decreases hi - lo
  {
    hide RegionAt, LexedStr.RangeText;
    var trace := Raw(lx, lo, hi) + rest;
    if lo == hi {
      assert trace == rest;
    } else {
      assert trace[1..] == Raw(lx, lo + 1, hi) + rest;
      if lo + 1 < hi {
        RestartInsideRemoved(lx, lo, lo + 1);
      }
      SkeletonOfRemoved(lx, lo + 1, hi, rest);
    }
  }

  lemma SkeletonOfToken(lx: LexedStr, pos: nat, rest: seq<StrStep>)
    requires lx.Valid() && pos <= lx.Len() && InputFrom(lx, pos) != []
    ensures Skeleton(lx, Raw(lx, pos, TokenEnd(lx, pos)) + rest, pos, 0)
         == [Token(InputFrom(lx, pos)[0], 1)] + Skeleton(lx, rest, TokenEnd(lx, pos), 0)
  {
    hide RegionAt, LexedStr.RangeText, TokenEnd;
    var t := RegionAt(lx, pos);
    var e := RegionEnd(pos, t);
    InputHead(lx, pos);
    if t.Remove? {
      RemovedRegionsDoNotMeet(lx, pos);
      InputHead(lx, e);
      SkeletonOfSolid(lx, e, rest);
      SkeletonOfRemoved(lx, pos, e, Raw(lx, e, TokenEnd(lx, pos)) + rest);
      RawSplit(lx, pos, e, TokenEnd(lx, pos));
      assert Raw(lx, pos, TokenEnd(lx, pos)) + rest == Raw(lx, pos, e) + (Raw(lx, e, TokenEnd(lx, pos)) + rest);
    } else {
      SkeletonOfSolid(lx, pos, rest);
    }
  }

  lemma SkeletonOfSolid(lx: LexedStr, pos: nat, rest: seq<StrStep>)
    requires lx.Valid() && pos < lx.Len() && !RegionAt(lx, pos).Remove?
    ensures var e := RegionEnd(pos, RegionAt(lx, pos));
            Skeleton(lx, Raw(lx, pos, e) + rest, pos, 0)
            == [Token(RegionAt(lx, pos).kind, 1)] + Skeleton(lx, rest, e, 0)
  {
    hide RegionAt, LexedStr.RangeText;
    var e := RegionEnd(pos, RegionAt(lx, pos));
    var trace := Raw(lx, pos, e) + rest;
    assert trace[1..] == Raw(lx, pos + 1, e) + rest;
    SkeletonInsideToken(lx, pos + 1, e, rest);
  }

  lemma SkeletonOfStep(lx: LexedStr, step: Step, pos: nat, rest: seq<StrStep>)
    requires lx.Valid() && pos <= lx.Len()
    requires step.Token? ==>
        step.nInputTokens == 1 && InputFrom(lx, pos) != [] && InputFrom(lx, pos)[0] == step.kind
    ensures Skeleton(lx, StepTrace(lx, step, pos) + rest, pos, 0)
         == [step] + Skeleton(lx, rest, StepEnd(lx, step, pos), 0)
  {
    hide Raw, RegionAt, LexedStr.RangeText, TokenEnd, OuterEnd, InputFrom;
    var end := StepEnd(lx, step, pos);
    if step.Token? {
      assert StepTrace(lx, step, pos) == Raw(lx, pos, end);
      SkeletonOfToken(lx, pos, rest);
    } else {
      var own := StepTrace(lx, step, pos)[end - pos..];
      assert StepTrace(lx, step, pos) + rest == Raw(lx, pos, end) + (own + rest);
      OuterEndBound(lx, pos);
      SkeletonOfRemoved(lx, pos, end, own + rest);
      assert (own + rest)[1..] == rest;
    }
  }

  lemma OuterEndBound(lx: LexedStr, pos: nat)
    requires lx.Valid() && pos <= lx.Len()
    ensures pos <= OuterEnd(lx, pos) <= RemovedEnd(lx, pos)
  {
  }

  /** Reading the replay back gives the steps that were replayed. */
  lemma {:induction false} ReplayKeepsSteps(lx: LexedStr, steps: seq<Step>, i: nat, pos: nat)
    requires lx.Valid() && IsFramed(steps) && i < |steps| && pos <= lx.Len()
    requires InputFrom(lx, pos) == TokenKinds(steps, i)
    ensures Skeleton(lx, Replay.Replay(lx, steps, i, pos), pos, 0) == steps[i..]
    decreases |steps| - i
  {
    hide Raw, RegionAt, StepEnd, StepTrace, InputFrom, RemovedEnd;
    if i == |steps| - 1 {
      SkeletonOfRemoved(lx, pos, RemovedEnd(lx, pos), [StrExit]);
    } else {
      var end := StepEnd(lx, steps[i], pos);
      StepEndInput(lx, steps, i, pos);
      ReplayKeepsSteps(lx, steps, i + 1, end);
      SkeletonOfStep(lx, steps[i], pos, Replay.Replay(lx, steps, i + 1, end));
    }
  }

  /** The replay is the parse with trivia put in between: the nodes, the tokens, the errors
      and their order are those of the output. */
  lemma ReplayKeepsTree(lx: LexedStr, steps: seq<Step>)
    requires lx.Valid() && IsFramed(steps) && TokenKinds(steps, 0) == InputFrom(lx, 0)
    ensures Skeleton(lx, ReplayAll(lx, steps), 0, 0) == steps
  {
    hide RegionAt, StepEnd, StepTrace, InputFrom, RemovedEnd;
    ReplayKeepsSteps(lx, steps, 1, 0);
    assert ReplayAll(lx, steps)[1..] == Replay.Replay(lx, steps, 1, 0);
  }
}
