/**
 `LexedStr::intersperse_trivia` and its `Builder`
 (fpp_lsp_parser/src/shortcuts.rs:157-333).

 The builder delays every exit until the next step. `Replay` is the same replay without
 delays; the builder is proved to produce it, and the promises of the parser (the source
 can be recreated, the tree is the parser's) are proved of it.
 */
module Replay {
  import opened Syntax
  import opened Trivia
  import Utf8

  // ---- The outputs that may be replayed ---------------------------------

  /** The kinds of the tokens among the steps from the `i`th on. */
  function TokenKinds(steps: seq<Step>, i: nat): seq<SyntaxKind>
    requires i <= |steps|
    decreases |steps| - i
  {
    if i == |steps| then
      []
    else
      (if steps[i].Token? then [steps[i].kind] else []) + TokenKinds(steps, i + 1)
  }

  /** Whether the steps are framed by a root node and consume one token at a time. */
  predicate IsFramed(steps: seq<Step>) {
    && 2 <= |steps|
    && steps[0].Enter?
    && steps[|steps| - 1].Exit?
    && forall i :: 0 <= i < |steps| && steps[i].Token? ==> steps[i].nInputTokens == 1
  }

  // ---- The replay without delays ----------------------------------------

  function RawToken(lx: LexedStr, i: nat): StrStep
    requires lx.Valid() && i < lx.Len()
  {
    StrToken(lx.Kind(i), lx.Text(i))
  }

  /** The raw tokens `lo..hi`, each on its own. */
  function Raw(lx: LexedStr, lo: nat, hi: nat): (raw: seq<StrStep>)
    requires lx.Valid() && lo <= hi <= lx.Len()
    ensures |raw| == hi - lo
    ensures forall i :: 0 <= i < |raw| ==> raw[i].StrToken?
  {
    var raw := seq(hi - lo, i requires 0 <= i < hi - lo => RawToken(lx, lo + i));
    assert forall i :: 0 <= i < |raw| ==> raw[i] == RawToken(lx, lo + i);
    raw
  }

  /** The end of the removed region at `pos`, if there is one. */
  function RemovedEnd(lx: LexedStr, pos: nat): (e: nat)
    requires lx.Valid() && pos <= lx.Len()
    ensures pos <= e <= lx.Len()
  {
    if pos < lx.Len() && RegionAt(lx, pos).Remove? then RegionEnd(pos, RegionAt(lx, pos)) else pos
  }

  /** The end of the region of the parser token at or after `pos`. */
  function TokenEnd(lx: LexedStr, pos: nat): (e: nat)
    requires lx.Valid() && pos <= lx.Len()
    ensures pos <= e <= lx.Len()
  {
    var p := RemovedEnd(lx, pos);
    if p < lx.Len() then RegionEnd(p, RegionAt(lx, p)) else p
  }

  predicate IsOuter(k: SyntaxKind) {
    k == WHITESPACE || k == COMMENT || k == UNKNOWN
  }

  /** The end of the whitespace and comments from `pos` on, up to `limit`. */
  function OuterEndUpTo(lx: LexedStr, pos: nat, limit: nat): (e: nat)
    requires lx.Valid() && pos <= limit <= lx.Len()
    ensures pos <= e <= limit
    decreases limit - pos
  {
    if pos < limit && IsOuter(lx.Kind(pos)) then OuterEndUpTo(lx, pos + 1, limit) else pos
  }

  /** The end of the removed whitespace and comments that stay outside the next node. */
  function OuterEnd(lx: LexedStr, pos: nat): (e: nat)
    requires lx.Valid() && pos <= lx.Len()
    ensures pos <= e <= RemovedEnd(lx, pos)
  {
    OuterEndUpTo(lx, pos, RemovedEnd(lx, pos))
  }

  const OUTER: set<SyntaxKind> := {WHITESPACE, COMMENT, UNKNOWN}

  lemma {:induction false} OuterStops(lx: LexedStr, pos: nat, limit: nat)
    requires lx.Valid() && pos <= limit <= lx.Len()
    ensures var e := OuterEndUpTo(lx, pos, limit);
            && (forall k :: pos <= k < e ==> lx.Kind(k) in OUTER)
            && (e < limit ==> lx.Kind(e) !in OUTER)
    decreases limit - pos
  {
    if pos < limit && IsOuter(lx.Kind(pos)) {
      OuterStops(lx, pos + 1, limit);
    }
  }

  /**
   A node that is entered leaves the whitespace, the comments and the unknown characters before it
   outside: none is left before its first token, unless they belong to an end of line that the
   parser sees.
   */
  lemma OuterEndIs(lx: LexedStr, pos: nat)
    requires lx.Valid() && pos <= lx.Len()
    ensures var e := OuterEnd(lx, pos);
            && (forall k :: pos <= k < e ==> lx.Kind(k) in OUTER)
            && (e < lx.Len() && lx.Kind(e) in OUTER ==> RegionAt(lx, e).Replace?)
  {
    hide RegionAt, LexedStr.RangeText, Ascending;
    var limit, e := RemovedEnd(lx, pos), OuterEnd(lx, pos);
    OuterStops(lx, pos, limit);
    if e < lx.Len() && e == limit {
      if pos < lx.Len() && RegionAt(lx, pos).Remove? {
        RemovedRegionsDoNotMeet(lx, pos);
      }
      KeptIsNotOuter(lx, e);
    }
  }

  lemma KeptIsNotOuter(lx: LexedStr, i: nat)
    requires lx.Valid() && i < lx.Len()
    ensures lx.Kind(i) in OUTER ==> RegionAt(lx, i).Remove? || RegionAt(lx, i).Replace?
  {
    hide LexedStr.RangeText, Ascending, IsNewlineTrivia;
  }

  /** Where a step leaves the replay that was at raw token `pos`. */
  function StepEnd(lx: LexedStr, step: Step, pos: nat): (e: nat)
    requires lx.Valid() && pos <= lx.Len()
    ensures pos <= e <= lx.Len()
  {
    if step.Token? then TokenEnd(lx, pos) else if step.Exit? then pos else OuterEnd(lx, pos)
  }

  /** What a step emits: the raw tokens it passes, then itself. */
  function StepTrace(lx: LexedStr, step: Step, pos: nat): seq<StrStep>
    requires lx.Valid() && pos <= lx.Len()
  {
    var end := StepEnd(lx, step, pos);
    Raw(lx, pos, end) +
    match step
    case Token(_, _) => []
    case Enter(kind) => [StrEnter(kind)]
    case Exit => [StrExit]
    case Error(msg) => [StrError(msg, lx.TextStart(end))]
    case Expected(kind) => [StrExpected(kind, lx.TextStart(pos), lx.TextStart(end))]
  }

  /** The replay of the steps from the `i`th on, from raw token `pos`. Only the last exit
      waits for the trivia before it. */
  function Replay(lx: LexedStr, steps: seq<Step>, i: nat, pos: nat): seq<StrStep>
    requires lx.Valid() && i < |steps| && pos <= lx.Len()
    decreases |steps| - i
  {
    if i == |steps| - 1 then
      Raw(lx, pos, RemovedEnd(lx, pos)) + [StrExit]
    else
      StepTrace(lx, steps[i], pos) + Replay(lx, steps, i + 1, StepEnd(lx, steps[i], pos))
  }

  lemma RawSnoc(lx: LexedStr, lo: nat, hi: nat)
    requires lx.Valid() && lo <= hi < lx.Len()
    ensures Raw(lx, lo, hi + 1) == Raw(lx, lo, hi) + [RawToken(lx, hi)]
  {
    hide RawToken;
  }

  lemma RawSplit(lx: LexedStr, lo: nat, mid: nat, hi: nat)
    requires lx.Valid() && lo <= mid <= hi <= lx.Len()
    ensures Raw(lx, lo, hi) == Raw(lx, lo, mid) + Raw(lx, mid, hi)
  {
    hide RawToken;
  }

  lemma RawEmpty(lx: LexedStr, pos: nat)
    requires lx.Valid() && pos <= lx.Len()
    ensures Raw(lx, pos, pos) == []
  {
  }

  // ---- The builder -------------------------------------------------------

  datatype State = PendingEnter | Normal | PendingExit

  class Builder {
    const lexed: LexedStr
    var pos: nat
    var state: State
    var sink: seq<StrStep>

    ghost predicate Valid()
      reads this
    {
      lexed.Valid() && pos <= lexed.Len()
    }

    /** What the sink has received, with the exit it is still owed. */
    ghost function Emitted(): seq<StrStep>
      reads this
    {
      sink + if state.PendingExit? then [StrExit] else []
    }

    constructor (lexed: LexedStr)
      requires lexed.Valid()
      ensures Valid() && this.lexed == lexed
      ensures pos == 0 && state == PendingEnter && sink == []
    {
      this.lexed := lexed;
      pos := 0;
      state := PendingEnter;
      sink := [];
    }

    method DoToken(kind: SyntaxKind, nTokens: nat)
      requires Valid() && 0 < nTokens && pos + nTokens <= lexed.Len()
      modifies this`pos, this`sink
      ensures Valid() && pos == old(pos) + nTokens
      ensures sink == old(sink) + [StrToken(kind, lexed.RangeText(old(pos), pos))]
    {
      var text := lexed.RangeText(pos, pos + nTokens);
      pos := pos + nTokens;
      sink := sink + [StrToken(kind, text)];
    }

    /** The loops that emit the next `n` raw tokens one by one. */
    method DoRawTokens(n: nat)
      requires Valid() && pos + n <= lexed.Len()
      modifies this`pos, this`sink
      ensures Valid() && pos == old(pos) + n
      ensures sink == old(sink) + Raw(lexed, old(pos), pos)
    {
      hide Raw, LexedStr.RangeText;
      RawEmpty(lexed, pos);
      for k := 0 to n
        invariant Valid() && pos == old(pos) + k
        invariant sink == old(sink) + Raw(lexed, old(pos), pos)
      {
        RawSnoc(lexed, old(pos), pos);
        var kind := lexed.Kind(pos);
        DoToken(kind, 1);
      }
    }

    method Token(kind: SyntaxKind, nTokens: nat)
      requires Valid() && !state.PendingEnter? && nTokens == 1
      requires InputFrom(lexed, pos) != [] && InputFrom(lexed, pos)[0] == kind
      modifies this
      ensures Valid() && state == Normal && pos == TokenEnd(lexed, old(pos))
      ensures Emitted() == old(Emitted()) + Raw(lexed, old(pos), pos)
      decreases lexed.Len() - pos
    {
      hide Raw, RegionAt, InputFrom, LexedStr.RangeText, TokenEnd, RemovedEnd, Ascending;
      if state.PendingExit? {
        sink := sink + [StrExit];
      }
      state := Normal;
      ghost var emitted := sink;
      InputHead(lexed, pos);
      RawOne(lexed, pos);
      var t := AsTrivia(lexed, pos);
      match t {
        case Keep(k) =>
          assert kind == k;
          DoToken(kind, nTokens);
        case Replace(n, k) =>
          assert kind == k && nTokens == 1;
          DoRawTokens(n);
        case RemoveAfter(n, k) =>
          assert kind == k && nTokens == 1;
          DoToken(kind, 1);
          DoRawTokens(n);
          RawSplit(lexed, old(pos), old(pos) + 1, pos);
        case Remove(n) =>
          DoRawTokens(n);
          ghost var mid := pos;
          Token(kind, nTokens);
          RawSplit(lexed, old(pos), mid, pos);
      }
    }

    method EatTrivias()
      requires Valid()
      modifies this`pos, this`sink
      ensures Valid() && pos == RemovedEnd(lexed, old(pos))
      ensures sink == old(sink) + Raw(lexed, old(pos), pos)
    {
      hide Raw, RegionAt;
      RawEmpty(lexed, pos);
      if pos >= lexed.Len() {
        return;
      }
      var t := AsTrivia(lexed, pos);
      if t.Remove? {
        DoRawTokens(t.n);
      }
    }

    method EatWhitespaceOuter()
      requires Valid()
      modifies this`pos, this`sink
      ensures Valid() && pos == OuterEnd(lexed, old(pos))
      ensures sink == old(sink) + Raw(lexed, old(pos), pos)
      ensures forall k :: old(pos) <= k < pos ==> lexed.Kind(k) in OUTER
      ensures pos < lexed.Len() && lexed.Kind(pos) in OUTER ==> RegionAt(lexed, pos).Replace?
    {
      hide Raw, RegionAt, LexedStr.RangeText;
      OuterEndIs(lexed, pos);
      RawEmpty(lexed, pos);
      if pos >= lexed.Len() {
        return;
      }
      var t := AsTrivia(lexed, pos);
      if t.Remove? {
        for k := 0 to t.n
          invariant Valid() && pos == old(pos) + k
          invariant sink == old(sink) + Raw(lexed, old(pos), pos)
          invariant OuterEnd(lexed, old(pos)) == OuterEndUpTo(lexed, pos, old(pos) + t.n)
        {
          RawSnoc(lexed, old(pos), pos);
          var kind := lexed.Kind(pos);
          if kind == WHITESPACE || kind == COMMENT || kind == UNKNOWN {
            DoToken(kind, 1);
          } else {
            break;
          }
        }
      }
    }

    method Enter(kind: SyntaxKind)
      requires Valid()
      modifies this
      ensures Valid() && state == Normal
      ensures pos == if old(state).PendingEnter? then old(pos) else OuterEnd(lexed, old(pos))
      ensures Emitted() == old(Emitted()) + Raw(lexed, old(pos), pos) + [StrEnter(kind)]
      ensures !old(state).PendingEnter? ==>
          && (forall k :: old(pos) <= k < pos ==> lexed.Kind(k) in OUTER)
          && (pos < lexed.Len() && lexed.Kind(pos) in OUTER ==> RegionAt(lexed, pos).Replace?)
    {
      hide Raw, OuterEnd, RegionAt, LexedStr.RangeText;
      if state.PendingEnter? {
        // There is no previous node to attach trivia to.
        state := Normal;
        RawEmpty(lexed, pos);
        sink := sink + [StrEnter(kind)];
        return;
      }
      if state.PendingExit? {
        sink := sink + [StrExit];
      }
      state := Normal;
      EatWhitespaceOuter();
      sink := sink + [StrEnter(kind)];
    }

    method FlushPendingExit()
      requires Valid()
      modifies this
      ensures Valid() && pos == old(pos) && Emitted() == old(Emitted())
      ensures state == if old(state).PendingExit? then Normal else old(state)
    {
      if state.PendingExit? {
        state := Normal;
        sink := sink + [StrExit];
      }
    }

    /** One iteration of the loop over the output. */
    method Take(step: Step)
      requires Valid() && !state.PendingEnter?
      requires step.Token? ==>
          step.nInputTokens == 1 && InputFrom(lexed, pos) != [] && InputFrom(lexed, pos)[0] == step.kind
      modifies this
      ensures Valid() && pos == StepEnd(lexed, step, old(pos))
      ensures state == if step.Exit? then PendingExit else Normal
      ensures Emitted() == old(Emitted()) + StepTrace(lexed, step, old(pos))
    {
      hide Raw, TokenEnd, OuterEnd, InputFrom;
      match step {
        case Token(kind, nInputTokens) =>
          Token(kind, nInputTokens);
        case Enter(kind) =>
          Enter(kind);
        case Exit =>
          RawEmpty(lexed, pos);
          Exit();
        case Error(msg) =>
          // An error is reported at the next token.
          FlushPendingExit();
          EatWhitespaceOuter();
          var textPos := lexed.TextStart(pos);
          sink := sink + [StrError(msg, textPos)];
        case Expected(kind) =>
          FlushPendingExit();
          var start := lexed.TextStart(pos);
          EatWhitespaceOuter();
          var end := lexed.TextStart(pos);
          sink := sink + [StrExpected(kind, start, end)];
      }
    }

    method Exit()
      requires Valid() && !state.PendingEnter?
      modifies this
      ensures Valid() && state == PendingExit && pos == old(pos)
      ensures Emitted() == old(Emitted()) + [StrExit]
    {
      if state.PendingExit? {
        sink := sink + [StrExit];
      }
      state := PendingExit;
    }
  }

  lemma RawOne(lx: LexedStr, pos: nat)
    requires lx.Valid() && pos < lx.Len()
    ensures Raw(lx, pos, pos + 1) == [RawToken(lx, pos)]
  {
  }

  /** What the next kind of the parser's input says about the region at `pos`. */
  lemma InputHead(lx: LexedStr, pos: nat)
    requires lx.Valid() && pos <= lx.Len() && InputFrom(lx, pos) != []
    ensures pos < lx.Len()
    ensures var t := RegionAt(lx, pos);
            var e := RegionEnd(pos, t);
            && TokenEnd(lx, pos) == (if t.Remove? then TokenEnd(lx, e) else e)
            && (t.Remove? ==> InputFrom(lx, pos) == InputFrom(lx, e))
            && (!t.Remove? ==> InputFrom(lx, pos) == [t.kind] + InputFrom(lx, e))
            && (t.Keep? || t.RemoveAfter? ==> t.kind == lx.Kind(pos))
  {
    hide LexedStr.RangeText;
    var t := RegionAt(lx, pos);
    if t.Remove? && RegionEnd(pos, t) < lx.Len() {
      RemovedRegionsDoNotMeet(lx, pos);
    }
  }

  lemma TokenEndInput(lx: LexedStr, pos: nat)
    requires lx.Valid() && pos <= lx.Len() && InputFrom(lx, pos) != []
    ensures InputFrom(lx, TokenEnd(lx, pos)) == InputFrom(lx, pos)[1..]
  {
    hide RegionAt, TokenEnd;
    InputHead(lx, pos);
    if RegionAt(lx, pos).Remove? {
      InputHead(lx, RegionEnd(pos, RegionAt(lx, pos)));
      RemovedRegionsDoNotMeet(lx, pos);
    }
  }

  lemma OuterEndInput(lx: LexedStr, pos: nat)
    requires lx.Valid() && pos <= lx.Len()
    ensures InputFrom(lx, OuterEnd(lx, pos)) == InputFrom(lx, pos)
  {
    hide RegionAt, InputFrom;
    if pos < lx.Len() && RegionAt(lx, pos).Remove? {
      InputFromInsideRemoved(lx, pos, OuterEnd(lx, pos));
    }
  }

  /** A step leaves the input that the steps after it consume. */
  lemma StepEndInput(lx: LexedStr, steps: seq<Step>, i: nat, pos: nat)
    requires lx.Valid() && pos <= lx.Len() && i < |steps|
    requires InputFrom(lx, pos) == TokenKinds(steps, i)
    ensures InputFrom(lx, StepEnd(lx, steps[i], pos)) == TokenKinds(steps, i + 1)
    ensures steps[i].Token? ==> InputFrom(lx, pos) != [] && InputFrom(lx, pos)[0] == steps[i].kind
  {
    hide InputFrom, TokenEnd, OuterEnd;
    if steps[i].Token? {
      TokenEndInput(lx, pos);
    } else {
      OuterEndInput(lx, pos);
    }
  }

  lemma ExitTrace(lx: LexedStr, pos: nat)
    requires lx.Valid() && pos <= lx.Len()
    ensures StepTrace(lx, Step.Exit, pos) == [StrExit] && StepEnd(lx, Step.Exit, pos) == pos
  {
  }

  lemma EndOfInput(lx: LexedStr, pos: nat)
    requires lx.Valid() && pos <= lx.Len() && InputFrom(lx, pos) == []
    ensures RemovedEnd(lx, pos) == lx.Len()
  {
    hide RegionAt;
    if pos < lx.Len() && RegionEnd(pos, RegionAt(lx, pos)) < lx.Len() {
      RemovedRegionsDoNotMeet(lx, pos);
    }
  }

  /** The whole replay of a framed output. */
  function ReplayAll(lx: LexedStr, steps: seq<Step>): seq<StrStep>
    requires lx.Valid() && IsFramed(steps)
  {
    [StrEnter(steps[0].kind)] + Replay(lx, steps, 1, 0)
  }

  method IntersperseTrivia(lx: LexedStr, output: seq<Step>) returns (sink: seq<StrStep>, isEof: bool)
    requires lx.Valid() && IsFramed(output)
    requires TokenKinds(output, 0) == InputFrom(lx, 0)
    ensures sink == ReplayAll(lx, output)
    ensures isEof
  {
    hide Raw, RemovedEnd, InputFrom, StepEnd, StepTrace;
    var builder := new Builder(lx);
    builder.Enter(output[0].kind);
    RawEmpty(lx, 0);
    for i := 1 to |output|
      invariant builder.Valid() && builder.lexed == lx && !builder.state.PendingEnter?
      invariant InputFrom(lx, builder.pos) == TokenKinds(output, i)
      invariant i < |output| ==> ReplayAll(lx, output) == builder.Emitted() + Replay(lx, output, i, builder.pos)
      invariant i == |output| ==>
          && builder.state.PendingExit?
          && ReplayAll(lx, output)
             == builder.sink + (Raw(lx, builder.pos, RemovedEnd(lx, builder.pos)) + [StrExit])
    {
      ExitTrace(lx, builder.pos);
      StepEndInput(lx, output, i, builder.pos);
      ghost var emitted := builder.Emitted();
      builder.Take(output[i]);
      assert output[i].Exit? ==> builder.Emitted()[..|emitted|] == emitted == builder.sink;
    }
    EndOfInput(lx, builder.pos);
    builder.EatTrivias();
    builder.sink := builder.sink + [StrExit];
    return builder.sink, builder.pos == builder.lexed.Len();
  }
}
