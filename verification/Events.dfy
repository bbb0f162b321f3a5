/** The trees that a parse denotes. */
module ParseTree {
  import opened Syntax

  /** A step that opens and closes no node: a token or an error. */
  type LeafStep = s: Step | !s.Enter? && !s.Exit? witness Error("")

  datatype Tree = Node(kind: SyntaxKind, children: seq<Tree>) | Leaf(step: LeafStep)

  /** The preorder walk of a tree: enter, children, exit. */
  function Walk(t: Tree): (steps: seq<Step>)
    ensures steps != []
    decreases t, 0
  {
    match t
    case Node(kind, children) => [Enter(kind)] + WalkAll(children) + [Exit]
    case Leaf(step) => [step]
  }

  function WalkAll(ts: seq<Tree>): (steps: seq<Step>)
    ensures ts != [] ==> steps != []
    decreases ts
  {
    if ts == [] then [] else WalkAll(ts[..|ts| - 1]) + Walk(ts[|ts| - 1])
  }

  lemma {:induction false} WalkAllConcat(a: seq<Tree>, b: seq<Tree>)
    ensures WalkAll(a + b) == WalkAll(a) + WalkAll(b)
  {
    if b == [] {
      assert a + b == a;
    } else {
      assert (a + b)[..|a + b| - 1] == a + b[..|b| - 1];
      WalkAllConcat(a, b[..|b| - 1]);
    }
  }

  lemma WalkAllSnoc(a: seq<Tree>, t: Tree)
    ensures WalkAll(a + [t]) == WalkAll(a) + Walk(t)
  {
    assert (a + [t])[..|a|] == a;
  }
}

/**
 The events of the parser and their conversion to steps
 (fpp_lsp_parser/src/event.rs).
 */
module Events {
  import opened Wrappers
  import opened Syntax
  import opened Packing

  /** `forwardParent` is the distance to the `Start` event of the node's parent. */
  datatype Event =
    | Start(kind: SyntaxKind, forwardParent: Option<nat>)
    | Finish
    | TokenEvent(kind: SyntaxKind, nRawTokens: uint8)
    | ErrorEvent(msg: string)
    | ErrorExpected(kind: SyntaxKind)

  const TOMBSTONE_EVENT := Start(TOMBSTONE, None)

  predicate HasParent(e: Event) {
    e.Start? && e.forwardParent.Some?
  }

  /**
   Whether forward parents link `Start` events one to one: `source[k]` is the event whose
   forward parent is `k`, or -1 when there is none.
   */
  ghost predicate Linked(events: seq<Event>, source: seq<int>) {
    && |source| == |events|
    && (forall k :: 0 <= k < |events| ==> -1 <= source[k] < k)
    && (forall k :: 0 <= k < |events| && 0 <= source[k] ==>
          events[k].Start? && HasParent(events[source[k]]) && ParentOf(events, source[k]) == k)
    && (forall k :: 0 <= k < |events| && HasParent(events[k]) ==>
          k < ParentOf(events, k) < |events| && source[ParentOf(events, k)] == k)
  }

  /** The event that the forward parent of event `k` names. */
  function ParentOf(events: seq<Event>, k: nat): nat
    requires k < |events| && HasParent(events[k])
  {
    k + events[k].forwardParent.value
  }

  // ---- What events denote ------------------------------------------------

  /** The nodes entered at the `Start` event `i`: its forward parents first, outermost first. */
  ghost function Enters(events: seq<Event>, source: seq<int>, i: nat): seq<Step>
    requires Linked(events, source) && i < |events| && events[i].Start?
    decreases |events| - i
  {
    (if HasParent(events[i]) then Enters(events, source, ParentOf(events, i)) else [])
    + if events[i].kind == TOMBSTONE then [] else [Enter(events[i].kind)]
  }

  /** The steps that event `i` contributes. A forward parent is entered with its child. */
  ghost function Emit(events: seq<Event>, source: seq<int>, i: nat): seq<Step>
    requires Linked(events, source) && i < |events|
  {
    match events[i]
    case Start(_, _) => if 0 <= source[i] then [] else Enters(events, source, i)
    case Finish => [Exit]
    case TokenEvent(kind, nRawTokens) => [Token(kind, nRawTokens)]
    case ErrorEvent(msg) => [Error(msg)]
    case ErrorExpected(kind) => [Expected(kind)]
  }

  /** The steps that the first `n` events contribute. */
  ghost function Emitted(events: seq<Event>, source: seq<int>, n: nat): seq<Step>
    requires Linked(events, source) && n <= |events|
  {
    if n == 0 then [] else Emitted(events, source, n - 1) + Emit(events, source, n - 1)
  }

  // ---- The conversion -----------------------------------------------------

  /**
   The events that the iterations before the `i`th have overwritten: those whose source
   they have handled or overwritten. The event whose source is `pending` is not yet one.
   */
  ghost predicate Overwritten(source: seq<int>, i: nat, pending: int, done: set<nat>) {
    forall k :: 0 <= k < |source| ==>
        (k in done <==> 0 <= source[k] && source[k] != pending && (source[k] < i || source[k] in done))
  }

  ghost predicate Remaining(input: seq<Event>, events: seq<Event>, i: nat, done: set<nat>) {
    && |events| == |input|
    && forall k :: i <= k < |input| ==> events[k] == if k in done then TOMBSTONE_EVENT else input[k]
  }

  function EntersOf(kinds: seq<SyntaxKind>): seq<Step> {
    if kinds == [] then
      []
    else
      EntersOf(kinds[1..]) + if kinds[0] == TOMBSTONE then [] else [Enter(kinds[0])]
  }

  lemma {:induction false} EntersOfSnoc(kinds: seq<SyntaxKind>, k: SyntaxKind)
    ensures EntersOf(kinds + [k]) == (if k == TOMBSTONE then [] else [Enter(k)]) + EntersOf(kinds)
  {
    if kinds == [] {
      assert kinds + [k] == [k];
      assert EntersOf([]) == [];
    } else {
      assert (kinds + [k])[1..] == kinds[1..] + [k];
      EntersOfSnoc(kinds[1..], k);
    }
  }

  /** The kind of event `i` and those of its forward parents, each overwritten as it is read. */
  method FollowParents(input: seq<Event>, ghost source: seq<int>, before: seq<Event>, i: nat, ghost done0: set<nat>,
                       kind: SyntaxKind, forwardParent: Option<nat>)
    returns (events: seq<Event>, kinds: seq<SyntaxKind>, ghost done: set<nat>)
    requires Linked(input, source) && i < |input| && input[i].Start?
    requires Start(kind, forwardParent) == if i in done0 then TOMBSTONE_EVENT else input[i]
    requires Overwritten(source, i, -1, done0) && Remaining(input, before, i + 1, done0)
    ensures Overwritten(source, i + 1, -1, done) && Remaining(input, events, i + 1, done)
    ensures EntersOf(kinds) == Emit(input, source, i)
  {
    hide Enters, EntersOf, Emit;
    events, done := before, done0;
    kinds := [kind];
    var idx := i;
    var fp := forwardParent;
    FirstEnter(input, source, i, done0);
    while fp.Some?
      invariant i <= idx < |input| && input[idx].Start?
      invariant if i in done0 then fp.None? && done == done0 else fp == input[idx].forwardParent
      invariant idx == i || idx in done
      invariant Overwritten(source, i + 1, if i in done0 then -1 else idx, done)
      invariant Remaining(input, events, i + 1, done)
      invariant Emit(input, source, i)
             == (if fp.Some? then Enters(input, source, ParentOf(input, idx)) else []) + EntersOf(kinds)
      decreases |input| - idx
    {
      NextEnter(input, source, idx, kinds);
      idx := idx + fp.value;
      var e := events[idx];
      events := events[idx := TOMBSTONE_EVENT];
      assert e == input[idx];
      kinds := kinds + [e.kind];
      fp := e.forwardParent;
      done := done + {idx};
    }
  }

  lemma FirstEnter(input: seq<Event>, source: seq<int>, i: nat, done: set<nat>)
    requires Linked(input, source) && i < |input| && input[i].Start?
    requires Overwritten(source, i, -1, done)
    ensures i in done ==> EntersOf([TOMBSTONE]) == Emit(input, source, i)
    ensures i !in done ==>
        Emit(input, source, i)
        == (if HasParent(input[i]) then Enters(input, source, ParentOf(input, i)) else [])
           + EntersOf([input[i].kind])
  {
    assert EntersOf([]) == [];
  }

  lemma NextEnter(input: seq<Event>, source: seq<int>, idx: nat, kinds: seq<SyntaxKind>)
    requires Linked(input, source) && idx < |input| && HasParent(input[idx])
    ensures var p := ParentOf(input, idx);
            Enters(input, source, p) + EntersOf(kinds)
            == (if HasParent(input[p]) then Enters(input, source, ParentOf(input, p)) else [])
               + EntersOf(kinds + [input[p].kind])
  {
    EntersOfSnoc(kinds, input[ParentOf(input, idx)].kind);
  }

  lemma {:induction false} EntersHaveNoErrors(kinds: seq<SyntaxKind>)
    ensures forall i :: 0 <= i < |EntersOf(kinds)| ==> !EntersOf(kinds)[i].Error?
  {
    if kinds != [] {
      EntersHaveNoErrors(kinds[1..]);
    }
  }

  method Process(input: seq<Event>, ghost source: seq<int>) returns (res: Output)
    requires Linked(input, source)
    ensures fresh(res) && res.Valid()
    ensures res.Iter() == ReadBack(Emitted(input, source, |input|))
  {
    hide Enters, EntersOf, Output.Valid, Output.Iter, Overwritten, Linked, Remaining, ReadBack, Messages;
    NothingReadBack();
    res := new Output();
    var events := input;
    ghost var done: set<nat> := {};
    NothingOverwritten(input, source);
    for i := 0 to |input|
      invariant fresh(res) && res.Valid()
      invariant Overwritten(source, i, -1, done) && Remaining(input, events, i, done)
      invariant res.Iter() == ReadBack(Emitted(input, source, i))
      invariant res.error == Messages(Emitted(input, source, i))
    {
      NextEvent(input, source, events, i, done);
      var event := events[i];
      events := events[i := TOMBSTONE_EVENT];
      if !event.Start? {
        ReadBackSnoc(Emitted(input, source, i), Emit(input, source, i)[0]);
      }
      match event {
        case Start(kind, forwardParent) =>
          var kinds;
          events, kinds, done := FollowParents(input, source, events, i, done, kind, forwardParent);
          EnterAll(res, kinds);
          EntersHaveNoErrors(kinds);
          ReadBackAppend(Emitted(input, source, i), EntersOf(kinds));
        case Finish =>
          res.LeaveNode();
        case TokenEvent(kind, nRawTokens) =>
          res.Token(kind, nRawTokens);
        case ErrorEvent(msg) =>
          res.Error(msg);
        case ErrorExpected(kind) =>
          res.Expected(kind);
      }
    }
  }

  /** Enter the collected nodes, the last one first. */
  method EnterAll(res: Output, kinds: seq<SyntaxKind>)
    requires res.Valid()
    modifies res
    ensures res.Valid() && res.error == old(res.error)
    ensures res.Iter() == old(res.Iter()) + EntersOf(kinds)
  {
    hide Output.Valid, Output.Iter;
    var j := |kinds|;
    assert EntersOf(kinds[j..]) == [];
    while 0 < j
      invariant 0 <= j <= |kinds|
      invariant res.Valid() && res.error == old(res.error)
      invariant res.Iter() == old(res.Iter()) + EntersOf(kinds[j..])
    {
      j := j - 1;
      assert kinds[j..][1..] == kinds[j + 1..];
      if kinds[j] != TOMBSTONE {
        res.EnterNode(kinds[j]);
      }
    }
    assert kinds[j..] == kinds;
  }

  lemma NothingOverwritten(input: seq<Event>, source: seq<int>)
    requires Linked(input, source)
    ensures Overwritten(source, 0, -1, {}) && Remaining(input, input, 0, {})
  {
  }

  /** Only `Start` events are ever overwritten. */
  lemma NextEvent(input: seq<Event>, source: seq<int>, events: seq<Event>, i: nat, done: set<nat>)
    requires Linked(input, source) && i < |input|
    requires Overwritten(source, i, -1, done) && Remaining(input, events, i, done)
    ensures |events| == |input|
    ensures events[i] == if i in done then TOMBSTONE_EVENT else input[i]
    ensures i in done ==> input[i].Start?
    ensures Remaining(input, events[i := TOMBSTONE_EVENT], i + 1, done)
    ensures !input[i].Start? ==> Overwritten(source, i + 1, -1, done)
  {
  }
}
