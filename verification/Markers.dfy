/**
 Markers used as a stack, and the events they leave behind
 (fpp_lsp_parser/src/parser.rs:98-264).

 A `Stack` is the parse so far as a reader of the grammar sees it: the nodes that are open,
 with their children. The lemmas show that the flat list of events, with its tombstones and
 forward parents, always denotes the walk of that stack.
 */
module Markers {
  import opened Wrappers
  import opened Syntax
  import opened ParseTree
  import opened Events
  import opened Packing

  /** A finished child. Its walk begins at event `first`; `marker` is the `Start` event of
      its completed marker while that marker can still be preceded. */
  datatype Kid = Kid(tree: Tree, first: nat, marker: Option<nat>)

  /** The open nodes. The `Start` event of a node is `pos`; its walk will begin at event
      `head`. Events from `floor` on belong to it or to nodes within it. */
  datatype Stack =
    | Base(kids: seq<Kid>)
    | Open(below: Stack, pos: nat, floor: nat, head: nat, kids: seq<Kid>)

  function Trees(kids: seq<Kid>): (ts: seq<Tree>)
    ensures |ts| == |kids|
  {
    seq(|kids|, i requires 0 <= i < |kids| => kids[i].tree)
  }

  /** The trees of the open nodes, outermost first, with the walk they denote so far. */
  function WalkStack(s: Stack): seq<Step> {
    match s
    case Base(kids) => WalkAll(Trees(kids))
    case Open(below, _, _, _, kids) => WalkStack(below) + WalkAll(Trees(kids))
  }

  // ---- Forward parent chains -----------------------------------------------

  /** The outermost of the forward parents of event `i`. */
  ghost function Outermost(events: seq<Event>, source: seq<int>, i: nat): (r: nat)
    requires Linked(events, source) && i < |events| && events[i].Start?
    ensures i <= r < |events| && events[r].Start? && !HasParent(events[r])
    decreases |events| - i
  {
    if HasParent(events[i]) then Outermost(events, source, ParentOf(events, i)) else i
  }

  ghost function Innermost(source: seq<int>, i: nat): int
    requires i < |source| && forall k :: 0 <= k < |source| ==> -1 <= source[k] < k
    decreases i
  {
    if 0 <= source[i] then Innermost(source, source[i]) else i
  }

  /** Whether the chain that starts at `head` ends at `last`. */
  ghost predicate Chain(events: seq<Event>, source: seq<int>, head: nat, last: nat)
    requires Linked(events, source)
  {
    && head < |events| && events[head].Start? && source[head] == -1
    && Outermost(events, source, head) == last
  }

  lemma {:induction false} InnermostOfOutermost(events: seq<Event>, source: seq<int>, i: nat)
    requires Linked(events, source) && i < |events| && events[i].Start?
    ensures Innermost(source, Outermost(events, source, i)) == Innermost(source, i)
    decreases |events| - i
  {
    if HasParent(events[i]) {
      InnermostOfOutermost(events, source, ParentOf(events, i));
    }
  }

  /** Distinct chains do not end at the same event. */
  lemma ChainsAreDisjoint(events: seq<Event>, source: seq<int>, h: nat, h': nat, last: nat)
    requires Linked(events, source)
    requires Chain(events, source, h, last) && Chain(events, source, h', last)
    ensures h == h'
  {
    InnermostOfOutermost(events, source, h);
    InnermostOfOutermost(events, source, h');
  }

  // ---- The invariant ---------------------------------------------------------

  ghost predicate KidsInv(events: seq<Event>, source: seq<int>, kids: seq<Kid>, before: seq<Step>,
                          lo: nat, hi: nat, markerLo: nat, markerHi: nat)
    requires Linked(events, source) && hi <= |events|
    decreases |kids|
  {
    && lo <= hi
    && (kids == [] ||
        (var m := |kids| - 1;
         var kid := kids[m];
         && lo <= kid.first <= hi
         && Emitted(events, source, kid.first) == before + WalkAll(Trees(kids[..m]))
         && (kid.marker.Some? ==>
               && markerLo <= kid.marker.value < markerHi
               && Chain(events, source, kid.first, kid.marker.value)
               && events[kid.marker.value].kind != TOMBSTONE)
         && KidsInv(events, source, kids[..m], before, lo, kid.first,
                    markerLo, if kid.marker.Some? then kid.marker.value else markerHi)))
  }

  ghost predicate StackInv(events: seq<Event>, source: seq<int>, s: Stack, hi: nat, markerHi: nat)
    requires Linked(events, source) && hi <= |events|
  {
    match s
    case Base(kids) =>
      KidsInv(events, source, kids, [], 0, hi, 0, markerHi)
    case Open(below, pos, floor, head, kids) =>
      && floor <= pos < markerHi
      && head <= hi
      && Chain(events, source, head, pos)
      && events[pos] == TOMBSTONE_EVENT
      && Emitted(events, source, head) == WalkStack(below)
      && KidsInv(events, source, kids, WalkStack(below), head, hi, pos + 1, markerHi)
      && StackInv(events, source, below, head, floor)
  }

  /** The events denote the stack. */
  ghost predicate Denotes(events: seq<Event>, source: seq<int>, s: Stack) {
    && Linked(events, source)
    && StackInv(events, source, s, |events|, |events|)
    && Emitted(events, source, |events|) == WalkStack(s)
  }

  // ---- Framing -----------------------------------------------------------------

  /** Whether `events'` agrees with `events` on what the first `hi` events contribute and on
      every event before `markerHi`. */
  ghost predicate Agree(events: seq<Event>, source: seq<int>, events': seq<Event>, source': seq<int>,
                        hi: nat, markerHi: nat)
    requires Linked(events, source) && Linked(events', source') && hi <= |events|
  {
    && hi <= |events'|
    && markerHi <= |events|
    && markerHi <= |events'|
    && (forall k :: 0 <= k < markerHi ==> events'[k] == events[k] && source'[k] == source[k])
    && (forall x :: 0 <= x <= hi ==> Emitted(events', source', x) == Emitted(events, source, x))
  }

  lemma {:induction false} OutermostAgrees(events: seq<Event>, source: seq<int>,
                                           events': seq<Event>, source': seq<int>, i: nat, bound: nat)
    requires Linked(events, source) && Linked(events', source')
    requires bound <= |events| && bound <= |events'|
    requires forall k :: 0 <= k < bound ==> events'[k] == events[k] && source'[k] == source[k]
    requires i < |events| && events[i].Start? && Outermost(events, source, i) < bound
    ensures Outermost(events', source', i) == Outermost(events, source, i)
    decreases |events| - i
  {
    if HasParent(events[i]) {
      OutermostAgrees(events, source, events', source', ParentOf(events, i), bound);
    }
  }

  lemma {:induction false} KidsInvAgrees(events: seq<Event>, source: seq<int>,
                                         events': seq<Event>, source': seq<int>,
                                         kids: seq<Kid>, before: seq<Step>,
                                         lo: nat, hi: nat, markerLo: nat, markerHi: nat)
    requires Linked(events, source) && Linked(events', source') && hi <= |events|
    requires Agree(events, source, events', source', hi, markerHi)
    requires KidsInv(events, source, kids, before, lo, hi, markerLo, markerHi)
    ensures KidsInv(events', source', kids, before, lo, hi, markerLo, markerHi)
    decreases |kids|
  {
    hide Linked, Emitted;
    if kids != [] {
      var kid := kids[|kids| - 1];
      var markerHi' := if kid.marker.Some? then kid.marker.value else markerHi;
      KidsInvAgrees(events, source, events', source', kids[..|kids| - 1], before, lo, kid.first, markerLo, markerHi');
      if kid.marker.Some? {
        OutermostAgrees(events, source, events', source', kid.first, markerHi);
      }
    }
  }

  lemma {:induction false} StackInvAgrees(events: seq<Event>, source: seq<int>,
                                          events': seq<Event>, source': seq<int>,
                                          s: Stack, hi: nat, markerHi: nat)
    requires Linked(events, source) && Linked(events', source') && hi <= |events|
    requires Agree(events, source, events', source', hi, markerHi)
    requires StackInv(events, source, s, hi, markerHi)
    ensures StackInv(events', source', s, hi, markerHi)
    decreases s
  {
    hide Linked, Emitted, KidsInv;
    match s
    case Base(kids) =>
      KidsInvAgrees(events, source, events', source', kids, [], 0, hi, 0, markerHi);
    case Open(below, pos, floor, head, kids) =>
      KidsInvAgrees(events, source, events', source', kids, WalkStack(below), head, hi, pos + 1, markerHi);
      StackInvAgrees(events, source, events', source', below, head, floor);
      OutermostAgrees(events, source, events', source', head, markerHi);
  }

  lemma {:induction false} KidsInvWiden(events: seq<Event>, source: seq<int>, kids: seq<Kid>, before: seq<Step>,
                                        lo: nat, hi: nat, hi': nat, markerLo: nat, markerHi: nat, markerHi': nat)
    requires Linked(events, source) && hi <= hi' <= |events| && markerHi <= markerHi'
    requires KidsInv(events, source, kids, before, lo, hi, markerLo, markerHi)
    ensures KidsInv(events, source, kids, before, lo, hi', markerLo, markerHi')
    decreases |kids|
  {
    hide Linked, Emitted, Chain;
    if kids != [] {
      var kid := kids[|kids| - 1];
      if kid.marker.None? {
        KidsInvWiden(events, source, kids[..|kids| - 1], before, lo, kid.first, kid.first, markerLo, markerHi, markerHi');
      }
    }
  }

  lemma StackInvWiden(events: seq<Event>, source: seq<int>, s: Stack, hi: nat, hi': nat, markerHi: nat, markerHi': nat)
    requires Linked(events, source) && hi <= hi' <= |events| && markerHi <= markerHi'
    requires StackInv(events, source, s, hi, markerHi)
    ensures StackInv(events, source, s, hi', markerHi')
  {
    hide Linked, Emitted, Chain, KidsInv;
    match s
    case Base(kids) =>
      KidsInvWiden(events, source, kids, [], 0, hi, hi', 0, markerHi, markerHi');
    case Open(below, pos, floor, head, kids) =>
      KidsInvWiden(events, source, kids, WalkStack(below), head, hi, hi', pos + 1, markerHi, markerHi');
  }

  // ---- Appending children ----------------------------------------------------

  function AppendKids(s: Stack, more: seq<Kid>): Stack {
    s.(kids := s.kids + more)
  }

  lemma TreesConcat(a: seq<Kid>, b: seq<Kid>)
    ensures Trees(a + b) == Trees(a) + Trees(b)
  {
  }

  lemma WalkStackAppend(s: Stack, more: seq<Kid>)
    ensures WalkStack(AppendKids(s, more)) == WalkStack(s) + WalkAll(Trees(more))
  {
    hide Trees;
    TreesConcat(s.kids, more);
    WalkAllConcat(Trees(s.kids), Trees(more));
  }

  /** One more child at the end, beginning where the events before it stop contributing. */
  lemma KidsInvSnoc(events: seq<Event>, source: seq<int>, kids: seq<Kid>, before: seq<Step>,
                    lo: nat, hi: nat, hi': nat, markerLo: nat, markerHi: nat, markerHi': nat, kid: Kid)
    requires Linked(events, source) && hi <= kid.first <= hi' <= |events| && markerHi <= markerHi'
    requires KidsInv(events, source, kids, before, lo, hi, markerLo, markerHi)
    requires Emitted(events, source, kid.first) == before + WalkAll(Trees(kids))
    requires kid.marker.Some? ==>
        && markerLo <= kid.marker.value && markerHi <= kid.marker.value < markerHi'
        && Chain(events, source, kid.first, kid.marker.value)
        && events[kid.marker.value].kind != TOMBSTONE
    ensures KidsInv(events, source, kids + [kid], before, lo, hi', markerLo, markerHi')
  {
    hide Linked, Emitted, Chain;
    assert (kids + [kid])[..|kids|] == kids;
    KidsInvWiden(events, source, kids, before, lo, hi, kid.first, markerLo, markerHi,
                 if kid.marker.Some? then kid.marker.value else markerHi');
  }

  lemma StackInvSnoc(events: seq<Event>, source: seq<int>, s: Stack, hi: nat, hi': nat,
                     markerHi: nat, markerHi': nat, kid: Kid)
    requires Linked(events, source) && hi <= kid.first <= hi' <= |events| && markerHi <= markerHi'
    requires StackInv(events, source, s, hi, markerHi)
    requires Emitted(events, source, kid.first) == WalkStack(s)
    requires kid.marker.Some? ==>
        && markerHi <= kid.marker.value < markerHi'
        && Chain(events, source, kid.first, kid.marker.value)
        && events[kid.marker.value].kind != TOMBSTONE
    ensures StackInv(events, source, AppendKids(s, [kid]), hi', markerHi')
  {
    hide Linked, Emitted, Chain, KidsInv;
    match s
    case Base(kids) =>
      KidsInvSnoc(events, source, kids, [], 0, hi, hi', 0, markerHi, markerHi', kid);
    case Open(below, pos, floor, head, kids) =>
      KidsInvSnoc(events, source, kids, WalkStack(below), head, hi, hi', pos + 1, markerHi, markerHi', kid);
  }

  // ---- Pushing an event --------------------------------------------------------

  lemma PushIsLinked(events: seq<Event>, source: seq<int>, e: Event)
    requires Linked(events, source) && !HasParent(e)
    ensures Linked(events + [e], source + [-1])
  {
    var events', source' := events + [e], source + [-1];
    forall k | 0 <= k < |events'|
      ensures -1 <= source'[k] < k
      ensures 0 <= source'[k] ==>
          events'[k].Start? && HasParent(events'[source'[k]]) && ParentOf(events', source'[k]) == k
      ensures HasParent(events'[k]) ==>
          k < ParentOf(events', k) < |events'| && source'[ParentOf(events', k)] == k
    {
      if k < |events| {
        assert events'[k] == events[k] && source'[k] == source[k];
      }
    }
  }

  lemma {:induction false} EntersPush(events: seq<Event>, source: seq<int>, e: Event, i: nat)
    requires Linked(events, source) && Linked(events + [e], source + [-1])
    requires i < |events| && events[i].Start?
    ensures Enters(events + [e], source + [-1], i) == Enters(events, source, i)
    decreases |events| - i
  {
    if HasParent(events[i]) {
      EntersPush(events, source, e, ParentOf(events, i));
    }
  }

  lemma {:induction false} EmittedPush(events: seq<Event>, source: seq<int>, e: Event, n: nat)
    requires Linked(events, source) && !HasParent(e) && n <= |events|
    ensures Linked(events + [e], source + [-1])
    ensures Emitted(events + [e], source + [-1], n) == Emitted(events, source, n)
    decreases n
  {
    hide Linked, Enters;
    PushIsLinked(events, source, e);
    if 0 < n {
      EmittedPush(events, source, e, n - 1);
      if events[n - 1].Start? {
        EntersPush(events, source, e, n - 1);
      }
    }
  }

  lemma PushAgrees(events: seq<Event>, source: seq<int>, e: Event)
    requires Linked(events, source) && !HasParent(e)
    ensures Linked(events + [e], source + [-1])
    ensures Agree(events, source, events + [e], source + [-1], |events|, |events|)
    ensures Agree(events + [e], source + [-1], events, source, |events|, |events|)
  {
    hide Linked, Emitted;
    PushIsLinked(events, source, e);
    SameLength(events, source);
    forall x | 0 <= x <= |events|
      ensures Emitted(events + [e], source + [-1], x) == Emitted(events, source, x)
    {
      EmittedPush(events, source, e, x);
    }
  }

  lemma SameLength(events: seq<Event>, source: seq<int>)
    requires Linked(events, source)
    ensures |source| == |events|
  {
  }

  /** What an event that opens and closes no node contributes. */
  function StepOf(e: Event): LeafStep
    requires e.TokenEvent? || e.ErrorEvent? || e.ErrorExpected?
  {
    match e
    case TokenEvent(kind, nRawTokens) => Token(kind, nRawTokens)
    case ErrorEvent(msg) => Error(msg)
    case ErrorExpected(kind) => Expected(kind)
  }

  lemma PushLeaf(events: seq<Event>, source: seq<int>, s: Stack, e: Event)
    requires Denotes(events, source, s)
    requires e.TokenEvent? || e.ErrorEvent? || e.ErrorExpected?
    ensures Denotes(events + [e], source + [-1], AppendKids(s, [Kid(Leaf(StepOf(e)), |events|, None)]))
  {
    hide Linked, StackInv, Enters;
    var n := |events|;
    var kid := Kid(Leaf(StepOf(e)), n, None);
    PushAgrees(events, source, e);
    StackInvAgrees(events, source, events + [e], source + [-1], s, n, n);
    StackInvSnoc(events + [e], source + [-1], s, n, n + 1, n, n + 1, kid);
    WalkStackAppend(s, [kid]);
    assert Trees([kid]) == [kid.tree];
    WalkAllSnoc([], kid.tree);
    assert [] + [kid.tree] == [kid.tree];
    assert Emit(events + [e], source + [-1], n) == [StepOf(e)];
  }

  lemma StartNode(events: seq<Event>, source: seq<int>, s: Stack)
    requires Denotes(events, source, s)
    ensures Denotes(events + [TOMBSTONE_EVENT], source + [-1], Open(s, |events|, |events|, |events|, []))
  {
    hide Linked, StackInv;
    var n := |events|;
    var events', source' := events + [TOMBSTONE_EVENT], source + [-1];
    PushAgrees(events, source, TOMBSTONE_EVENT);
    SameLength(events, source);
    StackInvAgrees(events, source, events', source', s, n, n);
    OpenIsInv(events', source', Open(s, n, n, n, []), n + 1, n + 1);
    assert Enters(events', source', n) == [];
  }

  /** The clauses of the invariant that concern an open node. */
  lemma OpenIsInv(events: seq<Event>, source: seq<int>, s: Stack, hi: nat, markerHi: nat)
    requires Linked(events, source) && hi <= |events| && s.Open?
    requires s.floor <= s.pos < markerHi && s.head <= hi
    requires Chain(events, source, s.head, s.pos) && events[s.pos] == TOMBSTONE_EVENT
    requires Emitted(events, source, s.head) == WalkStack(s.below)
    requires KidsInv(events, source, s.kids, WalkStack(s.below), s.head, hi, s.pos + 1, markerHi)
    requires StackInv(events, source, s.below, s.head, s.floor)
    ensures StackInv(events, source, s, hi, markerHi)
  {
  }

  // ---- Completing a node ---------------------------------------------------------

  function SetKind(events: seq<Event>, pos: nat, kind: SyntaxKind): seq<Event>
    requires pos < |events| && events[pos] == TOMBSTONE_EVENT
  {
    events[pos := Start(kind, None)]
  }

  lemma SetKindIsLinked(events: seq<Event>, source: seq<int>, pos: nat, kind: SyntaxKind)
    requires Linked(events, source) && pos < |events| && events[pos] == TOMBSTONE_EVENT
    ensures Linked(SetKind(events, pos, kind), source)
  {
    var events' := SetKind(events, pos, kind);
    assert forall k :: 0 <= k < |events| && k != pos ==> events'[k] == events[k];
    assert forall k :: 0 <= k < |events| && HasParent(events'[k]) ==> k != pos;
  }

  lemma {:induction false} EntersSetKind(events: seq<Event>, source: seq<int>, pos: nat, kind: SyntaxKind, i: nat)
    requires Linked(events, source) && pos < |events| && events[pos] == TOMBSTONE_EVENT && kind != TOMBSTONE
    requires Linked(SetKind(events, pos, kind), source)
    requires i < |events| && events[i].Start?
    ensures Outermost(SetKind(events, pos, kind), source, i) == Outermost(events, source, i)
    ensures Enters(SetKind(events, pos, kind), source, i)
         == (if Outermost(events, source, i) == pos then [Enter(kind)] else []) + Enters(events, source, i)
    decreases |events| - i
  {
    hide Linked;
    if HasParent(events[i]) {
      LinkedParent(events, source, i);
      EntersSetKind(events, source, pos, kind, ParentOf(events, i));
    }
  }

  lemma LinkedParent(events: seq<Event>, source: seq<int>, i: nat)
    requires Linked(events, source) && i < |events| && HasParent(events[i])
    ensures i < ParentOf(events, i) < |events| && events[ParentOf(events, i)].Start?
    ensures |source| == |events| && source[ParentOf(events, i)] == i
  {
  }

  /** The steps that the events `lo..n` contribute. */
  ghost function Between(events: seq<Event>, source: seq<int>, lo: nat, n: nat): seq<Step>
    requires Linked(events, source) && lo <= n <= |events|
  {
    if n == lo then [] else Between(events, source, lo, n - 1) + Emit(events, source, n - 1)
  }

  lemma {:induction false} EmittedSplit(events: seq<Event>, source: seq<int>, lo: nat, n: nat)
    requires Linked(events, source) && lo <= n <= |events|
    ensures Emitted(events, source, n) == Emitted(events, source, lo) + Between(events, source, lo, n)
    decreases n
  {
    hide Linked, Emit;
    if lo < n {
      EmittedSplit(events, source, lo, n - 1);
    }
  }

  lemma {:induction false} EmittedBefore(events: seq<Event>, source: seq<int>, pos: nat, kind: SyntaxKind,
                                         head: nat, n: nat)
    requires Linked(events, source) && pos < |events| && events[pos] == TOMBSTONE_EVENT && kind != TOMBSTONE
    requires Linked(SetKind(events, pos, kind), source)
    requires Chain(events, source, head, pos) && n <= head
    ensures Emitted(SetKind(events, pos, kind), source, n) == Emitted(events, source, n)
    decreases n
  {
    hide Linked, Emit;
    if 0 < n {
      EmittedBefore(events, source, pos, kind, head, n - 1);
      EmitSetKind(events, source, pos, kind, head, n - 1);
    }
  }

  /** Naming the node whose walk begins at `head` inserts its entry there. */
  lemma {:induction false} EmittedSetKind(events: seq<Event>, source: seq<int>, pos: nat, kind: SyntaxKind,
                                          head: nat, n: nat)
    requires Linked(events, source) && pos < |events| && events[pos] == TOMBSTONE_EVENT && kind != TOMBSTONE
    requires Linked(SetKind(events, pos, kind), source)
    requires Chain(events, source, head, pos) && head < n <= |events|
    ensures Emitted(SetKind(events, pos, kind), source, n)
         == Emitted(events, source, head) + ([Enter(kind)] + Between(events, source, head, n))
    decreases n
  {
    hide Linked, Emit;
    EmitSetKind(events, source, pos, kind, head, n - 1);
    if n - 1 == head {
      EmittedBefore(events, source, pos, kind, head, head);
    } else {
      EmittedSetKind(events, source, pos, kind, head, n - 1);
    }
  }

  lemma EmitSetKind(events: seq<Event>, source: seq<int>, pos: nat, kind: SyntaxKind, head: nat, i: nat)
    requires Linked(events, source) && pos < |events| && events[pos] == TOMBSTONE_EVENT && kind != TOMBSTONE
    requires Linked(SetKind(events, pos, kind), source)
    requires Chain(events, source, head, pos) && i < |events|
    ensures Emit(SetKind(events, pos, kind), source, i)
         == (if i == head then [Enter(kind)] else []) + Emit(events, source, i)
  {
    hide Enters;
    if events[i].Start? {
      EntersSetKind(events, source, pos, kind, i);
      if source[i] == -1 && Outermost(events, source, i) == pos {
        ChainsAreDisjoint(events, source, i, head, pos);
      }
    }
  }

  lemma CompleteNode(events: seq<Event>, source: seq<int>, s: Stack, kind: SyntaxKind)
    requires Denotes(events, source, s) && s.Open? && kind != TOMBSTONE
    ensures s.pos < |events| && events[s.pos] == TOMBSTONE_EVENT
    ensures Denotes(SetKind(events, s.pos, kind) + [Finish], source + [-1],
                    AppendKids(s.below, [Kid(Node(kind, Trees(s.kids)), s.head, Some(s.pos))]))
  {
    hide Linked, KidsInv, Emitted, Outermost;
    var n := |events|;
    var kid := Kid(Node(kind, Trees(s.kids)), s.head, Some(s.pos));
    assert s.pos < |events| && events[s.pos] == TOMBSTONE_EVENT;
    var named := SetKind(events, s.pos, kind);
    var done, source' := named + [Finish], source + [-1];
    SameLength(events, source);
    SetKindAgrees(events, source, s, kind);
    StackInvAgrees(events, source, named, source, s.below, s.head, s.floor);
    PushAgrees(named, source, Finish);
    StackInvAgrees(named, source, done, source', s.below, s.head, s.floor);
    EntersSetKind(events, source, s.pos, kind, s.head);
    OutermostAgrees(named, source, done, source', s.head, n);
    assert Emitted(done, source', s.head) == WalkStack(s.below);
    StackInvSnoc(done, source', s.below, s.head, n + 1, s.floor, n + 1, kid);
    CompletedWalk(events, source, s, kind);
  }

  lemma SetKindAgrees(events: seq<Event>, source: seq<int>, s: Stack, kind: SyntaxKind)
    requires Denotes(events, source, s) && s.Open? && kind != TOMBSTONE
    ensures s.pos < |events| && events[s.pos] == TOMBSTONE_EVENT
    ensures Linked(SetKind(events, s.pos, kind), source)
    ensures Agree(events, source, SetKind(events, s.pos, kind), source, s.head, s.floor)
  {
    hide Linked, KidsInv, Emitted, Outermost;
    SetKindIsLinked(events, source, s.pos, kind);
    forall x | 0 <= x <= s.head
      ensures Emitted(SetKind(events, s.pos, kind), source, x) == Emitted(events, source, x)
    {
      EmittedBefore(events, source, s.pos, kind, s.head, x);
    }
  }

  lemma CompletedWalk(events: seq<Event>, source: seq<int>, s: Stack, kind: SyntaxKind)
    requires Denotes(events, source, s) && s.Open? && kind != TOMBSTONE
    requires s.pos < |events| && events[s.pos] == TOMBSTONE_EVENT
    requires Linked(SetKind(events, s.pos, kind) + [Finish], source + [-1])
    ensures Emitted(SetKind(events, s.pos, kind) + [Finish], source + [-1], |events| + 1)
         == WalkStack(AppendKids(s.below, [Kid(Node(kind, Trees(s.kids)), s.head, Some(s.pos))]))
  {
    hide Linked, KidsInv, Trees, Outermost;
    var n := |events|;
    var named := SetKind(events, s.pos, kind);
    var kid := Kid(Node(kind, Trees(s.kids)), s.head, Some(s.pos));
    SetKindIsLinked(events, source, s.pos, kind);
    EmittedSetKind(events, source, s.pos, kind, s.head, n);
    EmittedSplit(events, source, s.head, n);
    assert Between(events, source, s.head, n) == WalkAll(Trees(s.kids)) by {
      assert Emitted(events, source, n)[|WalkStack(s.below)|..] == Between(events, source, s.head, n);
    }
    EmittedPush(named, source, Finish, n);
    assert Emit(named + [Finish], source + [-1], n) == [Exit];
    WalkStackAppend(s.below, [kid]);
    TreesOne(kid);
  }

  lemma TreesOne(kid: Kid)
    ensures WalkAll(Trees([kid])) == Walk(kid.tree)
  {
    assert Trees([kid]) == [kid.tree];
    assert [kid.tree] == [] + [kid.tree];
    WalkAllSnoc([], kid.tree);
  }

  // ---- Abandoning a node -----------------------------------------------------------

  /** The clauses of the invariant that concern the last child. */
  ghost predicate LastKidInv(events: seq<Event>, source: seq<int>, kid: Kid, emitted: seq<Step>, lo: nat, hi: nat,
                             markerLo: nat, markerHi: nat)
    requires Linked(events, source) && hi <= |events|
  {
    && lo <= kid.first <= hi
    && Emitted(events, source, kid.first) == emitted
    && (kid.marker.Some? ==>
          && markerLo <= kid.marker.value < markerHi
          && Chain(events, source, kid.first, kid.marker.value)
          && events[kid.marker.value].kind != TOMBSTONE)
  }

  lemma KidsInvLast(events: seq<Event>, source: seq<int>, kids: seq<Kid>, kid: Kid, before: seq<Step>,
                    lo: nat, hi: nat, markerLo: nat, markerHi: nat)
    requires Linked(events, source) && hi <= |events|
    ensures var markerHi' := if kid.marker.Some? then kid.marker.value else markerHi;
            KidsInv(events, source, kids + [kid], before, lo, hi, markerLo, markerHi)
            <==> lo <= hi && LastKidInv(events, source, kid, before + WalkAll(Trees(kids)), lo, hi, markerLo, markerHi)
                 && KidsInv(events, source, kids, before, lo, kid.first, markerLo, markerHi')
  {
    hide Linked, Emitted, Chain, WalkAll, Trees;
    assert (kids + [kid])[..|kids|] == kids;
  }

  lemma {:induction false} KidsInvConcat(events: seq<Event>, source: seq<int>, a: seq<Kid>, b: seq<Kid>,
                                         before: seq<Step>, lo: nat, mid: nat, hi: nat,
                                         markerLo: nat, markerMid: nat, markerHi: nat)
    requires Linked(events, source) && mid <= hi <= |events| && markerLo <= markerMid <= markerHi
    requires KidsInv(events, source, a, before, lo, mid, markerLo, markerMid)
    requires KidsInv(events, source, b, before + WalkAll(Trees(a)), mid, hi, markerMid, markerHi)
    ensures KidsInv(events, source, a + b, before, lo, hi, markerLo, markerHi)
    decreases |b|
  {
    hide Linked, Emitted, Chain, WalkAll, Trees, KidsInv;
    if b == [] {
      assert a + b == a;
      KidsInvBounds(events, source, b, before + WalkAll(Trees(a)), mid, hi, markerMid, markerHi);
      KidsInvWiden(events, source, a, before, lo, mid, hi, markerLo, markerMid, markerHi);
    } else {
      var init, kid := b[..|b| - 1], b[|b| - 1];
      var markerHi' := if kid.marker.Some? then kid.marker.value else markerHi;
      assert b == init + [kid] && a + b == a + init + [kid];
      KidsInvLast(events, source, init, kid, before + WalkAll(Trees(a)), mid, hi, markerMid, markerHi);
      KidsInvLast(events, source, a + init, kid, before, lo, hi, markerLo, markerHi);
      KidsInvConcat(events, source, a, init, before, lo, mid, kid.first, markerLo, markerMid, markerHi');
      KidsInvBounds(events, source, a, before, lo, mid, markerLo, markerMid);
      TreesConcat(a, init);
      WalkAllConcat(Trees(a), Trees(init));
      assert before + WalkAll(Trees(a + init)) == before + WalkAll(Trees(a)) + WalkAll(Trees(init));
    }
  }

  lemma KidsInvBounds(events: seq<Event>, source: seq<int>, kids: seq<Kid>, before: seq<Step>,
                      lo: nat, hi: nat, markerLo: nat, markerHi: nat)
    requires Linked(events, source) && hi <= |events| && KidsInv(events, source, kids, before, lo, hi, markerLo, markerHi)
    ensures lo <= hi
  {
    hide Linked, Emitted, Chain, WalkAll, Trees;
  }

  lemma {:induction false} KidsInvMarkerLo(events: seq<Event>, source: seq<int>, kids: seq<Kid>, before: seq<Step>,
                                           lo: nat, hi: nat, markerLo: nat, markerLo': nat, markerHi: nat)
    requires Linked(events, source) && hi <= |events| && markerLo' <= markerLo
    requires KidsInv(events, source, kids, before, lo, hi, markerLo, markerHi)
    ensures KidsInv(events, source, kids, before, lo, hi, markerLo', markerHi)
    decreases |kids|
  {
    hide Linked, Emitted, Chain;
    if kids != [] {
      var kid := kids[|kids| - 1];
      KidsInvMarkerLo(events, source, kids[..|kids| - 1], before, lo, kid.first, markerLo, markerLo',
                      if kid.marker.Some? then kid.marker.value else markerHi);
    }
  }

  /** Leaving the abandoned tombstone in place moves the children to the node around it. */
  lemma SpliceChildren(events: seq<Event>, source: seq<int>, s: Stack)
    requires Denotes(events, source, s) && s.Open?
    ensures Denotes(events, source, AppendKids(s.below, s.kids))
  {
    hide Linked, Emitted, Chain, KidsInv, Trees;
    var n := |events|;
    WalkStackAppend(s.below, s.kids);
    KidsInvMarkerLo(events, source, s.kids, WalkStack(s.below), s.head, n, s.pos + 1, s.floor, n);
    assert StackInv(events, source, s.below, s.head, s.floor);
    match s.below
    case Base(kids) =>
      assert WalkStack(s.below) == [] + WalkAll(Trees(kids));
      KidsInvConcat(events, source, kids, s.kids, [], 0, s.head, n, 0, s.floor, n);
    case Open(below, pos, floor, head, kids) =>
      KidsInvConcat(events, source, kids, s.kids, WalkStack(below), head, s.head, n, pos + 1, s.floor, n);
  }

  lemma PopIsLinked(events: seq<Event>, source: seq<int>)
    requires Linked(events, source) && events != [] && source[|events| - 1] == -1
    ensures Linked(events[..|events| - 1], source[..|events| - 1])
  {
    var n := |events| - 1;
    assert forall k :: 0 <= k < n ==> events[..n][k] == events[k] && source[..n][k] == source[k];
    assert forall k :: 0 <= k < n && HasParent(events[k]) ==> ParentOf(events, k) != n;
  }

  /** A node without events of its own can be popped, unless it is a forward parent. */
  lemma PopTombstone(events: seq<Event>, source: seq<int>, s: Stack)
    requires Denotes(events, source, s) && s.Open?
    requires s.pos == |events| - 1 && s.head == s.pos
    ensures |source| == |events|
    ensures Denotes(events[..|events| - 1], source[..|events| - 1], AppendKids(s.below, s.kids))
  {
    hide Linked, Emitted, KidsInv, Enters, Outermost;
    var n := |events| - 1;
    SameLength(events, source);
    PopIsLinked(events, source);
    assert events == events[..n] + [TOMBSTONE_EVENT] && source == source[..n] + [-1];
    PushAgrees(events[..n], source[..n], TOMBSTONE_EVENT);
    StackInvAgrees(events, source, events[..n], source[..n], s.below, n, s.floor);
    StackInvWiden(events[..n], source[..n], s.below, n, n, s.floor, n);
    NothingAfterTombstone(events, source, s);
    WalkStackAppend(s.below, s.kids);
    assert AppendKids(s.below, []) == s.below;
  }

  lemma NothingAfterTombstone(events: seq<Event>, source: seq<int>, s: Stack)
    requires Denotes(events, source, s) && s.Open?
    requires s.pos == |events| - 1 && s.head == s.pos
    ensures s.kids == []
  {
    hide Linked, KidsInv, Outermost;
    var n := |events| - 1;
    assert Emit(events, source, n) == [];
    assert WalkStack(s.below) + WalkAll(Trees(s.kids)) == WalkStack(s.below);
    assert |WalkAll(Trees(s.kids))| == 0;
  }

  // ---- Preceding a completed node ------------------------------------------------------

  function Unmark(kids: seq<Kid>): (r: seq<Kid>)
    ensures |r| == |kids| && Trees(r) == Trees(kids)
    ensures forall i :: 0 <= i < |kids| ==> r[i] == kids[i].(marker := None)
  {
    seq(|kids|, i requires 0 <= i < |kids| => kids[i].(marker := None))
  }

  function Link(events: seq<Event>, m: nat): seq<Event>
    requires m < |events| && events[m].Start?
  {
    (events + [TOMBSTONE_EVENT])[m := Start(events[m].kind, Some(|events| - m))]
  }

  lemma LinkIsLinked(events: seq<Event>, source: seq<int>, m: nat)
    requires Linked(events, source) && m < |events| && events[m].Start? && !HasParent(events[m])
    ensures Linked(Link(events, m), source + [m])
  {
    var events', source' := Link(events, m), source + [m];
    var n := |events|;
    assert forall k :: 0 <= k < n ==> source'[k] == source[k];
    assert forall k :: 0 <= k < n && k != m ==> events'[k] == events[k];
    assert ParentOf(events', m) == n;
    assert forall k :: 0 <= k < n && 0 <= source[k] ==> source[k] != m;
  }

  lemma {:induction false} EntersLink(events: seq<Event>, source: seq<int>, m: nat, i: nat)
    requires Linked(events, source) && m < |events| && events[m].Start? && !HasParent(events[m])
    requires Linked(Link(events, m), source + [m])
    requires i < |events| && events[i].Start?
    ensures Enters(Link(events, m), source + [m], i) == Enters(events, source, i)
    ensures Outermost(events, source, i) == m ==> Outermost(Link(events, m), source + [m], i) == |events|
    decreases |events| - i
  {
    hide Linked;
    var events', source' := Link(events, m), source + [m];
    if HasParent(events[i]) {
      LinkedParent(events, source, i);
      EntersLink(events, source, m, ParentOf(events, i));
    } else if i == m {
      assert ParentOf(events', i) == |events|;
      assert Enters(events', source', |events|) == [];
    }
  }

  lemma {:induction false} EmittedLink(events: seq<Event>, source: seq<int>, m: nat, n: nat)
    requires Linked(events, source) && m < |events| && events[m].Start? && !HasParent(events[m])
    requires Linked(Link(events, m), source + [m]) && n <= |events|
    ensures Emitted(Link(events, m), source + [m], n) == Emitted(events, source, n)
    decreases n
  {
    hide Linked, Enters;
    if 0 < n {
      SameLength(events, source);
      EmittedLink(events, source, m, n - 1);
      if events[n - 1].Start? {
        EntersLink(events, source, m, n - 1);
      }
    }
  }

  /** The children from the `j`th on, seen from the node that will hold them. */
  lemma {:induction false} KidsInvSplit(events: seq<Event>, source: seq<int>, kids: seq<Kid>, before: seq<Step>,
                                        lo: nat, hi: nat, markerLo: nat, markerHi: nat, j: nat)
    requires Linked(events, source) && hi <= |events| && j < |kids| && kids[j].marker.Some?
    requires KidsInv(events, source, kids, before, lo, hi, markerLo, markerHi)
    ensures var kid := kids[j];
            && lo <= kid.first <= hi
            && markerLo <= kid.marker.value < markerHi
            && Chain(events, source, kid.first, kid.marker.value)
            && Emitted(events, source, kid.first) == before + WalkAll(Trees(kids[..j]))
            && KidsInv(events, source, kids[..j], before, lo, kid.first, markerLo, kid.marker.value)
            && KidsInv(events, source, Unmark(kids[j..]), before + WalkAll(Trees(kids[..j])), kid.first, hi, 0, 0)
    decreases |kids|
  {
    hide Linked, Emitted, Chain, WalkAll, Unmark, Trees;
    var m := |kids| - 1;
    var kid := kids[m];
    var pre := before + WalkAll(Trees(kids[..j]));
    UnmarkLast(kids, j);
    if j < m {
      KidsInvSplit(events, source, kids[..m], before, lo, kid.first, markerLo,
                   if kid.marker.Some? then kid.marker.value else markerHi, j);
      assert kids[..m][..j] == kids[..j];
      TreesConcat(kids[..j], kids[j..m]);
      WalkAllConcat(Trees(kids[..j]), Trees(kids[j..m]));
      assert kids[..m] == kids[..j] + kids[j..m];
      assert Emitted(events, source, kid.first) == pre + WalkAll(Trees(Unmark(kids[j..m])));
      assert kids[..m][j..] == kids[j..m];
    } else {
      assert Unmark(kids[j..m]) == [];
      NoTrees();
    }
  }

  lemma NoTrees()
    ensures WalkAll(Trees([])) == []
  {
    assert Trees([]) == [];
  }

  lemma UnmarkLast(kids: seq<Kid>, j: nat)
    requires j < |kids|
    ensures var r := Unmark(kids[j..]);
            && r != [] && r[|r| - 1] == kids[|kids| - 1].(marker := None)
            && r[..|r| - 1] == Unmark(kids[j..|kids| - 1])
  {
  }

  lemma {:induction false} KidsInvUnmarked(events: seq<Event>, source: seq<int>, kids: seq<Kid>, before: seq<Step>,
                                           lo: nat, hi: nat, markerLo: nat, markerHi: nat,
                                           markerLo': nat, markerHi': nat)
    requires Linked(events, source) && hi <= |events|
    requires forall i :: 0 <= i < |kids| ==> kids[i].marker.None?
    requires KidsInv(events, source, kids, before, lo, hi, markerLo, markerHi)
    ensures KidsInv(events, source, kids, before, lo, hi, markerLo', markerHi')
    decreases |kids|
  {
    hide Linked, Emitted, Chain;
    if kids != [] {
      KidsInvUnmarked(events, source, kids[..|kids| - 1], before, lo, kids[|kids| - 1].first,
                      markerLo, markerHi, markerLo', markerHi');
    }
  }

  /** The stack below the node that is opened in front of child `j`. */
  lemma StackInvSplit(events: seq<Event>, source: seq<int>, s: Stack, j: nat)
    requires Denotes(events, source, s) && j < |s.kids| && s.kids[j].marker.Some?
    ensures var kid := s.kids[j];
            var outer := s.(kids := s.kids[..j]);
            && kid.first <= |events| && kid.marker.value < |events|
            && Chain(events, source, kid.first, kid.marker.value)
            && Emitted(events, source, kid.first) == WalkStack(outer)
            && StackInv(events, source, outer, kid.first, kid.marker.value)
            && KidsInv(events, source, Unmark(s.kids[j..]), WalkStack(outer), kid.first, |events|, 0, 0)
  {
    hide Linked, Emitted, Chain, KidsInv;
    var n := |events|;
    match s
    case Base(kids) =>
      KidsInvSplit(events, source, kids, [], 0, n, 0, n, j);
      assert [] + WalkAll(Trees(kids[..j])) == WalkAll(Trees(kids[..j]));
    case Open(below, pos, floor, head, kids) =>
      KidsInvSplit(events, source, kids, WalkStack(below), head, n, pos + 1, n, j);
  }

  lemma LinkAgrees(events: seq<Event>, source: seq<int>, m: nat)
    requires Linked(events, source) && m < |events| && events[m].Start? && !HasParent(events[m])
    ensures Linked(Link(events, m), source + [m])
    ensures Agree(events, source, Link(events, m), source + [m], |events|, m)
    ensures Agree(events, source, Link(events, m), source + [m], |events|, 0)
  {
    hide Linked, Emitted;
    LinkIsLinked(events, source, m);
    SameLength(events, source);
    forall x | 0 <= x <= |events|
      ensures Emitted(Link(events, m), source + [m], x) == Emitted(events, source, x)
    {
      EmittedLink(events, source, m, x);
    }
  }

  lemma PrecedeNode(events: seq<Event>, source: seq<int>, s: Stack, j: nat)
    requires Denotes(events, source, s) && j < |s.kids| && s.kids[j].marker.Some?
    ensures var m := s.kids[j].marker.value;
            && m < |events| && events[m].Start? && !HasParent(events[m])
            && Denotes(Link(events, m), source + [m],
                       Open(s.(kids := s.kids[..j]), |events|, m, s.kids[j].first, Unmark(s.kids[j..])))
  {
    hide Linked, KidsInv, StackInv, Emitted, WalkAll, Trees, Unmark;
    var n := |events|;
    var m := s.kids[j].marker.value;
    var first := s.kids[j].first;
    var outer := s.(kids := s.kids[..j]);
    var moved := Unmark(s.kids[j..]);
    StackInvSplit(events, source, s, j);
    LinkAgrees(events, source, m);
    var events', source' := Link(events, m), source + [m];
    SameLength(events, source);
    StackInvAgrees(events, source, events', source', outer, first, m);
    KidsInvAgrees(events, source, events', source', moved, WalkStack(outer), first, n, 0, 0);
    KidsInvWiden(events', source', moved, WalkStack(outer), first, n, n + 1, 0, 0, n + 1);
    KidsInvUnmarked(events', source', moved, WalkStack(outer), first, n + 1, 0, n + 1, n + 1, n + 1);
    EntersLink(events, source, m, first);
    OpenIsInv(events', source', Open(outer, n, m, first, moved), n + 1, n + 1);
    LinkedWalk(events, source, s, j);
  }

  lemma LinkedWalk(events: seq<Event>, source: seq<int>, s: Stack, j: nat)
    requires Denotes(events, source, s) && j < |s.kids| && s.kids[j].marker.Some?
    requires var m := s.kids[j].marker.value; m < |events| && events[m].Start? && !HasParent(events[m])
    ensures var m := s.kids[j].marker.value;
            && Linked(Link(events, m), source + [m])
            && Emitted(Link(events, m), source + [m], |events| + 1)
               == WalkStack(s.(kids := s.kids[..j])) + WalkAll(Trees(Unmark(s.kids[j..])))
  {
    hide Linked, KidsInv, StackInv, WalkAll, Trees, Unmark, Enters;
    var m := s.kids[j].marker.value;
    var events', source' := Link(events, m), source + [m];
    LinkIsLinked(events, source, m);
    SameLength(events, source);
    EmittedLink(events, source, m, |events|);
    assert Emit(events', source', |events|) == [];
    assert s.kids == s.kids[..j] + s.kids[j..];
    assert s == AppendKids(s.(kids := s.kids[..j]), s.kids[j..]);
    WalkStackAppend(s.(kids := s.kids[..j]), s.kids[j..]);
  }

  // ---- What events that denote a stack are worth -------------------------------------

  /** Converting the events of a finished parse gives the walk of its trees. */
  method ProcessDenoted(events: seq<Event>, ghost source: seq<int>, ghost s: Stack) returns (res: Output)
    requires Denotes(events, source, s)
    ensures fresh(res) && res.Valid()
    ensures res.Iter() == ReadBack(WalkStack(s))
  {
    res := Process(events, source);
  }

  /** Popping the tombstone of a node made by `precede` leaves its child with a forward
      parent that is not there: no events that come of it can be converted. */
  lemma PoppingForwardParentBreaks(events: seq<Event>, source: seq<int>, s: Stack)
    requires Denotes(events, source, s) && s.Open?
    requires s.pos == |events| - 1 && s.head != s.pos
    ensures exists k :: 0 <= k < s.pos && HasParent(events[k]) && ParentOf(events, k) == s.pos
    ensures forall source' :: !Linked(events[..s.pos], source')
  {
    hide KidsInv, Emitted;
    InnermostOfOutermost(events, source, s.head);
    var k := source[s.pos];
    assert HasParent(events[k]) && ParentOf(events, k) == s.pos;
    assert events[..s.pos][k] == events[k];
  }
}
