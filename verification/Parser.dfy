/** The parser that grammar rules drive (fpp_lsp_parser/src/parser.rs). */
module Parsing {
  import opened Wrappers
  import opened Syntax
  import opened ParseTree
  import opened Events
  import opened Markers

  datatype Marker = Marker(pos: nat)
  datatype CompletedMarker = CompletedMarker(startPos: nat, endPos: nat, kind: SyntaxKind)

  /** The kinds of the tokens among the steps. */
  function TokensIn(steps: seq<Step>): seq<SyntaxKind> {
    if steps == [] then
      []
    else
      var last := steps[|steps| - 1];
      TokensIn(steps[..|steps| - 1]) + if last.Token? then [last.kind] else []
  }

  predicate OneAtATime(steps: seq<Step>) {
    forall i :: 0 <= i < |steps| && steps[i].Token? ==> steps[i].nInputTokens == 1
  }

  lemma {:induction false} TokensInConcat(a: seq<Step>, b: seq<Step>)
    ensures TokensIn(a + b) == TokensIn(a) + TokensIn(b)
  {
    if b == [] {
      assert a + b == a;
    } else {
      assert (a + b)[..|a + b| - 1] == a + b[..|b| - 1];
      TokensInConcat(a, b[..|b| - 1]);
    }
  }

  lemma TokensInOne(step: Step)
    ensures TokensIn([step]) == if step.Token? then [step.kind] else []
  {
    assert [step][..0] == [];
  }

  class Parser {
    const inp: seq<SyntaxKind>
    var pos: nat
    var events: seq<Event>
    ghost var source: seq<int>
    /** The open nodes. The original keeps their markers in the local variables of the
        grammar rules. */
    var stack: Stack

    /** The events denote the open nodes and their children. */
    ghost predicate Valid()
      reads this
    {
      Denotes(events, source, stack)
    }

    /** The tokens in the tree are the input consumed so far. */
    ghost predicate Tracks()
      reads this
    {
      && pos <= |inp|
      && TokensIn(WalkStack(stack)) == inp[..pos]
      && OneAtATime(WalkStack(stack))
    }

    constructor (inp: seq<SyntaxKind>)
      ensures Valid() && Tracks()
      ensures this.inp == inp && pos == 0 && events == [] && stack == Base([])
    {
      this.inp := inp;
      pos := 0;
      events := [];
      source := [];
      stack := Base([]);
    }

    function Nth(n: nat): SyntaxKind
      reads this
    {
      if pos + n < |inp| then inp[pos + n] else EOF
    }

    predicate At(kind: SyntaxKind)
      reads this
    {
      Nth(0) == kind
    }

    /** Push an event that opens and closes no node. */
    method PushLeafEvent(e: Event)
      requires Valid() && (e.TokenEvent? || e.ErrorEvent? || e.ErrorExpected?)
      modifies this`events, this`source, this`stack
      ensures Valid() && events == old(events) + [e]
      ensures stack == AppendKids(old(stack), [Kid(Leaf(StepOf(e)), |old(events)|, None)])
      ensures WalkStack(stack) == old(WalkStack(stack)) + [StepOf(e)]
    {
      hide Denotes;
      var kid := Kid(Leaf(StepOf(e)), |events|, None);
      PushLeaf(events, source, stack, e);
      WalkStackAppend(stack, [kid]);
      TreesOne(kid);
      events := events + [e];
      source := source + [-1];
      stack := AppendKids(stack, [kid]);
    }

    method DoBump(kind: SyntaxKind, nRawTokens: nat)
      requires Valid() && At(kind) && nRawTokens == 1
      modifies this
      ensures Valid() && pos == old(pos) + nRawTokens
      ensures events == old(events) + [TokenEvent(kind, nRawTokens)]
      ensures stack == AppendKids(old(stack), [Kid(Leaf(Token(kind, nRawTokens)), |old(events)|, None)])
      ensures old(Tracks()) && kind != EOF ==> Tracks()
    {
      hide Denotes, WalkStack, TokensIn;
      ghost var walk := WalkStack(stack);
      TokensInConcat(walk, [Token(kind, nRawTokens)]);
      TokensInOne(Token(kind, nRawTokens));
      pos := pos + nRawTokens;
      PushLeafEvent(TokenEvent(kind, nRawTokens));
    }

    method Eat(kind: SyntaxKind) returns (eaten: bool)
      requires Valid()
      modifies this
      ensures Valid() && eaten == old(At(kind))
      ensures eaten ==>
          && pos == old(pos) + 1 && events == old(events) + [TokenEvent(kind, 1)]
          && stack == AppendKids(old(stack), [Kid(Leaf(Token(kind, 1)), |old(events)|, None)])
      ensures !eaten ==> pos == old(pos) && events == old(events) && stack == old(stack)
      ensures old(Tracks()) && kind != EOF ==> Tracks()
    {
      hide Denotes, WalkStack, TokensIn;
      if !At(kind) {
        return false;
      }
      DoBump(kind, 1);
      return true;
    }

    method Bump(kind: SyntaxKind)
      requires Valid() && At(kind)
      modifies this
      ensures Valid() && pos == old(pos) + 1 && events == old(events) + [TokenEvent(kind, 1)]
      ensures stack == AppendKids(old(stack), [Kid(Leaf(Token(kind, 1)), |old(events)|, None)])
      ensures old(Tracks()) && kind != EOF ==> Tracks()
    {
      hide Denotes, WalkStack, TokensIn;
      var eaten := Eat(kind);
      assert eaten;
    }

    method BumpAny()
      requires Valid()
      modifies this
      ensures Valid()
      ensures old(At(EOF)) ==> pos == old(pos) && events == old(events) && stack == old(stack)
      ensures !old(At(EOF)) ==>
          && pos == old(pos) + 1 && events == old(events) + [TokenEvent(old(Nth(0)), 1)]
          && stack == AppendKids(old(stack), [Kid(Leaf(Token(old(Nth(0)), 1)), |old(events)|, None)])
      ensures old(Tracks()) ==> Tracks()
    {
      hide Denotes, WalkStack, TokensIn;
      var kind := Nth(0);
      if kind == EOF {
        return;
      }
      DoBump(kind, 1);
    }

    method Error(message: string)
      requires Valid()
      modifies this
      ensures Valid() && pos == old(pos) && events == old(events) + [ErrorEvent(message)]
      ensures stack == AppendKids(old(stack), [Kid(Leaf(Step.Error(message)), |old(events)|, None)])
      ensures old(Tracks()) ==> Tracks()
    {
      hide Denotes, WalkStack, TokensIn;
      TokensInConcat(WalkStack(stack), [Step.Error(message)]);
      TokensInOne(Step.Error(message));
      PushLeafEvent(ErrorEvent(message));
    }

    method PushExpected(kind: SyntaxKind)
      requires Valid()
      modifies this
      ensures Valid() && pos == old(pos) && events == old(events) + [ErrorExpected(kind)]
      ensures stack == AppendKids(old(stack), [Kid(Leaf(Expected(kind)), |old(events)|, None)])
      ensures old(Tracks()) ==> Tracks()
    {
      hide Denotes, WalkStack, TokensIn;
      TokensInConcat(WalkStack(stack), [Expected(kind)]);
      TokensInOne(Expected(kind));
      PushLeafEvent(ErrorExpected(kind));
    }

    method Expect(kind: SyntaxKind) returns (found: bool)
      requires Valid()
      modifies this
      ensures Valid() && found == old(At(kind))
      ensures pos == if found then old(pos) + 1 else old(pos)
      ensures stack == AppendKids(old(stack),
                                  [Kid(Leaf(if found then Token(kind, 1) else Expected(kind)), |old(events)|, None)])
      ensures |events| == |old(events)| + 1
      ensures old(Tracks()) && kind != EOF ==> Tracks()
    {
      hide Denotes, WalkStack, TokensIn;
      var eaten := Eat(kind);
      if eaten {
        return true;
      }
      PushExpected(kind);
      return false;
    }

    // ---- Markers ---------------------------------------------------------------

    method StartMarker() returns (m: Marker)
      requires Valid()
      modifies this`events, this`source, this`stack
      ensures Valid() && events == old(events) + [TOMBSTONE_EVENT] && m == Marker(|old(events)|)
      ensures stack == Open(old(stack), m.pos, m.pos, m.pos, [])
      ensures WalkStack(stack) == old(WalkStack(stack)) && (old(Tracks()) ==> Tracks())
    {
      hide Denotes, WalkAll, Trees;
      var pos := |events|;
      StartNode(events, source, stack);
      NoTrees();
      events := events + [TOMBSTONE_EVENT];
      source := source + [-1];
      stack := Open(stack, pos, pos, pos, []);
      return Marker(pos);
    }

    /** Finish the innermost open node. */
    method Complete(m: Marker, kind: SyntaxKind) returns (c: CompletedMarker)
      requires Valid() && stack.Open? && m.pos == stack.pos && kind != TOMBSTONE
      modifies this`events, this`source, this`stack
      ensures Valid() && |events| == |old(events)| + 1
      ensures c == CompletedMarker(m.pos, |events|, kind)
      ensures stack == AppendKids(old(stack).below,
                                  [Kid(Node(kind, Trees(old(stack).kids)), old(stack).head, Some(m.pos))])
      ensures old(Tracks()) ==> Tracks()
    {
      hide Denotes, TokensIn, Trees, WalkAll;
      CompleteNode(events, source, stack, kind);
      TokensOfCompleted(stack, kind);
      var idx := m.pos;
      events := events[idx := Start(kind, events[idx].forwardParent)];
      events := events + [Finish];
      source := source + [-1];
      stack := AppendKids(stack.below, [Kid(Node(kind, Trees(stack.kids)), stack.head, Some(idx))]);
      return CompletedMarker(idx, |events|, kind);
    }

    /** Abandon the innermost open node. It may be popped only if `precede` did not make it. */
    method Abandon(m: Marker)
      requires Valid() && stack.Open? && m.pos == stack.pos
      requires m.pos == |events| - 1 ==> stack.head == m.pos
      modifies this`events, this`source, this`stack
      ensures Valid()
      ensures events == if m.pos == |old(events)| - 1 then old(events)[..m.pos] else old(events)
      ensures stack == AppendKids(old(stack).below, old(stack).kids)
      ensures WalkStack(stack) == old(WalkStack(stack)) && (old(Tracks()) ==> Tracks())
    {
      hide Linked, KidsInv, Emitted, Outermost, Trees, WalkAll;
      WalkStackAppend(stack.below, stack.kids);
      var idx := m.pos;
      if idx == |events| - 1 {
        PopTombstone(events, source, stack);
        var e := events[|events| - 1];
        events := events[..|events| - 1];
        assert e == TOMBSTONE_EVENT;
        source := source[..|events|];
      } else {
        SpliceChildren(events, source, stack);
      }
      stack := AppendKids(stack.below, stack.kids);
    }

    /** Open a node in front of a completed child of the innermost open node. */
    method Precede(c: CompletedMarker, j: nat) returns (m: Marker)
      requires Valid() && j < |stack.kids| && stack.kids[j].marker == Some(c.startPos)
      modifies this`events, this`source, this`stack
      ensures Valid() && m == Marker(|old(events)|) && |events| == |old(events)| + 1
      ensures stack == Open(old(stack).(kids := old(stack).kids[..j]), m.pos, c.startPos,
                            old(stack).kids[j].first, Unmark(old(stack).kids[j..]))
      ensures WalkStack(stack) == old(WalkStack(stack)) && (old(Tracks()) ==> Tracks())
    {
      hide Denotes, Trees, WalkAll, Unmark;
      PrecedeNode(events, source, stack, j);
      PrecededWalk(stack, j, |events|, c.startPos);
      var newPos := |events|;
      events := events + [TOMBSTONE_EVENT];
      var idx := c.startPos;
      events := events[idx := Start(events[idx].kind, Some(newPos - idx))];
      source := source + [c.startPos];
      stack := Open(stack.(kids := stack.kids[..j]), newPos, idx, stack.kids[j].first, Unmark(stack.kids[j..]));
      return Marker(newPos);
    }

    // ---- Errors ------------------------------------------------------------------

    /** An error, with the next token if there is one. */
    function ErrorNode(message: string): Tree
      reads this
    {
      Node(ERROR, [Leaf(Step.Error(message))] + if At(EOF) then [] else [Leaf(Token(Nth(0), 1))])
    }

    method ErrAndBump(message: string)
      requires Valid()
      modifies this
      ensures Valid() && old(pos) <= pos && (!old(At(EOF)) ==> old(pos) < pos)
      ensures exists kid :: stack == AppendKids(old(stack), [kid]) && kid.tree == old(ErrorNode(message))
      ensures old(Tracks()) ==> Tracks()
    {
      hide Denotes, WalkStack, TokensIn;
      var m := StartMarker();
      Error(message);
      BumpAny();
      var _ := Complete(m, ERROR);
    }

    /** Returns whether recovery kicked in. */
    method ErrRecover(message: string, recovery: set<SyntaxKind>) returns (recovered: bool)
      requires Valid()
      modifies this
      ensures Valid() && old(pos) <= pos
      ensures recovered <==> old(Nth(0)) in recovery + {LEFT_CURLY, RIGHT_CURLY}
      ensures recovered ==> pos == old(pos)
      ensures !recovered && !old(At(EOF)) ==> old(pos) < pos
      ensures exists kid :: stack == AppendKids(old(stack), [kid])
                            && kid.tree == if recovered then Leaf(Step.Error(message)) else old(ErrorNode(message))
      ensures old(Tracks()) ==> Tracks()
    {
      hide Denotes, WalkStack, TokensIn;
      if Nth(0) == LEFT_CURLY || Nth(0) == RIGHT_CURLY {
        Error(message);
        return true;
      }
      if Nth(0) in recovery {
        Error(message);
        return true;
      }
      var m := StartMarker();
      Error(message);
      BumpAny();
      var _ := Complete(m, ERROR);
      return false;
    }
  }

  /** Completing a node adds no tokens. */
  lemma TokensOfCompleted(s: Stack, kind: SyntaxKind)
    requires s.Open?
    ensures var walk := WalkStack(AppendKids(s.below, [Kid(Node(kind, Trees(s.kids)), s.head, Some(s.pos))]));
            && TokensIn(walk) == TokensIn(WalkStack(s))
            && (OneAtATime(WalkStack(s)) ==> OneAtATime(walk))
  {
    hide Trees, WalkAll, TokensIn;
    var kid := Kid(Node(kind, Trees(s.kids)), s.head, Some(s.pos));
    var outer, inner := WalkStack(s.below), WalkAll(Trees(s.kids));
    WalkStackAppend(s.below, [kid]);
    TreesOne(kid);
    assert WalkStack(AppendKids(s.below, [kid])) == outer + ([Enter(kind)] + inner + [Exit]);
    TokensOfNode(outer, kind, inner);
    if OneAtATime(outer + inner) {
      OneAtATimeParts(outer, kind, inner);
    }
  }

  lemma TokensOfNode(outer: seq<Step>, kind: SyntaxKind, inner: seq<Step>)
    ensures TokensIn(outer + ([Enter(kind)] + inner + [Exit])) == TokensIn(outer + inner)
  {
    hide TokensIn;
    TokensInConcat(outer, [Enter(kind)] + inner + [Exit]);
    TokensInConcat([Enter(kind)] + inner, [Exit]);
    TokensInConcat([Enter(kind)], inner);
    TokensInOne(Enter(kind));
    TokensInOne(Exit);
    TokensInConcat(outer, inner);
  }

  lemma OneAtATimeParts(outer: seq<Step>, kind: SyntaxKind, inner: seq<Step>)
    requires OneAtATime(outer + inner)
    ensures OneAtATime(outer + ([Enter(kind)] + inner + [Exit]))
  {
    var walk := outer + ([Enter(kind)] + inner + [Exit]);
    forall i | 0 <= i < |walk| && walk[i].Token?
      ensures walk[i].nInputTokens == 1
    {
      var k := if i < |outer| then i else i - 1;
      assert walk[i] == (outer + inner)[k];
    }
  }

  lemma PrecededWalk(s: Stack, j: nat, pos: nat, floor: nat)
    requires j < |s.kids|
    ensures WalkStack(Open(s.(kids := s.kids[..j]), pos, floor, s.kids[j].first, Unmark(s.kids[j..]))) == WalkStack(s)
  {
    hide Trees, WalkAll, Unmark;
    assert s.kids == s.kids[..j] + s.kids[j..];
    assert s == AppendKids(s.(kids := s.kids[..j]), s.kids[j..]);
    WalkStackAppend(s.(kids := s.kids[..j]), s.kids[j..]);
  }
}
