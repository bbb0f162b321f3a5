/**
 Sequences of members (fpp_lsp_parser/src/grammar.rs:76-86 and 152-259).

 A member rule sees the input and its position in it and drives the parser through markers.
 It is modelled by the operations it performs; nothing else is known of it.
 */
module Grammar {
  import opened Wrappers
  import opened Syntax
  import opened ParseTree
  import opened Events
  import opened Markers
  import opened Parsing

  datatype Op =
    | StartOp
    | BumpOp
    | ErrorOp(msg: string)
    | ExpectedOp(kind: SyntaxKind)
    | CompleteOp(kind: SyntaxKind)
    | AbandonOp
    | PrecedeOp(back: nat)

  type Rule = (seq<SyntaxKind>, nat) -> seq<Op>

  /** The parser as markers see it. */
  datatype Cursor = Cursor(stack: Stack, count: nat, pos: nat)

  function Depth(s: Stack): nat {
    match s
    case Base(_) => 0
    case Open(below, _, _, _, _) => 1 + Depth(below)
  }

  /** Whether `s` is `base` with more children. */
  predicate Grows(s: Stack, base: Stack) {
    base.kids <= s.kids && s == base.(kids := s.kids)
  }

  /** Whether `s` is `base` with more children, or with nodes open inside it. */
  predicate Extends(s: Stack, base: Stack) {
    if Depth(s) == Depth(base) then Grows(s, base) else s.Open? && Extends(s.below, base)
  }

  /** The child of the innermost node with `back` children after it. */
  function ChildAt(c: Cursor, back: nat): (child: nat)
    requires back < |c.stack.kids|
    ensures child < |c.stack.kids|
  {
    |c.stack.kids| - 1 - back
  }

  /**
   Whether an operation respects the markers of a rule that began at `base`: it completes
   or abandons the innermost node, which is its own, and precedes only its own nodes, which
   it counts from the last one back. A node made by `precede` is not abandoned while it is the
   last event.
   */
  predicate IsLegal(op: Op, c: Cursor, base: Stack) {
    match op
    case CompleteOp(kind) =>
      Depth(base) < Depth(c.stack) && kind != TOMBSTONE
    case AbandonOp =>
      Depth(base) < Depth(c.stack) && (c.stack.pos == c.count - 1 ==> c.stack.head == c.stack.pos)
    case PrecedeOp(back) =>
      && back < |c.stack.kids| && c.stack.kids[ChildAt(c, back)].marker.Some?
      && (Depth(base) < Depth(c.stack) || |base.kids| <= ChildAt(c, back))
    case _ => true
  }

  function AddLeaf(c: Cursor, step: LeafStep): Cursor {
    Cursor(AppendKids(c.stack, [Kid(Leaf(step), c.count, None)]), c.count + 1, c.pos)
  }

  function Do(op: Op, inp: seq<SyntaxKind>, c: Cursor, base: Stack): Cursor
    requires IsLegal(op, c, base)
  {
    match op
    case StartOp => Cursor(Open(c.stack, c.count, c.count, c.count, []), c.count + 1, c.pos)
    case BumpOp =>
      if c.pos < |inp| && inp[c.pos] != EOF then AddLeaf(c, Token(inp[c.pos], 1)).(pos := c.pos + 1) else c
    case ErrorOp(msg) => AddLeaf(c, Error(msg))
    case ExpectedOp(kind) => AddLeaf(c, Expected(kind))
    case CompleteOp(kind) =>
      var s := c.stack;
      Cursor(AppendKids(s.below, [Kid(Node(kind, Trees(s.kids)), s.head, Some(s.pos))]), c.count + 1, c.pos)
    case AbandonOp =>
      var s := c.stack;
      Cursor(AppendKids(s.below, s.kids), if s.pos == c.count - 1 then c.count - 1 else c.count, c.pos)
    case PrecedeOp(back) =>
      var child := ChildAt(c, back);
      var s, kid := c.stack, c.stack.kids[child];
      Cursor(Open(s.(kids := s.kids[..child]), c.count, kid.marker.value, kid.first, Unmark(s.kids[child..])),
             c.count + 1, c.pos)
  }

  /** Whether the operations respect the markers and leave every node closed. */
  predicate IsLegalRun(ops: seq<Op>, inp: seq<SyntaxKind>, c: Cursor, base: Stack)
    decreases |ops|
  {
    if ops == [] then
      Depth(c.stack) == Depth(base)
    else
      IsLegal(ops[0], c, base) && IsLegalRun(ops[1..], inp, Do(ops[0], inp, c, base), base)
  }

  /** Where the operations lead. */
  function Run(ops: seq<Op>, inp: seq<SyntaxKind>, c: Cursor, base: Stack): Cursor
    requires IsLegalRun(ops, inp, c, base)
    decreases |ops|
  {
    if ops == [] then c else Run(ops[1..], inp, Do(ops[0], inp, c, base), base)
  }

  ghost predicate IsRule(rule: Rule) {
    forall inp, c: Cursor :: IsLegalRun(rule(inp, c.pos), inp, c, c.stack)
  }

  /** A rule may complete a node beside the children that were there, and then precede it. */
  lemma PrecedingIsRule(first: SyntaxKind, second: SyntaxKind)
    requires first != TOMBSTONE && second != TOMBSTONE
    ensures IsRule((_: seq<SyntaxKind>, _: nat) => [StartOp, CompleteOp(first), PrecedeOp(0), CompleteOp(second)])
  {
    var ops := [StartOp, CompleteOp(first), PrecedeOp(0), CompleteOp(second)];
    forall inp, c: Cursor
      ensures IsLegalRun(ops, inp, c, c.stack)
    {
      var c1 := Do(ops[0], inp, c, c.stack);
      var c2 := Do(ops[1], inp, c1, c.stack);
      assert Depth(c2.stack) == Depth(c.stack);
      var c3 := Do(ops[2], inp, c2, c.stack);
      assert Depth(c3.stack) == 1 + Depth(c.stack);
      var c4 := Do(ops[3], inp, c3, c.stack);
      assert Depth(c4.stack) == Depth(c.stack);
      assert IsLegalRun(ops[4..], inp, c4, c.stack);
      assert IsLegalRun(ops[3..], inp, c3, c.stack);
      assert IsLegalRun(ops[2..], inp, c2, c.stack) by {
        assert ops[2..][1..] == ops[3..];
      }
      assert IsLegalRun(ops[1..], inp, c1, c.stack) by {
        assert ops[1..][1..] == ops[2..];
      }
    }
  }

  lemma ExtendsWithKids(s: Stack, kids: seq<Kid>, base: Stack)
    requires Extends(s, base)
    requires Depth(s) == Depth(base) ==> base.kids <= kids
    ensures Extends(s.(kids := kids), base)
  {
    assert Depth(s.(kids := kids)) == Depth(s);
  }

  lemma {:induction false} ExtendsIsDeeper(s: Stack, base: Stack)
    requires Extends(s, base)
    ensures Depth(base) <= Depth(s)
    decreases s
  {
    if Depth(s) != Depth(base) {
      ExtendsIsDeeper(s.below, base);
    }
  }

  /** A legal operation stays within the node where the rule began. */
  lemma DoExtends(op: Op, inp: seq<SyntaxKind>, c: Cursor, base: Stack)
    requires IsLegal(op, c, base) && Extends(c.stack, base)
    ensures Extends(Do(op, inp, c, base).stack, base)
    ensures c.pos <= Do(op, inp, c, base).pos
  {
    var s := c.stack;
    var c' := Do(op, inp, c, base);
    ExtendsIsDeeper(s, base);
    match op
    case StartOp =>
      assert c'.stack.below == s;
    case CompleteOp(_) => ExtendsWithKids(s.below, c'.stack.kids, base);
    case AbandonOp => ExtendsWithKids(s.below, c'.stack.kids, base);
    case PrecedeOp(back) => ExtendsWithKids(s, s.kids[..ChildAt(c, back)], base);
    case _ => ExtendsWithKids(s, c'.stack.kids, base);
  }

  // ---- Running a rule --------------------------------------------------------------

  function CursorOf(p: Parser): Cursor
    reads p
  {
    Cursor(p.stack, |p.events|, p.pos)
  }

  /** One operation. The markers of the open nodes are on `markers`, the innermost last. */
  method Perform(p: Parser, op: Op, ghost base: Stack)
    requires p.Valid() && p.Tracks() && IsLegal(op, CursorOf(p), base)
    modifies p
    ensures p.Valid() && p.Tracks()
    ensures CursorOf(p) == Do(op, p.inp, old(CursorOf(p)), base)
  {
    match op
    case StartOp =>
      var _ := p.StartMarker();
    case BumpOp =>
      p.BumpAny();
    case ErrorOp(msg) =>
      p.Error(msg);
    case ExpectedOp(kind) =>
      p.PushExpected(kind);
    case CompleteOp(kind) =>
      var _ := p.Complete(Marker(p.stack.pos), kind);
    case AbandonOp =>
      p.Abandon(Marker(p.stack.pos));
    case PrecedeOp(back) =>
      var child := ChildAt(CursorOf(p), back);
      var _ := p.Precede(CompletedMarker(p.stack.kids[child].marker.value, 0, ERROR), child);
  }

  lemma ExtendsItself(s: Stack)
    ensures Extends(s, s)
  {
  }

  lemma RunStep(ops: seq<Op>, inp: seq<SyntaxKind>, c: Cursor, base: Stack)
    requires ops != [] && IsLegalRun(ops, inp, c, base)
    ensures IsLegal(ops[0], c, base) && IsLegalRun(ops[1..], inp, Do(ops[0], inp, c, base), base)
    ensures Run(ops, inp, c, base) == Run(ops[1..], inp, Do(ops[0], inp, c, base), base)
  {
    hide IsLegal, Do;
  }

  /** A rule that is through has only added children to the node it began in. */
  lemma {:induction false} RunGrows(ops: seq<Op>, inp: seq<SyntaxKind>, c: Cursor, base: Stack)
    requires IsLegalRun(ops, inp, c, base) && Extends(c.stack, base)
    ensures Grows(Run(ops, inp, c, base).stack, base) && c.pos <= Run(ops, inp, c, base).pos
    decreases |ops|
  {
    hide IsLegal, Do;
    if ops != [] {
      RunStep(ops, inp, c, base);
      DoExtends(ops[0], inp, c, base);
      RunGrows(ops[1..], inp, Do(ops[0], inp, c, base), base);
    }
  }

  /** What a rule makes of the parser. */
  ghost function RunOf(rule: Rule, inp: seq<SyntaxKind>, c: Cursor): (r: Cursor)
    requires IsRule(rule)
    ensures Grows(r.stack, c.stack) && c.pos <= r.pos
  {
    ExtendsItself(c.stack);
    RunGrows(rule(inp, c.pos), inp, c, c.stack);
    Run(rule(inp, c.pos), inp, c, c.stack)
  }

  /** Apply a member rule: all its operations, in order. */
  method Apply(p: Parser, rule: Rule)
    requires p.Valid() && p.Tracks() && IsRule(rule)
    modifies p
    ensures p.Valid() && p.Tracks()
    ensures CursorOf(p) == RunOf(rule, p.inp, old(CursorOf(p)))
  {
    hide IsLegal, Do, Extends, Grows, IsLegalRun, Run;
    var base := p.stack;
    var ops := rule(p.inp, p.pos);
    assert IsLegalRun(ops, p.inp, CursorOf(p), base) by {
      var c := CursorOf(p);
      assert IsLegalRun(rule(p.inp, c.pos), p.inp, c, c.stack);
    }
    assert ops[0..] == ops;
    for i := 0 to |ops|
      invariant p.Valid() && p.Tracks()
      invariant IsLegalRun(ops[i..], p.inp, CursorOf(p), base)
      invariant Run(ops[i..], p.inp, CursorOf(p), base) == Run(ops, p.inp, old(CursorOf(p)), base)
    {
      assert ops[i..][1..] == ops[i + 1..];
      RunStep(ops[i..], p.inp, CursorOf(p), base);
      Perform(p, ops[i], base);
    }
    assert ops[|ops|..] == [];
    RunOfNothing(p.inp, CursorOf(p), base);
  }

  lemma RunOfNothing(inp: seq<SyntaxKind>, c: Cursor, base: Stack)
    requires IsLegalRun([], inp, c, base)
    ensures Run([], inp, c, base) == c
  {
  }

  // ---- What a rule builds --------------------------------------------------------------

  function MoveKids(kids: seq<Kid>, d: nat): (r: seq<Kid>)
    ensures |r| == |kids| && Trees(r) == Trees(kids)
  {
    seq(|kids|, i requires 0 <= i < |kids| =>
      Kid(kids[i].tree, kids[i].first + d, if kids[i].marker.Some? then Some(kids[i].marker.value + d) else None))
  }

  /** Whether `s'` is `s` on top of `base`, with all events moved back by `d`. */
  predicate IsMoved(s: Stack, s': Stack, base: Stack, d: nat) {
    match s
    case Base(kids) => s' == base.(kids := base.kids + MoveKids(kids, d))
    case Open(below, pos, floor, head, kids) =>
      && s'.Open? && s'.pos == pos + d && s'.floor == floor + d && s'.head == head + d && s'.kids == MoveKids(kids, d)
      && IsMoved(below, s'.below, base, d)
  }

  predicate IsMovedCursor(c: Cursor, c': Cursor, base: Stack, d: nat) {
    IsMoved(c.stack, c'.stack, base, d) && c'.count == c.count + d && c'.pos == c.pos
  }

  lemma MovedKids(a: seq<Kid>, b: seq<Kid>, d: nat, k: nat)
    requires k <= |a|
    ensures MoveKids(a + b, d) == MoveKids(a, d) + MoveKids(b, d)
    ensures MoveKids(a[..k], d) == MoveKids(a, d)[..k] && MoveKids(a[k..], d) == MoveKids(a, d)[k..]
    ensures MoveKids(Unmark(a), d) == Unmark(MoveKids(a, d))
  {
  }

  lemma MovedAppend(s: Stack, s': Stack, base: Stack, d: nat, more: seq<Kid>)
    requires IsMoved(s, s', base, d)
    ensures IsMoved(AppendKids(s, more), AppendKids(s', MoveKids(more, d)), base, d)
  {
    hide MoveKids;
    MovedKids(s.kids, more, d, 0);
    if s.Base? {
      assert base.kids + (MoveKids(s.kids, d) + MoveKids(more, d)) == base.kids + MoveKids(s.kids, d) + MoveKids(more, d);
    }
  }

  lemma MovedPrefix(s: Stack, s': Stack, base: Stack, d: nat, k: nat)
    requires IsMoved(s, s', base, d) && k <= |s.kids|
    ensures |s.kids| <= |s'.kids|
    ensures var k' := k + |s'.kids| - |s.kids|;
            && IsMoved(s.(kids := s.kids[..k]), s'.(kids := s'.kids[..k']), base, d)
            && MoveKids(Unmark(s.kids[k..]), d) == Unmark(s'.kids[k'..])
            && (k < |s.kids| ==> s'.kids[k'] == MoveKids(s.kids, d)[k])
  {
    hide MoveKids, Unmark;
    MovedKids(s.kids, [], d, k);
    MovedKids(s.kids[k..], [], d, 0);
    if s.Base? {
      var all := MoveKids(s.kids, d);
      assert s'.kids[..k + |base.kids|] == base.kids + all[..k];
      assert s'.kids[k + |base.kids|..] == all[k..];
    }
  }

  lemma MovedLeaf(c: Cursor, c': Cursor, base: Stack, d: nat, step: LeafStep)
    requires IsMovedCursor(c, c', base, d)
    ensures IsMovedCursor(AddLeaf(c, step), AddLeaf(c', step), base, d)
  {
    hide IsMoved;
    MovedAppend(c.stack, c'.stack, base, d, [Kid(Leaf(step), c.count, None)]);
    assert MoveKids([Kid(Leaf(step), c.count, None)], d) == [Kid(Leaf(step), c.count + d, None)];
  }

  /** An operation does the same wherever the rule began. */
  lemma DoMoves(op: Op, inp: seq<SyntaxKind>, c: Cursor, c': Cursor, base: Stack, d: nat)
    requires IsLegal(op, c, Base([])) && IsLegal(op, c', base) && IsMovedCursor(c, c', base, d)
    ensures IsMovedCursor(Do(op, inp, c, Base([])), Do(op, inp, c', base), base, d)
  {
    hide MoveKids, AddLeaf, Unmark;
    var s, s' := c.stack, c'.stack;
    match op
    case StartOp => assert MoveKids([], d) == [];
    case BumpOp =>
      if c.pos < |inp| && inp[c.pos] != EOF {
        MovedLeaf(c, c', base, d, Token(inp[c.pos], 1));
      }
    case ErrorOp(msg) => MovedLeaf(c, c', base, d, Error(msg));
    case ExpectedOp(kind) => MovedLeaf(c, c', base, d, Expected(kind));
    case CompleteOp(kind) =>
      var kid := Kid(Node(kind, Trees(s.kids)), s.head, Some(s.pos));
      MovedAppend(s.below, s'.below, base, d, [kid]);
      MovedKid(kid, d);
    case AbandonOp => MovedAppend(s.below, s'.below, base, d, s.kids);
    case PrecedeOp(back) =>
      MovedPrefix(s, s', base, d, ChildAt(c, back));
      MovedAt(s.kids, d, ChildAt(c, back));
  }

  lemma MovedKid(kid: Kid, d: nat)
    ensures MoveKids([kid], d)
         == [Kid(kid.tree, kid.first + d, if kid.marker.Some? then Some(kid.marker.value + d) else None)]
  {
  }

  lemma MovedAt(kids: seq<Kid>, d: nat, k: nat)
    requires k < |kids|
    ensures MoveKids(kids, d)[k].first == kids[k].first + d
    ensures kids[k].marker.Some? ==> MoveKids(kids, d)[k].marker == Some(kids[k].marker.value + d)
  {
  }

  lemma {:induction false} RunMoves(ops: seq<Op>, inp: seq<SyntaxKind>, c: Cursor, c': Cursor, base: Stack, d: nat)
    requires IsLegalRun(ops, inp, c, Base([])) && IsLegalRun(ops, inp, c', base) && IsMovedCursor(c, c', base, d)
    ensures IsMovedCursor(Run(ops, inp, c, Base([])), Run(ops, inp, c', base), base, d)
    decreases |ops|
  {
    hide IsLegal, Do, IsMovedCursor;
    if ops != [] {
      RunStep(ops, inp, c, Base([]));
      RunStep(ops, inp, c', base);
      DoMoves(ops[0], inp, c, c', base, d);
      RunMoves(ops[1..], inp, Do(ops[0], inp, c, Base([])), Do(ops[0], inp, c', base), base, d);
    }
  }

  /** Trees, and where the parser is after them. */
  datatype Built = Built(trees: seq<Tree>, pos: nat)

  /** What a rule builds of the input at a position. */
  ghost function BuiltBy(rule: Rule, inp: seq<SyntaxKind>, pos: nat): (b: Built)
    requires IsRule(rule)
    ensures pos <= b.pos
  {
    var r := RunOf(rule, inp, Cursor(Base([]), 0, pos));
    Built(Trees(r.stack.kids), r.pos)
  }

  /** Whether the stack has these trees more. */
  predicate Adds(s: Stack, before: Stack, ts: seq<Tree>) {
    Grows(s, before) && Trees(s.kids) == Trees(before.kids) + ts
  }

  /** A rule builds the same wherever it is run; it adds just that. */
  lemma RuleBuilds(rule: Rule, inp: seq<SyntaxKind>, c: Cursor)
    requires IsRule(rule)
    ensures var r, b := RunOf(rule, inp, c), BuiltBy(rule, inp, c.pos);
            Adds(r.stack, c.stack, b.trees) && r.pos == b.pos
  {
    hide IsLegalRun, Run, MoveKids;
    var first := Cursor(Base([]), 0, c.pos);
    assert IsLegalRun(rule(inp, first.pos), inp, first, first.stack);
    assert IsLegalRun(rule(inp, c.pos), inp, c, c.stack);
    assert MoveKids([], c.count) == [] && c.stack.kids + [] == c.stack.kids;
    RunMoves(rule(inp, c.pos), inp, first, c, c.stack, c.count);
    var r, r' := RunOf(rule, inp, first), RunOf(rule, inp, c);
    assert r.stack.Base?;
    TreesConcat(c.stack.kids, MoveKids(r.stack.kids, c.count));
  }

  // ---- Sequences -------------------------------------------------------------------

  const MEMBER_RECOVERY_SET: set<SyntaxKind> := {EOL, SEMI, RIGHT_CURLY}

  predicate IsKet(ket: SyntaxKind) {
    ket == EOF || ket == RIGHT_CURLY || ket == RIGHT_PAREN || ket == RIGHT_SQUARE
  }

  function ClosingText(ket: SyntaxKind): string
    requires IsKet(ket) && ket != EOF
  {
    if ket == RIGHT_CURLY then "}" else if ket == RIGHT_PAREN then ")" else "]"
  }

  /** The kind at a position. */
  function KindAt(inp: seq<SyntaxKind>, pos: nat): SyntaxKind {
    if pos < |inp| then inp[pos] else EOF
  }

  /** The tokens of a stretch of the input. */
  function Leaves(inp: seq<SyntaxKind>, start: nat, end: nat): (ts: seq<Tree>)
    ensures start <= end ==> |ts| == end - start
  {
    if start <= end then seq(end - start, i requires 0 <= i => Leaf(Token(KindAt(inp, start + i), 1))) else []
  }

  /** An unexpected block becomes one error node, which holds the tokens up to its first closing brace. */
  method ErrorBlock(p: Parser, message: string)
    requires p.Valid() && p.Tracks() && p.At(LEFT_CURLY)
    modifies p
    ensures p.Valid() && p.Tracks() && old(p.pos) < p.pos <= |p.inp|
    ensures exists kid :: p.stack == AppendKids(old(p.stack), [kid])
                          && kid.tree == Node(ERROR, [Leaf(Error(message))] + Leaves(p.inp, old(p.pos), p.pos))
    ensures RIGHT_CURLY !in p.inp[old(p.pos)..p.pos - 1]
    ensures p.At(EOF) || p.inp[p.pos - 1] == RIGHT_CURLY
  {
    hide Parser.Valid, Parser.Tracks, Trees, Leaves;
    var m := p.StartMarker();
    p.Error(message);
    ghost var start := p.pos;
    OneError(message, p.stack.kids);
    WithinInput(p);
    OneMoreLeaf(p.stack.kids, p.inp, start, start, |p.events|);
    p.Bump(LEFT_CURLY);
    WithinInput(p);
    while !p.At(EOF) && !p.At(RIGHT_CURLY)
      invariant p.Valid() && p.Tracks() && start < p.pos <= |p.inp|
      invariant p.stack.Open? && p.stack.below == old(p.stack) && p.stack.pos == m.pos
      invariant Trees(p.stack.kids) == [Leaf(Error(message))] + Leaves(p.inp, start, p.pos)
      invariant RIGHT_CURLY !in p.inp[start..p.pos]
      decreases |p.inp| - p.pos
    {
      OneMoreLeaf(p.stack.kids, p.inp, start, p.pos, |p.events|);
      p.BumpAny();
    }
    if p.At(RIGHT_CURLY) {
      OneMoreLeaf(p.stack.kids, p.inp, start, p.pos, |p.events|);
    }
    var _ := p.Eat(RIGHT_CURLY);
    var _ := p.Complete(m, ERROR);
  }

  lemma OneMoreLeaf(kids: seq<Kid>, inp: seq<SyntaxKind>, start: nat, pos: nat, event: nat)
    requires start <= pos < |inp|
    ensures Trees(kids + [Kid(Leaf(Token(inp[pos], 1)), event, None)]) == Trees(kids) + [Leaf(Token(inp[pos], 1))]
    ensures Leaves(inp, start, pos) + [Leaf(Token(inp[pos], 1))] == Leaves(inp, start, pos + 1)
    ensures inp[start..pos + 1] == inp[start..pos] + [inp[pos]]
  {
    hide Leaves;
    LeavesJoin(inp, start, pos, pos + 1);
    LeavesJoin(inp, pos, pos + 1, pos + 1);
  }

  lemma OneError(message: string, kids: seq<Kid>)
    requires |kids| == 1 && kids[0].tree == Leaf(Error(message))
    ensures Trees(kids) == [Leaf(Error(message))]
    ensures forall ts: seq<Tree> :: ts + [] == ts
  {
  }

  lemma WithinInput(p: Parser)
    requires p.Valid() && p.Tracks()
    ensures p.pos <= |p.inp|
  {
  }

  // ---- Orderly sequences -----------------------------------------------------------

  /** Where the tokens of a kind end. */
  function Past(inp: seq<SyntaxKind>, pos: nat, kind: SyntaxKind): (end: nat)
    requires kind != EOF
    ensures pos <= end && KindAt(inp, end) != kind
    ensures if KindAt(inp, pos) == kind then pos < end else end == pos
    decreases |inp| - pos
  {
    if KindAt(inp, pos) == kind then Past(inp, pos + 1, kind) else pos
  }

  lemma AddsOn(s: Stack, mid: Stack, before: Stack, ts: seq<Tree>, us: seq<Tree>)
    requires Adds(mid, before, ts) && Adds(s, mid, us)
    ensures Adds(s, before, ts + us)
  {
    hide Trees;
    assert Trees(before.kids) + ts + us == Trees(before.kids) + (ts + us);
  }

  lemma AddsOne(before: Stack, kid: Kid)
    ensures Adds(AppendKids(before, [kid]), before, [kid.tree])
  {
    TreesConcat(before.kids, [kid]);
    assert Trees([kid]) == [kid.tree];
  }

  lemma AddsNothing(s: Stack)
    ensures Adds(s, s, [])
  {
  }

  lemma LeavesJoin(inp: seq<SyntaxKind>, start: nat, mid: nat, end: nat)
    requires start <= mid <= end
    ensures Leaves(inp, start, mid) + Leaves(inp, mid, end) == Leaves(inp, start, end)
    ensures Leaves(inp, start, start) == []
    ensures start < mid ==> Leaves(inp, start, start + 1) == [Leaf(Token(KindAt(inp, start), 1))]
  {
  }

  method BumpAll(p: Parser, kind: SyntaxKind)
    requires p.Valid() && p.Tracks() && kind != EOF
    modifies p
    ensures p.Valid() && p.Tracks()
    ensures p.pos == Past(p.inp, old(p.pos), kind) && Adds(p.stack, old(p.stack), Leaves(p.inp, old(p.pos), p.pos))
  {
    hide Parser.Valid, Parser.Tracks, Adds, Leaves;
    AddsNothing(p.stack);
    LeavesJoin(p.inp, p.pos, p.pos, p.pos);
    while p.At(kind)
      invariant p.Valid() && p.Tracks() && old(p.pos) <= p.pos
      invariant Past(p.inp, p.pos, kind) == Past(p.inp, old(p.pos), kind)
      invariant Adds(p.stack, old(p.stack), Leaves(p.inp, old(p.pos), p.pos))
      decreases |p.inp| - p.pos
    {
      ghost var before, pos, events := p.stack, p.pos, |p.events|;
      p.Bump(kind);
      AddsOneLeaf(p.inp, p.stack, before, old(p.stack), old(p.pos), pos, events);
    }
  }

  lemma AddsOneLeaf(inp: seq<SyntaxKind>, s: Stack, mid: Stack, before: Stack, start: nat, pos: nat, event: nat)
    requires start <= pos && Adds(mid, before, Leaves(inp, start, pos))
    requires s == AppendKids(mid, [Kid(Leaf(Token(KindAt(inp, pos), 1)), event, None)])
    ensures Adds(s, before, Leaves(inp, start, pos + 1))
  {
    hide Adds, Leaves;
    AddsOne(mid, Kid(Leaf(Token(KindAt(inp, pos), 1)), event, None));
    LeavesJoin(inp, pos, pos + 1, pos + 1);
    LeavesJoin(inp, start, pos, pos + 1);
    AddsOn(s, mid, before, Leaves(inp, start, pos), Leaves(inp, pos, pos + 1));
  }

  predicate AtEnd(p: Parser, ket: SyntaxKind)
    reads p
  {
    p.At(ket) || p.At(EOF)
  }

  predicate IsEnd(inp: seq<SyntaxKind>, pos: nat, ket: SyntaxKind) {
    KindAt(inp, pos) == ket || KindAt(inp, pos) == EOF
  }

  /** How a sequence is written: what closes and separates its elements, and whether they are annotated. */
  datatype Form = Form(ket: SyntaxKind, delim: SyntaxKind, annotated: bool) {
    predicate IsForm() {
      IsKet(ket) && delim != EOF
    }
  }

  /** Whether an element may end here: at a terminator or at the end. */
  predicate EndsElement(inp: seq<SyntaxKind>, pos: nat, form: Form) {
    || KindAt(inp, pos) == form.delim || KindAt(inp, pos) == EOL
    || (form.annotated && KindAt(inp, pos) == POST_ANNOTATION)
    || IsEnd(inp, pos, form.ket)
  }

  /** Past the annotations in front of an element. */
  function Announced(inp: seq<SyntaxKind>, pos: nat, form: Form): (end: nat)
    ensures pos <= end
  {
    if form.annotated then Past(inp, pos, PRE_ANNOTATION) else pos
  }

  /** Past the terminator of an element, if there is one, and the annotations behind it. */
  function Terminated(inp: seq<SyntaxKind>, pos: nat, form: Form): (end: nat)
    ensures pos <= end
  {
    var next := if KindAt(inp, pos) != EOF && KindAt(inp, pos) in {form.delim, EOL} then pos + 1 else pos;
    if form.annotated then Past(inp, next, POST_ANNOTATION) else next
  }

  /** Whether a member can be run: no unexpected block, and no annotations without a member. */
  predicate StartsMember(inp: seq<SyntaxKind>, pos: nat, form: Form) {
    && !(form.ket == RIGHT_CURLY && KindAt(inp, pos) == LEFT_CURLY)
    && !(pos < Announced(inp, pos, form) && IsEnd(inp, Announced(inp, pos, form), form.ket))
  }

  /** Whether these trees begin with an error, alone or in an error node. */
  predicate Blames(ts: seq<Tree>, message: string) {
    && ts != []
    && (ts[0] == Leaf(Error(message))
        || (ts[0].Node? && ts[0].kind == ERROR && ts[0].children != [] && ts[0].children[0] == Leaf(Error(message))))
  }

  /** What may follow an element: a terminator and its annotations, the end, or an error. */
  method Terminator(p: Parser, form: Form, unterminatedMsg: string) returns (ghost rest: seq<Tree>)
    requires p.Valid() && p.Tracks() && form.IsForm()
    modifies p
    ensures p.Valid() && p.Tracks() && old(p.pos) <= p.pos && Adds(p.stack, old(p.stack), rest)
    ensures EndsElement(p.inp, old(p.pos), form) ==>
        p.pos == Terminated(p.inp, old(p.pos), form) && rest == Leaves(p.inp, old(p.pos), p.pos)
    ensures !EndsElement(p.inp, old(p.pos), form) ==> Blames(rest, unterminatedMsg)
  {
    hide Parser.Valid, Parser.Tracks, Adds, Leaves;
    AddsNothing(p.stack);
    LeavesJoin(p.inp, p.pos, p.pos, p.pos);
    ghost var events := |p.events|;
    var terminated := p.Eat(form.delim);
    if !terminated {
      terminated := p.Eat(EOL);
    }
    if terminated {
      AddsOneLeaf(p.inp, p.stack, old(p.stack), old(p.stack), old(p.pos), old(p.pos), events);
    }
    ghost var mid, next := p.stack, p.pos;
    if !terminated {
      terminated := form.annotated && p.At(POST_ANNOTATION);
    }
    rest := Leaves(p.inp, old(p.pos), p.pos);
    if terminated {
      if form.annotated {
        BumpAll(p, POST_ANNOTATION);
        LeavesJoin(p.inp, old(p.pos), next, p.pos);
        AddsOn(p.stack, mid, old(p.stack), rest, Leaves(p.inp, next, p.pos));
        rest := Leaves(p.inp, old(p.pos), p.pos);
      }
    } else if !AtEnd(p, form.ket) {
      // Only the last element may be unterminated.
      ghost var node := p.ErrorNode(unterminatedMsg);
      var recovered := p.ErrRecover(unterminatedMsg, MEMBER_RECOVERY_SET);
      ghost var kid :| p.stack == AppendKids(old(p.stack), [kid])
                       && kid.tree == if recovered then Leaf(Error(unterminatedMsg)) else node;
      AddsOne(old(p.stack), kid);
      rest := [kid.tree];
    }
  }

  /** What one round adds: annotations, the trees of the member, and the rest of the round. */
  function Round(inp: seq<SyntaxKind>, pos: nat, form: Form, member: seq<Tree>, rest: seq<Tree>): seq<Tree> {
    Leaves(inp, pos, Announced(inp, pos, form)) + member + rest
  }

  /**
   One iteration of the loop over the elements; `stop` is its `break`. Where a member can be run it
   is, and all that it builds is kept; when it consumes something and stops where an element may
   end, the iteration adds annotations and a terminator to it and nothing else.
   */
  method Element(p: Parser, member: Rule, form: Form, expectedErrorMsg: string, unterminatedMsg: string)
    returns (stop: bool, ghost rest: seq<Tree>)
    requires p.Valid() && p.Tracks() && IsRule(member)
    requires form.IsForm() && !AtEnd(p, form.ket)
    modifies p
    ensures p.Valid() && p.Tracks() && old(p.pos) <= p.pos
    ensures if stop then AtEnd(p, form.ket) || (form.ket != EOF && IsKet(p.Nth(0))) else old(p.pos) < p.pos
    ensures StartsMember(p.inp, old(p.pos), form) ==>
        var b := BuiltBy(member, p.inp, Announced(p.inp, old(p.pos), form));
        && Adds(p.stack, old(p.stack), Round(p.inp, old(p.pos), form, b.trees, rest))
        && (EndsElement(p.inp, b.pos, form) && old(p.pos) < b.pos ==>
              !stop && p.pos == Terminated(p.inp, b.pos, form) && rest == Leaves(p.inp, b.pos, p.pos))
        && (!EndsElement(p.inp, b.pos, form) ==> Blames(rest, unterminatedMsg))
    ensures !StartsMember(p.inp, old(p.pos), form) ==>
        exists ts :: Adds(p.stack, old(p.stack), Leaves(p.inp, old(p.pos), Announced(p.inp, old(p.pos), form)) + ts)
                     && Blames(ts, expectedErrorMsg)
  {
    hide Parser.Valid, Parser.Tracks, IsRule, RunOf, BuiltBy, Adds, Leaves, Blames, EndsElement, Terminated;
    rest := [];
    var start := p.pos;
    AddsNothing(p.stack);
    LeavesJoin(p.inp, start, start, start);
    if form.ket == RIGHT_CURLY && p.At(LEFT_CURLY) {
      ErrorBlock(p, expectedErrorMsg);
      ghost var kid :| p.stack == AppendKids(old(p.stack), [kid])
                       && kid.tree == Node(ERROR, [Leaf(Error(expectedErrorMsg))] + Leaves(p.inp, old(p.pos), p.pos));
      AddsOne(old(p.stack), kid);
      BlamesNode(kid.tree, expectedErrorMsg);
      assert [] + [kid.tree] == [kid.tree];
      return false, rest;
    }

    if form.annotated && p.At(PRE_ANNOTATION) {
      BumpAll(p, PRE_ANNOTATION);
      if AtEnd(p, form.ket) {
        // Pre-annotations must be followed by an element.
        ghost var kid, mid := Kid(Leaf(Error(expectedErrorMsg)), |p.events|, None), p.stack;
        p.Error(expectedErrorMsg);
        AddsOne(mid, kid);
        AddsOn(p.stack, mid, old(p.stack), Leaves(p.inp, old(p.pos), p.pos), [kid.tree]);
        BlamesLeaf(expectedErrorMsg);
        return true, rest;
      }
    }

    ghost var announced := CursorOf(p);
    RuleBuilds(member, p.inp, announced);
    Apply(p, member);
    ghost var run := p.stack;
    ghost var before := Leaves(p.inp, start, announced.pos) + BuiltBy(member, p.inp, announced.pos).trees;
    AddsOn(run, announced.stack, old(p.stack), Leaves(p.inp, start, announced.pos), BuiltBy(member, p.inp, announced.pos).trees);
    rest := Terminator(p, form, unterminatedMsg);
    AddsOn(p.stack, run, old(p.stack), before, rest);

    // A closing delimiter that does not close this sequence closes an enclosing one.
    if p.pos == start {
      if form.ket != EOF && (p.At(RIGHT_CURLY) || p.At(RIGHT_PAREN) || p.At(RIGHT_SQUARE)) {
        return true, rest;
      }
      ghost var terminated := p.stack;
      p.ErrAndBump(expectedErrorMsg);
      ghost var kid :| p.stack == AppendKids(terminated, [kid]);
      AddsOne(terminated, kid);
      AddsOn(p.stack, terminated, old(p.stack), before + rest, [kid.tree]);
      assert before + rest + [kid.tree] == before + (rest + [kid.tree]);
      BlamesMore(rest, [kid.tree], unterminatedMsg);
      rest := rest + [kid.tree];
    }
    return false, rest;
  }

  lemma BlamesNode(t: Tree, message: string)
    requires t.Node? && t.kind == ERROR && t.children != [] && t.children[0] == Leaf(Error(message))
    ensures Blames([t], message)
  {
  }

  lemma BlamesLeaf(message: string)
    ensures Blames([Leaf(Error(message))], message)
  {
  }

  lemma BlamesMore(ts: seq<Tree>, us: seq<Tree>, message: string)
    ensures Blames(ts, message) ==> Blames(ts + us, message)
  {
  }

  /**
   The trees of the members from here on, if all is in order: every member that is reached can be
   run, consumes something, and stops where an element may end.
   */
  ghost function Members(member: Rule, inp: seq<SyntaxKind>, pos: nat, form: Form): (r: Option<Built>)
    requires IsRule(member)
    ensures r.Some? ==> IsEnd(inp, r.value.pos, form.ket)
    decreases |inp| - pos
  {
    if IsEnd(inp, pos, form.ket) then
      Some(Built([], pos))
    else
      var b := BuiltBy(member, inp, Announced(inp, pos, form));
      var next := Terminated(inp, b.pos, form);
      if StartsMember(inp, pos, form) && pos < b.pos && EndsElement(inp, b.pos, form) then
        match Members(member, inp, next, form)
        case None => None
        case Some(more) => Some(Built(Round(inp, pos, form, b.trees, Leaves(inp, b.pos, next)) + more.trees, more.pos))
      else
        None
  }

  /** Where the first member may start: an annotated sequence may begin with ends of lines. */
  function Begun(inp: seq<SyntaxKind>, pos: nat, form: Form): (end: nat)
    ensures pos <= end
  {
    if form.annotated then Past(inp, pos, EOL)
    else if KindAt(inp, pos) != EOF && KindAt(inp, pos) in {form.delim, EOL} then pos + 1
    else pos
  }

  /** Ends of lines before the first member, or the one terminator that a plain sequence may consist of. */
  method Begin(p: Parser, form: Form, unterminatedMsg: string) returns (ghost ts: seq<Tree>)
    requires p.Valid() && p.Tracks() && form.IsForm()
    modifies p
    ensures p.Valid() && p.Tracks() && p.pos == Begun(p.inp, old(p.pos), form)
    ensures Adds(p.stack, old(p.stack), ts)
    ensures if form.annotated || p.pos == old(p.pos) || AtEnd(p, form.ket) then
              ts == Leaves(p.inp, old(p.pos), p.pos)
            else
              ts == Leaves(p.inp, old(p.pos), p.pos) + [Leaf(Error(unterminatedMsg))]
  {
    hide Parser.Valid, Parser.Tracks, Adds, Leaves;
    ghost var events := |p.events|;
    AddsNothing(p.stack);
    LeavesJoin(p.inp, p.pos, p.pos, p.pos);
    if form.annotated {
      BumpAll(p, EOL);
    } else if p.At(form.delim) || p.At(EOL) {
      p.BumpAny();
      AddsOneLeaf(p.inp, p.stack, old(p.stack), old(p.stack), old(p.pos), old(p.pos), events);
      if !AtEnd(p, form.ket) {
        ghost var kid, mid := Kid(Leaf(Error(unterminatedMsg)), |p.events|, None), p.stack;
        ghost var first := Leaves(p.inp, old(p.pos), p.pos);
        p.Error(unterminatedMsg);
        AddsOne(mid, kid);
        AddsOn(p.stack, mid, old(p.stack), first, [kid.tree]);
        return first + [kid.tree];
      }
    }
    return Leaves(p.inp, old(p.pos), p.pos);
  }

  /** The whole of a sequence, if all is in order. A plain one with a leading terminator is empty. */
  ghost function Sequence(member: Rule, inp: seq<SyntaxKind>, pos: nat, form: Form): (r: Option<Built>)
    requires IsRule(member)
    ensures r.Some? ==> IsEnd(inp, r.value.pos, form.ket)
  {
    var begun := Begun(inp, pos, form);
    if !form.annotated && pos < begun && !IsEnd(inp, begun, form.ket) then
      None
    else
      match Members(member, inp, begun, form)
      case None => None
      case Some(all) => Some(Built(Leaves(inp, pos, begun) + all.trees, all.pos))
  }

  /**
   The members up to `ket`. Every iteration consumes input, so the loop ends: at `ket`, at the end
   of the input, or at a delimiter that closes an enclosing construct. If all is in order, the trees
   of the members are added one after the other, with nothing but annotations and terminators.
   */
  method ElementSequence(p: Parser, member: Rule, form: Form, expectedErrorMsg: string)
    requires p.Valid() && p.Tracks() && IsRule(member)
    requires form.IsForm()
    modifies p
    ensures p.Valid() && p.Tracks() && old(p.pos) <= p.pos
    ensures Grows(p.stack, old(p.stack))
    ensures AtEnd(p, form.ket) || (form.ket != EOF && IsKet(p.Nth(0)))
    ensures var all := Sequence(member, p.inp, old(p.pos), form);
            all.Some? ==> p.pos == all.value.pos && Adds(p.stack, old(p.stack), all.value.trees)
  {
    hide Parser.Valid, Parser.Tracks, IsRule, BuiltBy, Adds, Leaves, Blames, Terminated, Announced, StartsMember, EndsElement, Round, Members,
         Sequence, Past;
    var unterminatedMsg := if form.ket == EOF then "unexpected token" else ClosingText(form.ket) + " expected";
    ghost var ts := Begin(p, form, unterminatedMsg);
    ghost var all := Sequence(member, p.inp, old(p.pos), form);
    SequenceBegins(member, p.inp, old(p.pos), form);
    while !AtEnd(p, form.ket)
      invariant p.Valid() && p.Tracks() && old(p.pos) <= p.pos
      invariant Adds(p.stack, old(p.stack), ts)
      invariant all.Some? ==> IsOnTrack(all.value, ts, Members(member, p.inp, p.pos, form))
      decreases |p.inp| - p.pos
    {
      ghost var mid, pos := p.stack, p.pos;
      var stop, rest := Element(p, member, form, expectedErrorMsg, unterminatedMsg);
      ghost var b := BuiltBy(member, p.inp, Announced(p.inp, pos, form));
      ghost var us :| Adds(p.stack, mid, us) && (StartsMember(p.inp, pos, form) ==> us == Round(p.inp, pos, form, b.trees, rest));
      AddsOn(p.stack, mid, old(p.stack), ts, us);
      if all.Some? {
        NextMember(member, p.inp, pos, form, all.value, ts);
      }
      ts := ts + us;
      if stop {
        break;
      }
    }
    AddsMeansGrows(p.stack, old(p.stack), ts);
    if all.Some? {
      NoMoreMembers(member, p.inp, p.pos, form, all.value, ts);
    }
  }

  /** Whether what was built and what is to come make up the whole. */
  predicate IsOnTrack(all: Built, ts: seq<Tree>, more: Option<Built>) {
    more.Some? && more.value.pos == all.pos && all.trees == ts + more.value.trees
  }

  lemma SequenceBegins(member: Rule, inp: seq<SyntaxKind>, pos: nat, form: Form)
    requires IsRule(member)
    ensures var all, begun := Sequence(member, inp, pos, form), Begun(inp, pos, form);
            all.Some? ==>
              && (form.annotated || pos == begun || IsEnd(inp, begun, form.ket))
              && IsOnTrack(all.value, Leaves(inp, pos, begun), Members(member, inp, begun, form))
  {
    hide Members, IsRule, Leaves;
  }

  lemma NextMember(member: Rule, inp: seq<SyntaxKind>, pos: nat, form: Form, all: Built, ts: seq<Tree>)
    requires IsRule(member) && !IsEnd(inp, pos, form.ket) && IsOnTrack(all, ts, Members(member, inp, pos, form))
    ensures var b := BuiltBy(member, inp, Announced(inp, pos, form));
            var next := Terminated(inp, b.pos, form);
            && StartsMember(inp, pos, form) && pos < b.pos && EndsElement(inp, b.pos, form)
            && IsOnTrack(all, ts + Round(inp, pos, form, b.trees, Leaves(inp, b.pos, next)), Members(member, inp, next, form))
  {
    hide IsRule, Leaves, BuiltBy, Terminated, Announced, StartsMember, EndsElement, Round;
    var b := BuiltBy(member, inp, Announced(inp, pos, form));
    var next := Terminated(inp, b.pos, form);
    var us, later := Round(inp, pos, form, b.trees, Leaves(inp, b.pos, next)), Members(member, inp, next, form);
    assert ts + (us + later.value.trees) == ts + us + later.value.trees;
  }

  lemma NoMoreMembers(member: Rule, inp: seq<SyntaxKind>, pos: nat, form: Form, all: Built, ts: seq<Tree>)
    requires IsRule(member) && IsOnTrack(all, ts, Members(member, inp, pos, form)) && IsEnd(inp, pos, form.ket)
    ensures all == Built(ts, pos)
  {
    assert ts + [] == ts;
  }

  // ---- Errors of a sequence ----------------------------------------------------------------

  /** The errors and error nodes in a tree. */
  function Faults(t: Tree): nat
    decreases t, 0
  {
    match t
    case Leaf(step) => if step.Token? then 0 else 1
    case Node(kind, children) => (if kind == ERROR then 1 else 0) + FaultsAll(children)
  }

  function FaultsAll(ts: seq<Tree>): nat
    decreases ts
  {
    if ts == [] then 0 else Faults(ts[0]) + FaultsAll(ts[1..])
  }

  lemma {:induction false} FaultsConcat(a: seq<Tree>, b: seq<Tree>)
    ensures FaultsAll(a + b) == FaultsAll(a) + FaultsAll(b)
  {
    if a == [] {
      assert a + b == b;
    } else {
      assert (a + b)[1..] == a[1..] + b;
      FaultsConcat(a[1..], b);
    }
  }

  lemma {:induction false} LeavesHaveNoFaults(inp: seq<SyntaxKind>, start: nat, end: nat)
    ensures FaultsAll(Leaves(inp, start, end)) == 0
    decreases end - start
  {
    if start < end {
      LeavesJoin(inp, start, start + 1, end);
      LeavesHaveNoFaults(inp, start + 1, end);
      FaultsConcat(Leaves(inp, start, start + 1), Leaves(inp, start + 1, end));
      assert [Leaf(Token(KindAt(inp, start), 1))][1..] == [];
    }
  }

  /** The faults in the trees of the members alone. */
  ghost function MemberFaults(member: Rule, inp: seq<SyntaxKind>, pos: nat, form: Form): nat
    requires IsRule(member)
    decreases |inp| - pos
  {
    var b := BuiltBy(member, inp, Announced(inp, pos, form));
    if IsEnd(inp, pos, form.ket) || b.pos <= pos then
      0
    else
      FaultsAll(b.trees) + MemberFaults(member, inp, Terminated(inp, b.pos, form), form)
  }

  /** If all is in order, a sequence has the faults of its members and none of its own. */
  lemma {:induction false} MembersAddNoFaults(member: Rule, inp: seq<SyntaxKind>, pos: nat, form: Form)
    requires IsRule(member)
    ensures var all := Members(member, inp, pos, form);
            all.Some? ==> FaultsAll(all.value.trees) == MemberFaults(member, inp, pos, form)
    decreases |inp| - pos
  {
    hide IsRule, BuiltBy, Announced, StartsMember, EndsElement, Leaves, FaultsAll;
    if Members(member, inp, pos, form).Some? && !IsEnd(inp, pos, form.ket) {
      var b := BuiltBy(member, inp, Announced(inp, pos, form));
      var next := Terminated(inp, b.pos, form);
      var before, after := Leaves(inp, pos, Announced(inp, pos, form)), Leaves(inp, b.pos, next);
      MembersAddNoFaults(member, inp, next, form);
      LeavesHaveNoFaults(inp, pos, Announced(inp, pos, form));
      LeavesHaveNoFaults(inp, b.pos, next);
      FaultsConcat(before, b.trees);
      FaultsConcat(before + b.trees, after);
      FaultsConcat(before + b.trees + after, Members(member, inp, next, form).value.trees);
    } else {
      NoTreesNoFaults();
    }
  }

  lemma NoTreesNoFaults()
    ensures FaultsAll([]) == 0
  {
  }

  /** If all is in order, the whole sequence has the faults of its members and none of its own. */
  lemma SequenceAddsNoFaults(member: Rule, inp: seq<SyntaxKind>, pos: nat, form: Form)
    requires IsRule(member)
    ensures var all := Sequence(member, inp, pos, form);
            all.Some? ==> FaultsAll(all.value.trees) == MemberFaults(member, inp, Begun(inp, pos, form), form)
  {
    hide IsRule, Leaves, FaultsAll, Members, MemberFaults;
    var all := Sequence(member, inp, pos, form);
    if all.Some? {
      var begun := Begun(inp, pos, form);
      MembersAddNoFaults(member, inp, begun, form);
      LeavesHaveNoFaults(inp, pos, begun);
      FaultsConcat(Leaves(inp, pos, begun), Members(member, inp, begun, form).value.trees);
    }
  }

  lemma AddsMeansGrows(s: Stack, before: Stack, ts: seq<Tree>)
    requires Adds(s, before, ts)
    ensures Grows(s, before)
  {
  }

  method MemberList(p: Parser, bra: SyntaxKind, member: Rule, form: Form, listKind: SyntaxKind, expectedErrorMsg: string)
    requires p.Valid() && p.Tracks() && IsRule(member) && p.At(bra)
    requires form.IsForm() && form.ket != EOF && bra != EOF && listKind != TOMBSTONE
    modifies p
    ensures p.Valid() && p.Tracks() && old(p.pos) < p.pos
    ensures exists kid :: p.stack == AppendKids(old(p.stack), [kid]) && IsList(kid.tree, member, p.inp, old(p.pos), form, listKind)
  {
    hide Parser.Valid, Parser.Tracks, IsRule, Sequence, Adds, Trees;
    ghost var pos := p.pos;
    var m := p.StartMarker();
    ghost var empty, events := p.stack, |p.events|;
    p.Bump(bra);
    AddsOne(empty, Kid(Leaf(Token(bra, 1)), events, None));
    ghost var begun := p.stack;
    ElementSequence(p, member, form, expectedErrorMsg);
    ghost var inner, end := p.stack, p.pos;
    events := |p.events|;
    var found := p.Expect(form.ket);
    AddsOne(inner, Kid(Leaf(if found then Token(form.ket, 1) else Expected(form.ket)), events, None));
    ghost var all := Sequence(member, p.inp, pos + 1, form);
    if all.Some? {
      AddsOn(inner, begun, empty, [Leaf(Token(bra, 1))], all.value.trees);
      AddsOn(p.stack, inner, empty, [Leaf(Token(bra, 1))] + all.value.trees,
             [Leaf(if found then Token(form.ket, 1) else Expected(form.ket))]);
      AddsToNothing(p.stack, empty, [Leaf(Token(bra, 1))] + all.value.trees + [Leaf(if found then Token(form.ket, 1) else Expected(form.ket))]);
    }
    var _ := p.Complete(m, listKind);
  }

  lemma AddsToNothing(s: Stack, before: Stack, ts: seq<Tree>)
    requires Adds(s, before, ts) && before.kids == []
    ensures Trees(s.kids) == ts
  {
  }

  /** A list: if all is in order, its delimiters around the trees of its members. */
  ghost predicate IsList(t: Tree, member: Rule, inp: seq<SyntaxKind>, pos: nat, form: Form, listKind: SyntaxKind)
    requires IsRule(member)
  {
    && t.Node? && t.kind == listKind
    && var all := Sequence(member, inp, pos + 1, form);
       all.Some? ==>
         t.children == [Leaf(Token(KindAt(inp, pos), 1))] + all.value.trees
                       + [Leaf(if KindAt(inp, all.value.pos) == form.ket then Token(form.ket, 1) else Expected(form.ket))]
  }

  /** A whole file: the members make up one root node, and all the input is consumed. If all is in
      order, the root holds the trees of the members, with annotations and terminators. */
  method Entry(p: Parser, member: Rule, form: Form, expectedErrorMsg: string)
    requires p.Valid() && p.Tracks() && IsRule(member) && form.IsForm() && form.ket == EOF
    requires p.pos == 0 && p.stack == Base([]) && EOF !in p.inp
    modifies p
    ensures p.Valid() && p.pos == |p.inp|
    ensures exists root: Kid :: p.stack == Base([root]) && IsFile(root.tree, member, p.inp, form)
    ensures TokensIn(WalkStack(p.stack)) == p.inp && OneAtATime(WalkStack(p.stack))
  {
    hide Denotes, IsRule, TokensIn, WalkStack, Sequence, Adds;
    var m := p.StartMarker();
    ghost var empty := p.stack;
    ElementSequence(p, member, form, expectedErrorMsg);
    ghost var all := Sequence(member, p.inp, 0, form);
    if all.Some? {
      AddsToNothing(p.stack, empty, all.value.trees);
    }
    var _ := p.Complete(m, ROOT);
    assert p.inp[..|p.inp|] == p.inp;
  }

  ghost predicate IsFile(t: Tree, member: Rule, inp: seq<SyntaxKind>, form: Form)
    requires IsRule(member)
  {
    && t.Node? && t.kind == ROOT
    && var all := Sequence(member, inp, 0, form); all.Some? ==> t.children == all.value.trees
  }
}
