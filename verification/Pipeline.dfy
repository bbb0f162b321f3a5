/** Building the syntax tree from a replay (fpp_lsp_parser/src/syntax_node.rs:48-66). */
module GreenTree {
  import opened Wrappers
  import opened Syntax
  import opened Trivia
  import opened ParseTree
  import opened Lossless

  datatype Green = GreenNode(kind: SyntaxKind, children: seq<Green>) | GreenToken(kind: SyntaxKind, text: string)

  /** A node that has been started and not yet finished. */
  datatype Frame = Frame(kind: SyntaxKind, children: seq<Green>)

  /** The source text under a tree. */
  function GreenText(g: Green): string
    decreases g, 0
  {
    match g
    case GreenToken(_, text) => text
    case GreenNode(_, children) => GreenTexts(children)
  }

  function GreenTexts(gs: seq<Green>): string
    decreases gs
  {
    if gs == [] then "" else GreenTexts(gs[..|gs| - 1]) + GreenText(gs[|gs| - 1])
  }

  function OpenText(open: seq<Frame>): string {
    if open == [] then "" else OpenText(open[..|open| - 1]) + GreenTexts(open[|open| - 1].children)
  }

  /** Add a finished child to the innermost open node. */
  function AddChild(open: seq<Frame>, g: Green): seq<Frame>
    requires open != []
  {
    var top := open[|open| - 1];
    open[..|open| - 1] + [Frame(top.kind, top.children + [g])]
  }

  /** The tree that the steps build, if they build exactly one. */
  function Build(trace: seq<StrStep>, open: seq<Frame>): Option<Green> {
    if trace == [] then
      None
    else
      var rest := trace[1..];
      match trace[0]
      case StrEnter(kind) => Build(rest, open + [Frame(kind, [])])
      case StrToken(kind, text) => if open == [] then None else Build(rest, AddChild(open, GreenToken(kind, text)))
      case StrExit =>
        if open == [] then
          None
        else
          if 1 < |open| then
            Build(rest, Finish(open))
          else if rest == [] then
            Some(GreenNode(open[0].kind, open[0].children))
          else
            None
      case _ => Build(rest, open)
  }

  lemma OpenTextAddChild(open: seq<Frame>, g: Green)
    requires open != []
    ensures OpenText(AddChild(open, g)) == OpenText(open) + GreenText(g)
  {
    var init, top := open[..|open| - 1], open[|open| - 1];
    assert AddChild(open, g)[..|open| - 1] == init;
    assert (top.children + [g])[..|top.children|] == top.children;
    assert OpenText(init) + (GreenTexts(top.children) + GreenText(g))
        == OpenText(init) + GreenTexts(top.children) + GreenText(g);
  }

  lemma OpenTextPush(open: seq<Frame>, f: Frame)
    ensures OpenText(open + [f]) == OpenText(open) + GreenTexts(f.children)
  {
    assert (open + [f])[..|open|] == open;
  }

  /** What finishing the innermost open node does to the open nodes. */
  function Finish(open: seq<Frame>): seq<Frame>
    requires 1 < |open|
  {
    var top := open[|open| - 1];
    AddChild(open[..|open| - 1], GreenNode(top.kind, top.children))
  }

  lemma FinishText(open: seq<Frame>)
    requires 1 < |open|
    ensures OpenText(Finish(open)) == OpenText(open)
  {
    hide GreenTexts;
    var init, top := open[..|open| - 1], open[|open| - 1];
    OpenTextAddChild(init, GreenNode(top.kind, top.children));
    NodeText(top.kind, top.children);
  }

  /** A tree that was built holds the text of all the tokens. */
  lemma {:induction false} BuildKeepsText(trace: seq<StrStep>, open: seq<Frame>)
    requires Build(trace, open).Some?
    ensures GreenText(Build(trace, open).value) == OpenText(open) + TextOf(trace)
    decreases |trace|
  {
    hide OpenText, GreenText, GreenTexts, AddChild, TextOf;
    var rest := trace[1..];
    FirstText(trace);
    match trace[0]
    case StrEnter(kind) =>
      OpenTextPush(open, Frame(kind, []));
      EmptyTexts();
      BuildKeepsText(rest, open + [Frame(kind, [])]);
    case StrToken(kind, text) =>
      OpenTextAddChild(open, GreenToken(kind, text));
      TokenText(kind, text);
      BuildKeepsText(rest, AddChild(open, GreenToken(kind, text)));
    case StrExit =>
      if 1 < |open| {
        FinishText(open);
        BuildKeepsText(rest, Finish(open));
      } else {
        assert open == [open[0]];
        LastText(open[0]);
      }
    case _ =>
      BuildKeepsText(rest, open);
  }

  // ---- The steps of a tree --------------------------------------------------------

  /** The steps that build a tree. */
  function StepsOf(g: Green): seq<StrStep>
    decreases g, 0
  {
    match g
    case GreenToken(kind, text) => [StrToken(kind, text)]
    case GreenNode(kind, children) => [StrEnter(kind)] + StepsOfAll(children) + [StrExit]
  }

  function StepsOfAll(gs: seq<Green>): seq<StrStep>
    decreases gs
  {
    if gs == [] then [] else StepsOfAll(gs[..|gs| - 1]) + StepsOf(gs[|gs| - 1])
  }

  function OpenSteps(open: seq<Frame>): seq<StrStep> {
    if open == [] then
      []
    else
      var top := open[|open| - 1];
      OpenSteps(open[..|open| - 1]) + ([StrEnter(top.kind)] + StepsOfAll(top.children))
  }

  /** The steps without errors. */
  function Structure(trace: seq<StrStep>): seq<StrStep> {
    if trace == [] then
      []
    else
      (if trace[0].StrError? || trace[0].StrExpected? then [] else [trace[0]]) + Structure(trace[1..])
  }

  lemma OpenStepsPush(open: seq<Frame>, kind: SyntaxKind)
    ensures OpenSteps(open + [Frame(kind, [])]) == OpenSteps(open) + [StrEnter(kind)]
    ensures OpenSteps([]) == []
  {
    assert (open + [Frame(kind, [])])[..|open|] == open;
    assert [StrEnter(kind)] + [] == [StrEnter(kind)];
  }

  lemma OpenStepsAdd(open: seq<Frame>, g: Green)
    requires open != []
    ensures OpenSteps(AddChild(open, g)) == OpenSteps(open) + StepsOf(g)
  {
    var init, top := open[..|open| - 1], open[|open| - 1];
    assert AddChild(open, g)[..|open| - 1] == init;
    assert (top.children + [g])[..|top.children|] == top.children;
    Associates(OpenSteps(init), [StrEnter(top.kind)] + StepsOfAll(top.children), StepsOf(g));
    Associates([StrEnter(top.kind)], StepsOfAll(top.children), StepsOf(g));
  }

  lemma Associates<T>(a: seq<T>, b: seq<T>, c: seq<T>)
    ensures a + b + c == a + (b + c)
  {
  }

  lemma OpenStepsFinish(open: seq<Frame>)
    requires open != []
    ensures 1 < |open| ==> OpenSteps(Finish(open)) == OpenSteps(open) + [StrExit]
    ensures |open| == 1 ==> StepsOf(GreenNode(open[0].kind, open[0].children)) == OpenSteps(open) + [StrExit]
  {
    hide StepsOfAll;
    var init, top := open[..|open| - 1], open[|open| - 1];
    if 1 < |open| {
      OpenStepsAdd(init, GreenNode(top.kind, top.children));
      Associates(OpenSteps(init), [StrEnter(top.kind)] + StepsOfAll(top.children), [StrExit]);
    } else {
      assert open[..0] == [] && OpenSteps([]) == [];
      assert [] + ([StrEnter(top.kind)] + StepsOfAll(top.children)) == [StrEnter(top.kind)] + StepsOfAll(top.children);
    }
  }

  lemma StructureStep(trace: seq<StrStep>)
    requires trace != []
    ensures var first := trace[0];
            && (first.StrError? || first.StrExpected? ==> Structure(trace) == Structure(trace[1..]))
            && (!first.StrError? && !first.StrExpected? ==>
                  forall steps :: steps + Structure(trace) == steps + [first] + Structure(trace[1..]))
    ensures trace[1..] == [] ==> Structure(trace[1..]) == []
    ensures forall steps: seq<StrStep> :: steps + [] == steps
  {
    forall steps: seq<StrStep>
      ensures steps + ([trace[0]] + Structure(trace[1..])) == steps + [trace[0]] + Structure(trace[1..])
    {
      Associates(steps, [trace[0]], Structure(trace[1..]));
    }
  }

  /** Walking a tree that was built gives back the steps that built it, without errors. */
  lemma {:induction false} BuildKeepsSteps(trace: seq<StrStep>, open: seq<Frame>)
    requires Build(trace, open).Some?
    ensures StepsOf(Build(trace, open).value) == OpenSteps(open) + Structure(trace)
    decreases |trace|
  {
    hide OpenSteps, StepsOf, StepsOfAll, AddChild, Structure, Finish;
    var rest := trace[1..];
    StructureStep(trace);
    match trace[0]
    case StrEnter(kind) =>
      OpenStepsPush(open, kind);
      BuildKeepsSteps(rest, open + [Frame(kind, [])]);
    case StrToken(kind, text) =>
      OpenStepsAdd(open, GreenToken(kind, text));
      OneStep(kind, text);
      BuildKeepsSteps(rest, AddChild(open, GreenToken(kind, text)));
    case StrExit =>
      OpenStepsFinish(open);
      if 1 < |open| {
        BuildKeepsSteps(rest, Finish(open));
      }
    case _ =>
      BuildKeepsSteps(rest, open);
  }

  lemma OneStep(kind: SyntaxKind, text: string)
    ensures StepsOf(GreenToken(kind, text)) == [StrToken(kind, text)]
  {
  }

  lemma FirstText(trace: seq<StrStep>)
    requires trace != []
    ensures !trace[0].StrToken? ==> TextOf(trace) == TextOf(trace[1..])
    ensures trace[0].StrToken? ==> forall s :: s + TextOf(trace) == s + trace[0].text + TextOf(trace[1..])
    ensures trace[1..] == [] ==> TextOf(trace[1..]) == ""
  {
  }

  lemma LastText(f: Frame)
    ensures GreenText(GreenNode(f.kind, f.children)) == OpenText([f])
  {
    assert [f][..0] == [];
  }

  lemma EmptyTexts()
    ensures GreenTexts([]) == "" && OpenText([]) == ""
  {
  }

  lemma TokenText(kind: SyntaxKind, text: string)
    ensures GreenText(GreenToken(kind, text)) == text
  {
  }

  lemma NodeText(kind: SyntaxKind, children: seq<Green>)
    ensures GreenText(GreenNode(kind, children)) == GreenTexts(children)
  {
  }

  // ---- One tree -----------------------------------------------------------------

  /** Whether the steps, with `depth` nodes open, close them all at their very end. */
  predicate Balanced(steps: seq<Step>, depth: nat) {
    && steps != []
    && var rest := steps[1..];
       match steps[0]
       case Enter(_) => Balanced(rest, depth + 1)
       case Exit => 0 < depth && if depth == 1 then rest == [] else Balanced(rest, depth - 1)
       case _ => 0 < depth && Balanced(rest, depth)
  }

  lemma {:induction false} WalkIsBalanced(t: Tree, rest: seq<Step>, depth: nat)
    requires 0 < depth && Balanced(rest, depth)
    ensures Balanced(Walk(t) + rest, depth)
    decreases t, 0
  {
    match t
    case Leaf(step) =>
      assert (Walk(t) + rest)[1..] == rest;
    case Node(kind, children) =>
      var inside := [Step.Exit] + rest;
      assert inside[1..] == rest;
      WalkAllIsBalanced(children, inside, depth + 1);
      assert (Walk(t) + rest)[1..] == WalkAll(children) + inside;
  }

  lemma {:induction false} WalkAllIsBalanced(ts: seq<Tree>, rest: seq<Step>, depth: nat)
    requires 0 < depth && Balanced(rest, depth)
    ensures Balanced(WalkAll(ts) + rest, depth)
    decreases ts
  {
    if ts == [] {
      assert WalkAll(ts) + rest == rest;
    } else {
      var init, last := ts[..|ts| - 1], ts[|ts| - 1];
      WalkIsBalanced(last, rest, depth);
      WalkAllIsBalanced(init, Walk(last) + rest, depth);
      assert WalkAll(ts) + rest == WalkAll(init) + (Walk(last) + rest);
    }
  }

  /** The walk of one node closes it at its very end. */
  lemma RootIsBalanced(root: Tree)
    requires root.Node?
    ensures Balanced(Walk(root), 0)
  {
    WalkAllIsBalanced(root.children, [Step.Exit], 1);
    assert Walk(root)[1..] == WalkAll(root.children) + [Step.Exit];
  }

  lemma {:induction false} SkeletonOfExits(lx: LexedStr, trace: seq<StrStep>, pos: nat, left: nat)
    requires lx.Valid() && trace != [] && trace[|trace| - 1].StrExit?
    ensures Skeleton(lx, trace, pos, left) != []
    decreases |trace|
  {
    hide RegionAt;
    if trace[0].StrToken? {
      SkeletonOfExits(lx, trace[1..], pos + 1, 0);
      if 0 < left {
        SkeletonOfExits(lx, trace[1..], pos + 1, left - 1);
      }
    }
  }

  /** A replay of balanced steps builds one tree. */
  lemma {:induction false} BalancedBuilds(lx: LexedStr, trace: seq<StrStep>, pos: nat, left: nat, open: seq<Frame>)
    requires lx.Valid() && open != [] && trace != [] && trace[|trace| - 1].StrExit?
    requires Balanced(Skeleton(lx, trace, pos, left), |open|)
    ensures Build(trace, open).Some?
    ensures var root := Build(trace, open).value; root.GreenNode? && root.kind == open[0].kind
    decreases |trace|
  {
    hide RegionAt;
    var rest := trace[1..];
    match trace[0]
    case StrEnter(kind) =>
      assert Skeleton(lx, trace, pos, left)[1..] == Skeleton(lx, rest, pos, left);
      BalancedBuilds(lx, rest, pos, left, open + [Frame(kind, [])]);
    case StrToken(kind, text) =>
      var open' := AddChild(open, GreenToken(kind, text));
      if 0 < left {
        BalancedBuilds(lx, rest, pos + 1, left - 1, open');
      } else if pos < lx.Len() && !RegionAt(lx, pos).Remove? {
        var left' := RegionEnd(pos, RegionAt(lx, pos)) - pos - 1;
        assert Skeleton(lx, trace, pos, left)[1..] == Skeleton(lx, rest, pos + 1, left');
        BalancedBuilds(lx, rest, pos + 1, left', open');
      } else {
        BalancedBuilds(lx, rest, pos + 1, 0, open');
      }
    case StrExit =>
      assert Skeleton(lx, trace, pos, left)[1..] == Skeleton(lx, rest, pos, left);
      if 1 < |open| {
        BalancedBuilds(lx, rest, pos, left, Finish(open));
      } else if rest != [] {
        SkeletonOfExits(lx, rest, pos, left);
      }
    case _ =>
      assert Skeleton(lx, trace, pos, left)[1..] == Skeleton(lx, rest, pos, left);
      BalancedBuilds(lx, rest, pos, left, open);
  }
}

/**
 From text to tree and back (fpp_lsp_parser/src/lib.rs:79-143): whatever the members of the
 grammar are, the tree is one node that holds the whole source.
 */
module Pipeline {
  import opened Wrappers
  import opened Syntax
  import opened Packing
  import opened ParseTree
  import opened Events
  import opened Markers
  import opened Parsing
  import opened Grammar
  import opened Trivia
  import opened Replay
  import opened Lossless
  import opened GreenTree
  import LexedText
  import LexLaws
  import LogicalText
  import Utf8

  lemma {:induction false} InputHasNoEof(lx: LexedStr, i: nat)
    requires lx.Valid() && i <= lx.Len() && EOF !in lx.kinds[..lx.Len()]
    ensures EOF !in InputFrom(lx, i)
    decreases lx.Len() - i
  {
    hide RegionAt;
    if i < lx.Len() {
      RegionKind(lx, i);
      InputHasNoEof(lx, RegionEnd(i, RegionAt(lx, i)));
    }
  }

  lemma RegionKind(lx: LexedStr, i: nat)
    requires lx.Valid() && i < lx.Len() && EOF !in lx.kinds[..lx.Len()]
    ensures var t := RegionAt(lx, i); !t.Remove? ==> t.kind != EOF
  {
    hide LexedStr.RangeText, Ascending;
    assert lx.Kind(i) == lx.kinds[..lx.Len()][i];
  }

  lemma TokensInSnoc(steps: seq<Step>, step: Step)
    ensures TokensIn(steps + [step]) == TokensIn(steps) + if step.Token? then [step.kind] else []
  {
    assert (steps + [step])[..|steps|] == steps;
  }

  lemma ConcatAssociates(a: seq<SyntaxKind>, b: seq<SyntaxKind>, c: seq<SyntaxKind>)
    ensures a + b + c == a + (b + c)
  {
  }

  lemma {:induction false} TokenKindsAre(steps: seq<Step>, i: nat)
    requires i <= |steps|
    ensures TokensIn(steps[..i]) + TokenKinds(steps, i) == TokensIn(steps)
    decreases |steps| - i
  {
    hide TokensIn;
    if i == |steps| {
      assert steps[..i] == steps;
    } else {
      var own: seq<SyntaxKind> := if steps[i].Token? then [steps[i].kind] else [];
      TokenKindsAre(steps, i + 1);
      TokensInSnoc(steps[..i], steps[i]);
      assert steps[..i + 1] == steps[..i] + [steps[i]];
      ConcatAssociates(TokensIn(steps[..i]), own, TokenKinds(steps, i + 1));
    }
  }

  lemma {:induction false} TokensOfReadBack(steps: seq<Step>)
    ensures TokensIn(ReadBack(steps)) == TokensIn(steps)
  {
    if steps != [] {
      var init := steps[..|steps| - 1];
      TokensOfReadBack(init);
      ReadBackSnoc(init, steps[|steps| - 1]);
      assert init + [steps[|steps| - 1]] == steps;
      assert ReadBack(steps)[..|init|] == ReadBack(init);
    }
  }

  lemma {:induction false} ReadBackIsBalanced(steps: seq<Step>, steps': seq<Step>, depth: nat)
    requires Balanced(steps, depth) && |steps'| == |steps|
    requires forall i :: 0 <= i < |steps| && !steps[i].Error? ==> steps'[i] == steps[i]
    requires forall i :: 0 <= i < |steps| ==> (steps'[i].Error? <==> steps[i].Error?)
    ensures Balanced(steps', depth)
    decreases |steps|
  {
    var rest, rest' := steps[1..], steps'[1..];
    assert forall i :: 0 <= i < |rest| ==> rest[i] == steps[i + 1] && rest'[i] == steps'[i + 1];
    match steps[0]
    case Enter(_) => ReadBackIsBalanced(rest, rest', depth + 1);
    case Exit =>
      if depth != 1 {
        ReadBackIsBalanced(rest, rest', depth - 1);
      }
    case _ => ReadBackIsBalanced(rest, rest', depth);
  }

  /** The output of a finished parse can be replayed. */
  lemma OutputIsFramed(root: Tree, steps: seq<Step>)
    requires root.Node? && steps == ReadBack(Walk(root)) && OneAtATime(Walk(root))
    ensures IsFramed(steps) && TokenKinds(steps, 0) == TokensIn(Walk(root))
    ensures steps[0] == Enter(root.kind) && Balanced(steps, 0)
  {
    hide ReadBack, TokensIn, Balanced;
    TokenKindsAre(steps, 0);
    TokensOfReadBack(Walk(root));
    assert steps[..0] == [];
    assert TokensIn([]) == [] by { NoTokens(); }
    RootIsBalanced(root);
    ReadBackIsBalanced(Walk(root), steps, 0);
  }

  lemma NoTokens()
    ensures TokensIn([]) == []
  {
  }

  /** `TopEntryPoint::parse`, for any member rule. */
  method Parse(input: seq<SyntaxKind>, member: Rule, form: Form, expectedErrorMsg: string)
    returns (output: Output, ghost root: Tree)
    requires EOF !in input && IsRule(member) && form.IsForm() && form.ket == EOF
    ensures output.Valid() && output.Iter() == ReadBack(Walk(root))
    ensures IsFile(root, member, input, form)
    ensures TokensIn(Walk(root)) == input && OneAtATime(Walk(root))
  {
    hide Denotes, IsRule, TokensIn, Walk, IsFile;
    var p := new Parser(input);
    Entry(p, member, form, expectedErrorMsg);
    output := ProcessDenoted(p.events, p.source, p.stack);
    root := p.stack.kids[0].tree;
    TreesOne(p.stack.kids[0]);
    assert p.stack.kids == [p.stack.kids[0]];
  }

  /**
   Parse a text, for any member rule: the tree is parsed from what the parser sees of the tokens, the
   replay is that parse with trivia put in between, it spells out the source, and it builds one tree of
   kind `ROOT` that holds the source.
   */
  method ParseText(text: string, keywords: LexedText.Keywords, isIdentifierPart: char -> bool,
                   member: Rule, form: Form, expectedErrorMsg: string)
    returns (green: Option<Green>, isEof: bool, ghost lexed: LexedStr, ghost root: Tree, ghost sink: seq<StrStep>)
    requires Utf8.ByteLen(text) < LexedText.MAX_TEXT
    requires LexedText.AreKeywords(keywords) && IsRule(member) && form.IsForm() && form.ket == EOF
    ensures isEof
    ensures green.Some? && green.value.GreenNode? && green.value.kind == ROOT
    ensures GreenText(green.value) == text
    ensures lexed.Valid() && lexed.text == text
    ensures LexLaws.AreTokens(LogicalText.Logical(text), lexed.kinds[..lexed.Len()], keywords)
    ensures TextOf(sink) == text && StepsOf(green.value) == Structure(sink)
    ensures IsFile(root, member, Seen(lexed, 0), form)
    ensures Skeleton(lexed, sink, 0, 0) == ReadBack(Walk(root))
    ensures TokensIn(Walk(root)) == Seen(lexed, 0)
  {
    hide *;
    var lx, errors := LexedText.NewLexedStr(text, keywords, isIdentifierPart);
    var input := ToInput(lx);
    LexedHasNoEof(lx, text, keywords);
    LexLaws.TextIsTokens(LogicalText.Logical(text), keywords);
    InputHasNoEof(lx, 0);
    var output: Output;
    output, root := Parse(input, member, form, expectedErrorMsg);
    FileIsNode(root, member, input, form);
    var steps := output.Iter();
    OutputIsFramed(root, steps);
    var trace;
    trace, isEof := IntersperseTrivia(lx, steps);
    ReplayIsLossless(lx, steps);
    ReplayKeepsTree(lx, steps);
    ReplayBuilds(lx, steps, trace);
    green := Build(trace, []);
    lexed, sink := lx, trace;
  }

  lemma FileIsNode(root: Tree, member: Rule, input: seq<SyntaxKind>, form: Form)
    requires IsRule(member) && IsFile(root, member, input, form)
    ensures root.Node? && root.kind == ROOT
  {
  }

  lemma LexedHasNoEof(lx: LexedStr, text: string, keywords: LexedText.Keywords)
    requires lx.Valid() && LexedText.AreKeywords(keywords)
    requires lx.kinds == LexedText.KindsIn(LogicalText.Logical(text), keywords) + [EOF]
    ensures EOF !in lx.kinds[..lx.Len()]
    ensures lx.kinds[..lx.Len()] == LexedText.KindsIn(LogicalText.Logical(text), keywords)
  {
  }

  lemma ReplayBuilds(lx: LexedStr, steps: seq<Step>, trace: seq<StrStep>)
    requires lx.Valid() && IsFramed(steps) && Balanced(steps, 0)
    requires trace == ReplayAll(lx, steps) && Skeleton(lx, trace, 0, 0) == steps
    ensures Build(trace, []).Some?
    ensures var g := Build(trace, []).value;
            g.GreenNode? && g.kind == steps[0].kind && GreenText(g) == TextOf(trace) && StepsOf(g) == Structure(trace)
  {
    hide RegionAt, InputFrom, Replay.Replay, OpenText;
    LastIsExit(lx, steps, 1, 0);
    var rest := trace[1..];
    assert Skeleton(lx, trace, 0, 0)[1..] == Skeleton(lx, rest, 0, 0);
    BalancedBuilds(lx, rest, 0, 0, [Frame(steps[0].kind, [])]);
    assert [] + [Frame(steps[0].kind, [])] == [Frame(steps[0].kind, [])];
    EmptyTexts();
    BuildKeepsText(trace, []);
    BuildKeepsSteps(trace, []);
    assert [] + Structure(trace) == Structure(trace);
  }

  lemma {:induction false} LastIsExit(lx: LexedStr, steps: seq<Step>, i: nat, pos: nat)
    requires lx.Valid() && i < |steps| && pos <= lx.Len()
    ensures var trace := Replay.Replay(lx, steps, i, pos); trace != [] && trace[|trace| - 1] == StrExit
    decreases |steps| - i
  {
    hide StepTrace, StepEnd, Raw, RemovedEnd;
    if i < |steps| - 1 {
      LastIsExit(lx, steps, i + 1, StepEnd(lx, steps[i], pos));
    }
  }
}
