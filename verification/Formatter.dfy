/** The lowering of a syntax tree to a document (fpp_format/src/formatter.rs). */
module Formatting {
  import opened Wrappers
  import opened Docs
  import opened Flows
  import opened Lowering
  import opened TreeFlows

  // ---- Tokens and separators ----------------------------------------------------------------------

  function LowerToken(style: Style, parent: nat, t: Tree): (doc: Doc)
    requires t.Token?
    ensures Flow(doc) == TokenFlow(style, parent, t)
  {
    var anchor := style.anchor(parent, t.tokenKind);
    if anchor.Some? then AnchorAt(anchor.value, Text(t.text)) else Text(t.text)
  }

  function SepDoc(style: Style, prev: Tree, cur: Tree): Doc {
    if prev.Token? && IsLineSwallowing(prev.tokenKind) then Hard(false) else Text(style.flatSep(prev, cur))
  }

  lemma SepPrints(style: Style, prev: Tree, cur: Tree)
    ensures Flow(SepDoc(style, prev, cur)) == SepFlow(style, Some(prev), Some(cur))
  {
  }

  /** Some documents with a separator, if there is one, and another one behind them. */
  function Extended(style: Style, docs: seq<Doc>, prev: Option<Tree>, first: Option<Tree>, doc: Doc): seq<Doc> {
    docs + (if prev.Some? && first.Some? then [SepDoc(style, prev.value, first.value)] else []) + [doc]
  }

  lemma ExtendedPrints(style: Style, docs: seq<Doc>, prev: Option<Tree>, first: Option<Tree>, doc: Doc)
    ensures FlowAll(Extended(style, docs, prev, first, doc)) == FlowAll(docs) + (SepFlow(style, prev, first) + Flow(doc))
  {
    hide Flow, FlowAll, SepFlow, SepDoc;
    NoSeparator(style, prev, first);
    if prev.Some? && first.Some? {
      var sep := SepDoc(style, prev.value, first.value);
      SepPrints(style, prev.value, first.value);
      FlowSnoc(docs, sep);
      FlowSnoc(docs + [sep], doc);
      Regroup(FlowAll(docs), Flow(sep), Flow(doc));
    } else {
      assert docs + [] == docs;
      FlowSnoc(docs, doc);
      assert [] + Flow(doc) == Flow(doc);
    }
  }

  lemma NoSeparator(style: Style, prev: Option<Tree>, first: Option<Tree>)
    ensures prev.None? || first.None? ==> SepFlow(style, prev, first) == []
  {
  }

  // ---- Dispatch -----------------------------------------------------------------------------------

  method Lower(style: Style, n: Tree) returns (doc: Doc)
    requires n.Node?
    ensures Flow(doc) == FlowOf(style, n)
    decreases n, 3
  {
    hide Flow, ListFlow, ChoiceFlow, SpecFlow, RowFlow;
    if style.isMemberList(n.kind) {
      doc := LowerMemberList(style, n);
    } else if style.isChoice(n.kind) {
      doc := LowerChoice(style, n);
    } else if style.isExplodable(n.kind) {
      doc := LowerSpec(style, n);
    } else {
      doc := LowerInline(style, n);
    }
  }

  /** Everything on one line, apart from blocks inside. */
  method LowerInline(style: Style, n: Tree) returns (doc: Doc)
    requires n.Node?
    ensures Flow(doc) == RowFlow(style, n.kind, n.children)
    decreases n, 2
  {
    hide Flow, FlowAll, FlowOf, RowFlow, SepFlow, TokenFlow, SepDoc, LowerToken, LastTokenIn, FirstTokenIn, FirstToken, LastToken;
    var parts: seq<Doc>, prev: Option<Tree>, children := [], None, n.children;
    TokensSnoc([], n);
    NothingPrinted(style, n.kind);
    assert children[..0] == [];
    for i := 0 to |children|
      invariant prev == LastTokenIn(children[..i])
      invariant FlowAll(parts) == RowFlow(style, n.kind, children[..i])
    {
      var child := children[i];
      ghost var ts := children[..i];
      assert children[..i + 1] == ts + [child];
      TokensSnoc(ts, child);
      RowSnoc(style, n.kind, ts, child);
      if child.Token? {
        OwnToken(child);
        if IsTrivia(child.tokenKind) {
          continue;
        }
        ExtendedPrints(style, parts, prev, Some(child), LowerToken(style, n.kind, child));
        if prev.Some? {
          parts := parts + [SepDoc(style, prev.value, child)];
        } else {
          assert parts + [] == parts;
        }
        parts := parts + [LowerToken(style, n.kind, child)];
        prev := Some(child);
      } else {
        var first := FirstToken(child);
        var d := Lower(style, child);
        ExtendedPrints(style, parts, prev, first, d);
        ghost var before := parts;
        if prev.Some? && first.Some? {
          parts := parts + [SepDoc(style, prev.value, first.value)];
        } else {
          assert parts + [] == parts;
        }
        parts := parts + [d];
        if style.isEolSeparated(child.at) {
          CommaPrints(parts);
          Regroup(FlowAll(before), SepFlow(style, prev, first) + Flow(d), [Word(",")]);
          parts := parts + [Text(",")];
        }
        var last := LastToken(child);
        if last.Some? {
          prev := last;
        }
      }
    }
    assert children[..|children|] == children;
    doc := Concat(parts);
    ConcatPrints(parts);
  }

  lemma NothingPrinted(style: Style, kind: nat)
    ensures FlowAll([]) == [] && RowFlow(style, kind, []) == [] && SpecRow(style, kind, []) == []
  {
  }

  lemma RowSnoc(style: Style, kind: nat, ts: seq<Tree>, t: Tree)
    ensures RowFlow(style, kind, ts + [t])
         == RowFlow(style, kind, ts)
            + if IsTriviaToken(t) then [] else
                SepFlow(style, LastTokenIn(ts), FirstToken(t)) + ChildFlow(style, kind, t) + CommaFlow(style, t)
    ensures t.Token? ==> ChildFlow(style, kind, t) == TokenFlow(style, kind, t) && CommaFlow(style, t) == []
    ensures t.Node? ==> ChildFlow(style, kind, t) == FlowOf(style, t)
    ensures forall bits: seq<Bit> :: bits + [] == bits
  {
    hide FlowOf, SepFlow, TokenFlow, LastTokenIn, FirstToken;
    assert (ts + [t])[..|ts|] == ts;
  }

  lemma CommaPrints(docs: seq<Doc>)
    ensures FlowAll(docs + [Text(",")]) == FlowAll(docs) + [Word(",")]
  {
    hide FlowAll;
    FlowSnoc(docs, Text(","));
  }

  lemma ConcatPrints(docs: seq<Doc>)
    ensures Flow(Concat(docs)) == FlowAll(docs)
  {
  }

  lemma OwnToken(t: Tree)
    requires t.Token?
    ensures FirstToken(t) == LastToken(t) == if IsTrivia(t.tokenKind) then None else Some(t)
  {
  }

  // ---- Specifiers ---------------------------------------------------------------------------------

  /** The head and the clauses, each after a place for a continued line. */
  function Segmented(head: seq<Doc>, clauses: seq<seq<Doc>>): seq<Bit> {
    if clauses == [] then
      FlowAll(head)
    else
      Segmented(head, clauses[..|clauses| - 1]) + Shift([Gap(Some(" "), true, 0)] + FlowAll(clauses[|clauses| - 1]), 1)
  }

  function SinkOf(head: seq<Doc>, clauses: seq<seq<Doc>>): seq<Doc> {
    if clauses == [] then head else clauses[|clauses| - 1]
  }

  lemma NewClause(head: seq<Doc>, clauses: seq<seq<Doc>>)
    ensures Segmented(head, clauses + [[]]) == Segmented(head, clauses) + Shift([Gap(Some(" "), true, 0)], 1)
  {
    hide Flow, Shift;
    assert (clauses + [[]])[..|clauses|] == clauses;
    assert [Gap(Some(" "), true, 0)] + [] == [Gap(Some(" "), true, 0)];
  }

  /** The last part has grown. */
  lemma SinkGrows(head: seq<Doc>, clauses: seq<seq<Doc>>, sink: seq<Doc>, more: seq<Bit>)
    requires FlowAll(sink) == FlowAll(SinkOf(head, clauses)) + more
    ensures clauses == [] ==> Segmented(sink, []) == Segmented(head, []) + Shift(more, 0)
    ensures clauses != [] ==> Segmented(head, clauses[|clauses| - 1 := sink]) == Segmented(head, clauses) + Shift(more, 1)
  {
    hide Flow, FlowAll, Shift;
    ShiftTwice(more, 0, 0);
    if clauses != [] {
      var n, gap := |clauses| - 1, [Gap(Some(" "), true, 0)];
      assert clauses[n := sink][..n] == clauses[..n];
      Regroup(gap, FlowAll(clauses[n]), more);
      ShiftConcat(gap + FlowAll(clauses[n]), more, 1);
      Regroup(Segmented(head, clauses[..n]), Shift(gap + FlowAll(clauses[n]), 1), Shift(more, 1));
    }
  }

  lemma SpecSnoc(style: Style, kind: nat, ts: seq<Tree>, t: Tree)
    ensures SpecRow(style, kind, ts + [t])
         == SpecRow(style, kind, ts)
            + if IsTriviaToken(t) then []
              else if StartsClause(style, kind, t) then Shift([Gap(Some(" "), true, 0)] + ChildFlow(style, kind, t), 1)
              else
                Shift(SepFlow(style, LastTokenIn(ts), FirstToken(t)) + ChildFlow(style, kind, t),
                      if HasClause(style, kind, ts) then 1 else 0)
    ensures forall bits: seq<Bit> :: bits + [] == bits
  {
    hide FlowOf, SepFlow, ChildFlow, LastTokenIn, FirstToken, Shift, StartsClause, HasClause;
    assert (ts + [t])[..|ts|] == ts;
  }

  lemma ClauseSnoc(style: Style, kind: nat, ts: seq<Tree>, t: Tree)
    ensures HasClause(style, kind, ts + [t]) <==> HasClause(style, kind, ts) || StartsClause(style, kind, t)
  {
    hide StartsClause;
    if StartsClause(style, kind, t) {
      assert (ts + [t])[|ts|] == t;
    }
    if i :| 0 <= i < |ts| && StartsClause(style, kind, ts[i]) {
      assert (ts + [t])[i] == ts[i];
    }
  }

  /** Where nothing is in the sink, there was no token, or a clause begins. */
  ghost predicate IsSegmented(style: Style, kind: nat, head: seq<Doc>, clauses: seq<seq<Doc>>, ts: seq<Tree>) {
    && Segmented(head, clauses) == SpecRow(style, kind, ts)
    && (clauses != [] <==> HasClause(style, kind, ts))
    && (clauses == [] && head == [] ==> LastTokenIn(ts).None?)
    && (clauses != [] ==> clauses[|clauses| - 1] != [])
  }

  lemma NothingSegmented(style: Style, kind: nat)
    ensures IsSegmented(style, kind, [], [], [])
  {
  }

  /** Splits a specifier into its head and its clauses. */
  method SegmentClauses(style: Style, n: Tree) returns (head: seq<Doc>, clauses: seq<seq<Doc>>)
    requires n.Node?
    ensures IsSegmented(style, n.kind, head, clauses, n.children)
    decreases n, 1
  {
    hide Flow, FlowAll, FlowOf, SpecRow, SepFlow, TokenFlow, SepDoc, LowerToken, LastTokenIn, FirstTokenIn, FirstToken, LastToken,
         StartsClause, HasClause, Shift, Segmented, IsSegmented;
    head, clauses := [], [];
    var prev: Option<Tree>, children := None, n.children;
    NothingSegmented(style, n.kind);
    TokensSnoc([], n);
    assert children[..0] == [];
    for i := 0 to |children|
      invariant IsSegmented(style, n.kind, head, clauses, children[..i]) && prev == LastTokenIn(children[..i])
    {
      var child := children[i];
      ghost var ts, head0, clauses0, prev0 := children[..i], head, clauses, prev;
      assert children[..i + 1] == ts + [child];
      TokensSnoc(ts, child);
      var first, last := FirstToken(child), LastToken(child);
      var doc;
      if child.Token? {
        OwnToken(child);
        if IsTrivia(child.tokenKind) {
          SegmentTrivia(style, n.kind, head, clauses, ts, child);
          continue;
        }
        doc := LowerToken(style, n.kind, child);
      } else {
        doc := Lower(style, child);
      }
      ChildPrints(style, n.kind, child);
      var starts := StartsClause(style, n.kind, child);
      if starts {
        clauses := clauses + [[]];
      }
      var sink := SinkOf(head, clauses);
      if sink != [] && prev.Some? && first.Some? {
        sink := sink + [SepDoc(style, prev.value, first.value)];
      } else {
        assert sink + [] == sink;
      }
      sink := sink + [doc];
      SegmentMore(style, n.kind, head0, clauses0, ts, child, doc, sink);
      if clauses == [] {
        head := sink;
      } else {
        clauses := clauses[|clauses| - 1 := sink];
      }
      if last.Some? {
        prev := last;
      }
    }
    assert children[..|children|] == children;
  }

  lemma ChildPrints(style: Style, kind: nat, t: Tree)
    ensures t.Token? ==> ChildFlow(style, kind, t) == TokenFlow(style, kind, t)
    ensures t.Node? ==> ChildFlow(style, kind, t) == FlowOf(style, t)
  {
    hide FlowOf, TokenFlow;
  }

  lemma SegmentTrivia(style: Style, kind: nat, head: seq<Doc>, clauses: seq<seq<Doc>>, ts: seq<Tree>, t: Tree)
    requires IsSegmented(style, kind, head, clauses, ts) && IsTriviaToken(t)
    ensures IsSegmented(style, kind, head, clauses, ts + [t])
  {
    hide SpecRow, LastTokenIn, FirstTokenIn, Segmented, HasClause, StartsClause;
    TriviaStartsNothing(style, kind, t);
    SpecSnoc(style, kind, ts, t);
    ClauseSnoc(style, kind, ts, t);
    TokensSnoc(ts, t);
  }

  lemma TriviaStartsNothing(style: Style, kind: nat, t: Tree)
    requires IsTriviaToken(t)
    ensures !StartsClause(style, kind, t) && LastToken(t).None?
  {
  }

  /** A child that starts a clause begins a new sink, and another one goes into the last one after a separator. */
  lemma SegmentMore(style: Style, kind: nat, head: seq<Doc>, clauses: seq<seq<Doc>>, ts: seq<Tree>, t: Tree, doc: Doc, sink: seq<Doc>)
    requires IsSegmented(style, kind, head, clauses, ts) && !IsTriviaToken(t) && Flow(doc) == ChildFlow(style, kind, t)
    requires var prev := LastTokenIn(ts);
             if StartsClause(style, kind, t) then sink == [doc]
             else
               sink == SinkOf(head, clauses)
                       + (if SinkOf(head, clauses) != [] && prev.Some? && FirstToken(t).Some?
                          then [SepDoc(style, prev.value, FirstToken(t).value)] else [])
                       + [doc]
    ensures var all := if StartsClause(style, kind, t) then clauses + [[]] else clauses;
            if all == [] then IsSegmented(style, kind, sink, [], ts + [t])
            else IsSegmented(style, kind, head, all[|all| - 1 := sink], ts + [t])
  {
    hide Flow, FlowAll, FlowOf, SpecRow, SepFlow, ChildFlow, SepDoc, LastTokenIn, FirstTokenIn, FirstToken, StartsClause, HasClause,
         Shift, Segmented;
    SpecSnoc(style, kind, ts, t);
    ClauseSnoc(style, kind, ts, t);
    TokensSnoc(ts, t);
    if StartsClause(style, kind, t) {
      ClauseStarts(head, clauses, doc, sink);
    } else {
      var last := SinkOf(head, clauses);
      NoSeparator(style, LastTokenIn(ts), FirstToken(t));
      ExtendedPrints(style, last, LastTokenIn(ts), FirstToken(t), doc);
      SinkGrows(head, clauses, sink, SepFlow(style, LastTokenIn(ts), FirstToken(t)) + Flow(doc));
    }
  }

  lemma ClauseStarts(head: seq<Doc>, clauses: seq<seq<Doc>>, doc: Doc, sink: seq<Doc>)
    requires sink == [doc]
    ensures var all := clauses + [[]];
            Segmented(head, all[|all| - 1 := sink])
            == Segmented(head, clauses) + Shift([Gap(Some(" "), true, 0)] + Flow(doc), 1)
  {
    hide Flow, FlowAll, Shift, Segmented;
    var all, gap := clauses + [[]], [Gap(Some(" "), true, 0)];
    NewClause(head, clauses);
    FlowSnoc([], doc);
    assert [] + [doc] == [doc] && [] + Flow(doc) == Flow(doc);
    SinkGrows(head, all, sink, Flow(doc));
    ShiftConcat(gap, Flow(doc), 1);
    Regroup(Segmented(head, clauses), Shift(gap, 1), Shift(Flow(doc), 1));
  }

  method LowerSpec(style: Style, n: Tree) returns (doc: Doc)
    requires n.Node?
    ensures Flow(doc) == SpecFlow(style, n.kind, n.children)
    decreases n, 2
  {
    hide Flow, FlowAll, SpecRow, Segmented, HasClause, Shift;
    var head, clauses := SegmentClauses(style, n);
    if clauses == [] {
      doc := Concat(head);
      ConcatPrints(head);
      NoClauses(head);
      return;
    }
    var parts := [Concat(head)];
    HeadPrints(head);
    assert clauses[..0] == [];
    for i := 0 to |clauses|
      invariant FlowAll(parts) == Segmented(head, clauses[..i])
    {
      var clause := Nest(1, Concat([Line(" ", true), Concat(clauses[i])]));
      ClausePrints(head, clauses[..i], clauses[i]);
      FlowSnoc(parts, clause);
      assert clauses[..i + 1] == clauses[..i] + [clauses[i]];
      parts := parts + [clause];
    }
    assert clauses[..|clauses|] == clauses;
    doc := Group(Concat(parts));
    ConcatPrints(parts);
    GroupPrintsInside(Concat(parts));
  }

  lemma NoClauses(head: seq<Doc>)
    ensures Segmented(head, []) == FlowAll(head)
  {
  }

  lemma HeadPrints(head: seq<Doc>)
    ensures FlowAll([Concat(head)]) == Segmented(head, [])
  {
    FlowSnoc([], Concat(head));
    assert [] + [Concat(head)] == [Concat(head)] && [] + FlowAll(head) == FlowAll(head);
  }

  lemma ClausePrints(head: seq<Doc>, done: seq<seq<Doc>>, c: seq<Doc>)
    ensures Segmented(head, done + [c]) == Segmented(head, done) + Flow(Nest(1, Concat([Line(" ", true), Concat(c)])))
  {
    hide FlowAll, Shift;
    assert (done + [c])[..|done|] == done;
    TwoPrint(Line(" ", true), Concat(c));
  }

  lemma TwoPrint(a: Doc, b: Doc)
    ensures FlowAll([a, b]) == Flow(a) + Flow(b)
  {
    hide Flow;
    FlowSnoc([], a);
    FlowSnoc([a], b);
    assert [] + [a] == [a] && [a] + [b] == [a, b] && [] + Flow(a) == Flow(a);
  }

  lemma GroupPrintsInside(d: Doc)
    ensures Flow(Group(d)) == [Enter] + Flow(d) + [Leave]
  {
  }

  // ---- Choices ------------------------------------------------------------------------------------

  lemma ChoiceSnoc(style: Style, ts: seq<Tree>, t: Tree, inBody: bool)
    ensures ChoicePart(style, ts + [t], inBody)
         == ChoicePart(style, ts, inBody)
            + if IsTriviaToken(t) || IsCurly(t) || HasLeftCurly(ts) != inBody then [] else
                SepFlow(style, PrevInChoice(ts), FirstToken(t)) + PlainFlow(style, t)
    ensures HasLeftCurly(ts + [t]) <==> HasLeftCurly(ts) || IsLeftCurly(t)
    ensures PrevInChoice(ts + [t])
         == if IsLeftCurly(t) then None else if IsCurly(t) || LastToken(t).None? then PrevInChoice(ts) else LastToken(t)
    ensures forall bits: seq<Bit> :: bits + [] == bits
  {
    hide FlowOf, SepFlow, PlainFlow, FirstToken, LastToken, HasLeftCurly;
    CurlySnoc(ts, t);
    assert (ts + [t])[..|ts|] == ts;
  }

  lemma CurlySnoc(ts: seq<Tree>, t: Tree)
    ensures HasLeftCurly(ts + [t]) <==> HasLeftCurly(ts) || IsLeftCurly(t)
    ensures !HasLeftCurly([])
  {
    hide IsLeftCurly;
    if IsLeftCurly(t) {
      assert (ts + [t])[|ts|] == t;
    }
    if i :| 0 <= i < |ts| && IsLeftCurly(ts[i]) {
      assert (ts + [t])[i] == ts[i];
    }
  }

  lemma PlainPrints(style: Style, t: Tree)
    ensures t.Token? ==> PlainFlow(style, t) == Flow(Text(t.text))
    ensures t.Node? ==> PlainFlow(style, t) == FlowOf(style, t)
  {
    hide FlowOf;
  }

  /** The head, and the body in braces on lines of their own. */
  method LowerChoice(style: Style, n: Tree) returns (doc: Doc)
    requires n.Node?
    ensures Flow(doc) == ChoiceFlow(style, n.children)
    decreases n, 2
  {
    hide Flow, FlowAll, FlowOf, ChoicePart, PlainFlow, SepFlow, SepDoc, FirstToken, LastToken, HasLeftCurly, PrevInChoice, ChoiceFlow;
    var head: seq<Doc>, body: seq<Doc>, prev: Option<Tree>, inBody, children := [], [], None, false, n.children;
    NothingChosen(style);
    assert children[..0] == [];
    for i := 0 to |children|
      invariant inBody == HasLeftCurly(children[..i]) && prev == PrevInChoice(children[..i])
      invariant FlowAll(head) == ChoicePart(style, children[..i], false)
      invariant FlowAll(body) == ChoicePart(style, children[..i], true)
    {
      var child := children[i];
      ghost var ts := children[..i];
      assert children[..i + 1] == ts + [child];
      ChoiceSnoc(style, ts, child, false);
      ChoiceSnoc(style, ts, child, true);
      PlainPrints(style, child);
      var sink := if inBody then body else head;
      if child.Token? {
        OwnToken(child);
        if IsTrivia(child.tokenKind) {
          continue;
        }
        if child.tokenKind.LeftCurly? {
          inBody, prev := true, None;
          continue;
        }
        if child.tokenKind.RightCurly? {
          continue;
        }
        ExtendedPrints(style, sink, prev, Some(child), Text(child.text));
        if prev.Some? {
          sink := sink + [SepDoc(style, prev.value, child)];
        } else {
          assert sink + [] == sink;
        }
        sink := sink + [Text(child.text)];
        prev := Some(child);
      } else {
        var first, last := FirstToken(child), LastToken(child);
        var d := Lower(style, child);
        ExtendedPrints(style, sink, prev, first, d);
        if prev.Some? && first.Some? {
          sink := sink + [SepDoc(style, prev.value, first.value)];
        } else {
          assert sink + [] == sink;
        }
        sink := sink + [d];
        if last.Some? {
          prev := last;
        }
      }
      if inBody {
        body := sink;
      } else {
        head := sink;
      }
    }
    assert children[..|children|] == children;
    doc := Concat([Concat(head), Text(" {"), Nest(1, Concat([Hard(false), Group(Concat(body))])), Hard(false), Text("}")]);
    ChoicePrints(style, children, head, body);
  }

  lemma NothingChosen(style: Style)
    ensures ChoicePart(style, [], false) == ChoicePart(style, [], true) == FlowAll([]) == []
    ensures !HasLeftCurly([]) && PrevInChoice([]) == None
  {
  }

  lemma ChoicePrints(style: Style, ts: seq<Tree>, head: seq<Doc>, body: seq<Doc>)
    requires FlowAll(head) == ChoicePart(style, ts, false) && FlowAll(body) == ChoicePart(style, ts, true)
    ensures Flow(Concat([Concat(head), Text(" {"), Nest(1, Concat([Hard(false), Group(Concat(body))])), Hard(false), Text("}")]))
         == ChoiceFlow(style, ts)
  {
    hide Flow, FlowAll, ChoicePart, Shift;
    var inner := Nest(1, Concat([Hard(false), Group(Concat(body))]));
    ConcatPrints(head);
    ConcatPrints(body);
    GroupPrintsInside(Concat(body));
    TwoPrint(Hard(false), Group(Concat(body)));
    NestPrints([Hard(false), Group(Concat(body))]);
    Constants();
    FivePrint(Concat(head), Text(" {"), inner, Hard(false), Text("}"));
  }

  lemma NestPrints(docs: seq<Doc>)
    ensures Flow(Nest(1, Concat(docs))) == Shift(FlowAll(docs), 1)
  {
  }

  lemma Constants()
    ensures Flow(Text(" {")) == [Word(" {")] && Flow(Text("}")) == [Word("}")] && Flow(Hard(false)) == [BREAK]
  {
  }

  lemma FivePrint(a: Doc, b: Doc, c: Doc, d: Doc, e: Doc)
    ensures Flow(Concat([a, b, c, d, e])) == Flow(a) + Flow(b) + Flow(c) + Flow(d) + Flow(e)
  {
    hide Flow, FlowAll;
    FourPrint(a, b, c, d);
    FlowSnoc([a, b, c, d], e);
    assert [a, b, c, d] + [e] == [a, b, c, d, e];
    ConcatPrints([a, b, c, d, e]);
  }

  lemma FourPrint(a: Doc, b: Doc, c: Doc, d: Doc)
    ensures FlowAll([a, b, c, d]) == Flow(a) + Flow(b) + Flow(c) + Flow(d)
  {
    hide Flow, FlowAll;
    TwoPrint(a, b);
    FlowSnoc([a, b], c);
    FlowSnoc([a, b, c], d);
    assert [a, b] + [c] == [a, b, c] && [a, b, c] + [d] == [a, b, c, d];
  }

  // ---- Members ------------------------------------------------------------------------------------

  datatype Member = Member(doc: Doc, blankBefore: bool, comment: bool)

  /** A hard break before every member but the first, and another one for a blank line. */
  function HardJoined(items: seq<Member>): seq<Doc> {
    if items == [] then
      []
    else
      var init, last := items[..|items| - 1], items[|items| - 1];
      HardJoined(init)
      + (if init == [] then [] else if last.blankBefore then [Hard(false), Hard(false)] else [Hard(false)])
      + [last.doc]
  }

  function LineJoined(items: seq<Member>): seq<Doc> {
    if items == [] then
      []
    else
      var init, last := items[..|items| - 1], items[|items| - 1];
      LineJoined(init) + (if init == [] then [] else [Line(", ", false)]) + [last.doc]
  }

  /** What some members print, with lines of their own or with commas. */
  function Joined(items: seq<Member>, block: bool): seq<Bit> {
    FlowAll(if block then HardJoined(items) else LineJoined(items))
  }

  lemma JoinedSnoc(items: seq<Member>, item: Member)
    ensures HardJoined(items + [item])
         == HardJoined(items)
            + (if items == [] then [] else if item.blankBefore then [Hard(false), Hard(false)] else [Hard(false)])
            + [item.doc]
    ensures LineJoined(items + [item])
         == LineJoined(items) + (if items == [] then [] else [Line(", ", false)]) + [item.doc]
    ensures HardJoined([]) == [] && LineJoined([]) == []
  {
    assert (items + [item])[..|items|] == items;
  }

  lemma JoinedPrints(items: seq<Member>, item: Member, block: bool)
    ensures Joined(items + [item], block)
         == Joined(items, block) + ((if items == [] then [] else MemberSep(block, item.blankBefore)) + Flow(item.doc))
    ensures Joined([], block) == []
  {
    hide Flow, FlowAll, HardJoined, LineJoined;
    JoinedSnoc(items, item);
    SepsPrint();
    var docs := if block then HardJoined(items) else LineJoined(items);
    var sep := if items == [] then [] else if !block then [Line(", ", false)]
               else if item.blankBefore then [Hard(false), Hard(false)] else [Hard(false)];
    FlowConcat(docs, sep);
    FlowSnoc(docs + sep, item.doc);
    Regroup(FlowAll(docs), FlowAll(sep), Flow(item.doc));
  }

  lemma SepsPrint()
    ensures FlowAll([]) == [] && FlowAll([Line(", ", false)]) == MemberSep(false, false) == MemberSep(false, true)
    ensures FlowAll([Hard(false)]) == MemberSep(true, false) && FlowAll([Hard(false), Hard(false)]) == MemberSep(true, true)
  {
    OnePrints(Line(", ", false));
    OnePrints(Hard(false));
    TwoPrint(Hard(false), Hard(false));
  }

  lemma OnePrints(d: Doc)
    ensures FlowAll([d]) == Flow(d)
  {
    hide Flow;
    FlowSnoc([], d);
    assert [] + [d] == [d] && [] + Flow(d) == Flow(d);
  }

  /** Puts a comment or annotation behind the last item, or below it if that ends in one. */
  method Attach(items: seq<Member>, extra: Doc, gap: string) returns (attached: seq<Member>)
    requires items != []
    ensures var last := items[|items| - 1];
            attached == items[..|items| - 1]
                        + [Member(Concat([last.doc, if last.comment then Hard(false) else Text(gap), extra]), last.blankBefore, true)]
  {
    var last := items[|items| - 1];
    var sep := if last.comment then Hard(false) else Text(gap);
    return items[..|items| - 1] + [Member(Concat([last.doc, sep, extra]), last.blankBefore, true)];
  }

  lemma AttachedPrints(items: seq<Member>, attached: seq<Member>, extra: Doc, gap: string, block: bool)
    requires items != []
    requires var last := items[|items| - 1];
             attached == items[..|items| - 1]
                         + [Member(Concat([last.doc, if last.comment then Hard(false) else Text(gap), extra]), last.blankBefore, true)]
    ensures Joined(attached, block)
         == Joined(items, block) + ((if items[|items| - 1].comment then [BREAK] else [Word(gap)]) + Flow(extra))
  {
    hide Flow, FlowAll, Joined, MemberSep;
    var init, last := items[..|items| - 1], items[|items| - 1];
    var sep := if last.comment then Hard(false) else Text(gap);
    JoinedPrints(init, last, block);
    JoinedPrints(init, attached[|init|], block);
    assert items == init + [last] && attached == init + [attached[|init|]];
    TwoPrint(last.doc, sep);
    FlowSnoc([last.doc, sep], extra);
    assert [last.doc, sep] + [extra] == [last.doc, sep, extra];
    ConcatPrints([last.doc, sep, extra]);
    GapPrints(gap);
    var before := if init == [] then [] else MemberSep(block, last.blankBefore);
    RegroupFive(Joined(init, block), before, Flow(last.doc), Flow(sep), Flow(extra));
  }

  lemma RegroupFive<T>(a: seq<T>, b: seq<T>, c: seq<T>, d: seq<T>, e: seq<T>)
    ensures a + (b + (c + d + e)) == a + (b + c) + (d + e)
  {
  }

  lemma GapPrints(gap: string)
    ensures Flow(Hard(false)) == [BREAK] && Flow(Text(gap)) == [Word(gap)]
  {
  }

  /** The members print the children so far, whichever way they are joined, and know what the list must. */
  ghost predicate AreItems(style: Style, items: seq<Member>, ts: seq<Tree>) {
    && Joined(items, true) == MembersFlow(style, true, ts) && Joined(items, false) == MembersFlow(style, false, ts)
    && (items == [] <==> LastKept(ts).None?)
    && (items != [] ==>
          && (items[|items| - 1].comment <==> IsSwallowing(LastKept(ts).value))
          && (items[0].blankBefore <==> LeadsWithBlank(ts)))
    && ((exists k :: 0 <= k < |items| && items[k].comment) <==> HasSwallowing(ts))
  }

  lemma SwallowingSnoc(ts: seq<Tree>, t: Tree)
    ensures HasSwallowing(ts + [t]) <==> HasSwallowing(ts) || IsSwallowing(t)
    ensures !HasSwallowing([])
  {
    hide IsSwallowing;
    if IsSwallowing(t) {
      assert (ts + [t])[|ts|] == t;
    }
    if i :| 0 <= i < |ts| && IsSwallowing(ts[i]) {
      assert (ts + [t])[i] == ts[i];
    }
  }

  lemma NoItems(style: Style)
    ensures AreItems(style, [], [])
  {
  }

  lemma ItemsSkip(style: Style, items: seq<Member>, ts: seq<Tree>, t: Tree)
    requires AreItems(style, items, ts) && !IsKept(t)
    ensures AreItems(style, items, ts + [t])
  {
    hide Joined, MembersFlow, LeadsWithBlank, LastKept, HasSwallowing, AttachedFlow;
    MembersSnoc(style, true, ts, t);
    MembersSnoc(style, false, ts, t);
    SwallowingSnoc(ts, t);
  }

  lemma ItemsPush(style: Style, items: seq<Member>, ts: seq<Tree>, t: Tree, item: Member)
    requires AreItems(style, items, ts) && StartsMember(ts, t)
    requires Flow(item.doc) == PlainFlow(style, t) && item.blankBefore == HasBlank(ts) && item.comment == IsSwallowing(t)
    ensures AreItems(style, items + [item], ts + [t])
  {
    hide Flow, Joined, MembersFlow, LeadsWithBlank, LastKept, HasSwallowing, IsSwallowing, PlainFlow, MemberSep, HasBlank, AttachedFlow;
    MembersSnoc(style, true, ts, t);
    MembersSnoc(style, false, ts, t);
    SwallowingSnoc(ts, t);
    JoinedPrints(items, item, true);
    JoinedPrints(items, item, false);
    CommentsSnoc(items, item);
  }

  lemma CommentsSnoc(items: seq<Member>, item: Member)
    ensures (exists k :: 0 <= k < |items + [item]| && (items + [item])[k].comment)
        <==> (exists k :: 0 <= k < |items| && items[k].comment) || item.comment
  {
    if k :| 0 <= k < |items| && items[k].comment {
      assert (items + [item])[k].comment;
    }
    if item.comment {
      assert (items + [item])[|items|].comment;
    }
  }

  lemma ItemsAttach(style: Style, items: seq<Member>, attached: seq<Member>, ts: seq<Tree>, t: Tree, extra: Doc, gap: string)
    requires AreItems(style, items, ts) && items != [] && IsSwallowing(t) && !StartsMember(ts, t)
    requires var last := items[|items| - 1];
             attached == items[..|items| - 1]
                         + [Member(Concat([last.doc, if last.comment then Hard(false) else Text(gap), extra]), last.blankBefore, true)]
    requires AttachedFlow(LastKept(ts), t) == (if items[|items| - 1].comment then [BREAK] else [Word(gap)]) + Flow(extra)
    ensures AreItems(style, attached, ts + [t])
  {
    hide Flow, Joined, MembersFlow, LeadsWithBlank, LastKept, HasSwallowing, PlainFlow, MemberSep, HasBlank, AttachedFlow;
    MembersSnoc(style, true, ts, t);
    MembersSnoc(style, false, ts, t);
    SwallowingSnoc(ts, t);
    AttachedPrints(items, attached, extra, gap, true);
    AttachedPrints(items, attached, extra, gap, false);
    assert attached[|items| - 1].comment;
  }

  /** What is known of the trivia since the last member. */
  ghost predicate AreCounted(sawEol: bool, blank: bool, started: bool, newlines: nat, trailingBlank: bool, ts: seq<Tree>) {
    && sawEol == SawEol(ts) && blank == HasBlank(ts) && started == HasStarted(ts) && newlines == NewlinesSince(ts)
    && trailingBlank == TrailsWithBlank(ts)
  }

  lemma NothingCounted()
    ensures AreCounted(false, false, false, 0, false, [])
  {
  }

  lemma CountedSnoc(sawEol: bool, blank: bool, started: bool, newlines: nat, trailingBlank: bool, ts: seq<Tree>, t: Tree)
    requires AreCounted(sawEol, blank, started, newlines, trailingBlank, ts)
    ensures IsKept(t) ==> AreCounted(false, false, true, 0, trailingBlank, ts + [t])
    ensures !IsKept(t) ==>
        var isEol := t.Token? && t.tokenKind.Eol?;
        var more := newlines + if isEol then CountNewlines(t.text) else 0;
        AreCounted(sawEol || isEol, blank || (isEol && started && 2 <= more), started || (t.Token? && IsOpening(t.tokenKind)), more,
                   trailingBlank || (t.Token? && IsClosing(t.tokenKind) && started && 2 <= newlines), ts + [t])
  {
    hide IsKept, CountNewlines, IsOpening, IsClosing;
    var all := ts + [t];
    assert all[..|ts|] == ts && all[|ts|] == t;
    StartedSnoc(ts, t);
    TrailingSnoc(ts, t);
    KeptKinds(t);
  }

  lemma KeptKinds(t: Tree)
    ensures IsKept(t) ==> !(t.Token? && (t.tokenKind.Eol? || IsClosing(t.tokenKind)))
  {
  }

  lemma StartedSnoc(ts: seq<Tree>, t: Tree)
    ensures HasStarted(ts + [t]) <==> HasStarted(ts) || IsKept(t) || (t.Token? && IsOpening(t.tokenKind))
  {
    hide IsKept, IsOpening;
    var all := ts + [t];
    assert all[|ts|] == t;
    if i :| 0 <= i < |ts| && (IsKept(ts[i]) || (ts[i].Token? && IsOpening(ts[i].tokenKind))) {
      assert all[i] == ts[i];
    }
  }

  lemma TrailingSnoc(ts: seq<Tree>, t: Tree)
    ensures TrailsWithBlank(ts + [t])
        <==> TrailsWithBlank(ts) || (t.Token? && IsClosing(t.tokenKind) && HasStarted(ts) && 2 <= NewlinesSince(ts))
  {
    hide IsClosing, HasStarted, NewlinesSince;
    var all := ts + [t];
    assert all[|ts|] == t && all[..|ts|] == ts;
    forall i | 0 <= i < |ts|
      ensures all[i] == ts[i] && all[..i] == ts[..i]
    {
    }
  }

  /** The members of a container; comments and post-annotations go with the member before them. */
  method CollectItems(style: Style, children: seq<Tree>) returns (items: seq<Member>, trailingBlank: bool)
    ensures AreItems(style, items, children) && trailingBlank == TrailsWithBlank(children)
    decreases children
  {
    hide Flow, FlowOf, PlainFlow, AreItems, AreCounted, CountNewlines, HasBlank, HasStarted, NewlinesSince, TrailsWithBlank, LastKept,
         SawEol, AttachedFlow;
    items, trailingBlank := [], false;
    var sawEol, blank, started, newlines: nat := false, false, false, 0;
    NoItems(style);
    NothingCounted();
    assert children[..0] == [];
    for i := 0 to |children|
      invariant AreItems(style, items, children[..i])
      invariant AreCounted(sawEol, blank, started, newlines, trailingBlank, children[..i])
    {
      var child := children[i];
      ghost var ts := children[..i];
      assert children[..i + 1] == ts + [child];
      CountedSnoc(sawEol, blank, started, newlines, trailingBlank, ts, child);
      WhatIsKnown(style, items, sawEol, blank, started, newlines, trailingBlank, ts);
      PlainPrints(style, child);
      if child.Token? {
        match child.tokenKind {
          case Whitespace => ItemsSkip(style, items, ts, child);
          case Comma => ItemsSkip(style, items, ts, child);
          case Semi => ItemsSkip(style, items, ts, child);
          case Eol =>
            ItemsSkip(style, items, ts, child);
            newlines := newlines + CountNewlines(child.text);
            if started && 2 <= newlines {
              blank := true;
            }
            sawEol := true;
          case LeftCurly => ItemsSkip(style, items, ts, child); started := true;
          case LeftParen => ItemsSkip(style, items, ts, child); started := true;
          case LeftSquare => ItemsSkip(style, items, ts, child); started := true;
          case RightCurly => ItemsSkip(style, items, ts, child); trailingBlank := trailingBlank || (started && 2 <= newlines);
          case RightParen => ItemsSkip(style, items, ts, child); trailingBlank := trailingBlank || (started && 2 <= newlines);
          case RightSquare => ItemsSkip(style, items, ts, child); trailingBlank := trailingBlank || (started && 2 <= newlines);
          case Comment =>
            if sawEol || items == [] {
              ItemsPush(style, items, ts, child, Member(Text(child.text), blank, true));
              items := items + [Member(Text(child.text), blank, true)];
            } else {
              var attached := Attach(items, Text(child.text), " ");
              CommentAttached(style, items, ts, child);
              ItemsAttach(style, items, attached, ts, child, Text(child.text), " ");
              items := attached;
            }
            sawEol, blank, newlines, started := false, false, 0, true;
          case PreAnnotation =>
            ItemsPush(style, items, ts, child, Member(Text(child.text), blank, true));
            items := items + [Member(Text(child.text), blank, true)];
            sawEol, blank, newlines, started := false, false, 0, true;
          case PostAnnotation =>
            if items == [] {
              ItemsPush(style, items, ts, child, Member(Text(child.text), blank, true));
              items := items + [Member(Text(child.text), blank, true)];
            } else {
              var note := AnchorAt(AnchorKind.PostAnnotation, Text(child.text));
              var attached := Attach(items, note, "  ");
              NoteAttached(style, items, ts, child);
              ItemsAttach(style, items, attached, ts, child, note, "  ");
              items := attached;
            }
            sawEol, blank, newlines, started := false, false, 0, true;
          case OtherToken(_) =>
            ItemsPush(style, items, ts, child, Member(Text(child.text), blank, false));
            items := items + [Member(Text(child.text), blank, false)];
            sawEol, blank, newlines, started := false, false, 0, true;
        }
      } else {
        var d := Lower(style, child);
        ItemsPush(style, items, ts, child, Member(d, blank, false));
        items := items + [Member(d, blank, false)];
        sawEol, blank, newlines, started := false, false, 0, true;
      }
    }
    assert children[..|children|] == children;
    WhatIsKnown(style, items, sawEol, blank, started, newlines, trailingBlank, children);
  }

  lemma WhatIsKnown(style: Style, items: seq<Member>, sawEol: bool, blank: bool, started: bool, newlines: nat, trailingBlank: bool,
                    ts: seq<Tree>)
    requires AreItems(style, items, ts) && AreCounted(sawEol, blank, started, newlines, trailingBlank, ts)
    ensures (items == [] <==> LastKept(ts).None?) && sawEol == SawEol(ts) && blank == HasBlank(ts)
    ensures trailingBlank == TrailsWithBlank(ts)
  {
    hide Joined, MembersFlow, LeadsWithBlank, LastKept, HasSwallowing, SawEol, HasBlank, TrailsWithBlank, NewlinesSince, HasStarted;
  }

  lemma CommentAttached(style: Style, items: seq<Member>, ts: seq<Tree>, t: Tree)
    requires AreItems(style, items, ts) && items != [] && t.Token? && t.tokenKind.Comment?
    ensures AttachedFlow(LastKept(ts), t) == (if items[|items| - 1].comment then [BREAK] else [Word(" ")]) + Flow(Text(t.text))
  {
    hide Joined, MembersFlow, LeadsWithBlank, LastKept, HasSwallowing;
    assert forall bits: seq<Bit> :: bits + [] == bits;
  }

  lemma NoteAttached(style: Style, items: seq<Member>, ts: seq<Tree>, t: Tree)
    requires AreItems(style, items, ts) && items != [] && t.Token? && t.tokenKind.PostAnnotation?
    ensures AttachedFlow(LastKept(ts), t)
         == (if items[|items| - 1].comment then [BREAK] else [Word("  ")])
            + Flow(AnchorAt(AnchorKind.PostAnnotation, Text(t.text)))
  {
    hide Joined, MembersFlow, LeadsWithBlank, LastKept, HasSwallowing;
    var note := Mark(AnchorKind.PostAnnotation, 0);
    assert Flow(AnchorAt(AnchorKind.PostAnnotation, Text(t.text))) == [note] + [Word(t.text)];
    Regroup(if items[|items| - 1].comment then [BREAK] else [Word("  ")], [note], [Word(t.text)]);
  }

  method JoinItems(items: seq<Member>) returns (parts: seq<Doc>)
    ensures parts == HardJoined(items)
  {
    hide HardJoined, LineJoined;
    parts := [];
    JoinedSnoc([], Member(Nil, false, false));
    assert items[..0] == [];
    for i := 0 to |items|
      invariant parts == HardJoined(items[..i])
    {
      assert items[..i + 1] == items[..i] + [items[i]];
      JoinedSnoc(items[..i], items[i]);
      ghost var before := parts;
      if 0 < i {
        parts := parts + [Hard(false)];
        if items[i].blankBefore {
          parts := parts + [Hard(false)];
        }
      }
      parts := parts + [items[i].doc];
      assert i == 0 ==> parts == before + [] + [items[i].doc];
      assert 0 < i && items[i].blankBefore ==> parts == before + [Hard(false), Hard(false)] + [items[i].doc];
    }
    assert items[..|items|] == items;
  }

  method JoinItemsSep(items: seq<Member>) returns (parts: seq<Doc>)
    ensures parts == LineJoined(items)
  {
    hide HardJoined, LineJoined;
    parts := [];
    JoinedSnoc([], Member(Nil, false, false));
    assert items[..0] == [];
    for i := 0 to |items|
      invariant parts == LineJoined(items[..i])
    {
      assert items[..i + 1] == items[..i] + [items[i]];
      JoinedSnoc(items[..i], items[i]);
      ghost var before := parts;
      if 0 < i {
        parts := parts + [Line(", ", false)];
      }
      parts := parts + [items[i].doc];
      assert i == 0 ==> parts == before + [] + [items[i].doc];
    }
    assert items[..|items|] == items;
  }

  // ---- Member lists -------------------------------------------------------------------------------

  function BreakLines(blank: bool): (doc: Doc)
    ensures Flow(doc) == Breaks(blank)
  {
    TwoPrint(Hard(false), Hard(false));
    if blank then Concat([Hard(false), Hard(false)]) else Hard(false)
  }

  method LowerMemberList(style: Style, n: Tree) returns (doc: Doc)
    requires n.Node?
    ensures Flow(doc) == ListFlow(style, n.kind, n.children)
    decreases n, 2
  {
    hide Flow, FlowAll, AreItems, HardJoined, LineJoined, MembersFlow, LastKept, TrailsWithBlank, LeadsWithBlank, BreakLines, Breaks;
    var cfg := style.listCfg(n.kind);
    var items, trailingBlank := CollectItems(style, n.children);
    ItemsKnow(style, items, n.children);
    var forceBlock := cfg.mode.Always? || exists k :: 0 <= k < |items| && items[k].comment;
    var keepBlank := style.preservesEdgeBlanks(n.kind);
    if items == [] {
      if cfg.mode.Always? {
        doc := Concat([Text(cfg.open), BreakLines(keepBlank && trailingBlank), Text(cfg.close)]);
        ThreePrint(Text(cfg.open), BreakLines(keepBlank && trailingBlank), Text(cfg.close));
        TextsPrint(cfg);
      } else {
        doc := Text(cfg.open + cfg.close);
        TextsPrint(cfg);
      }
      return;
    }
    var pad: FlatText := if cfg.open == "{" then " " else "";
    if forceBlock {
      var parts := JoinItems(items);
      var openLine := BreakLines(keepBlank && items[0].blankBefore);
      var closeLine := BreakLines(keepBlank && trailingBlank);
      doc := Concat([Text(cfg.open), Nest(1, Concat([openLine, Concat(parts)])), closeLine, Text(cfg.close)]);
      ListPrints(cfg, openLine, parts, closeLine);
    } else {
      var parts := JoinItemsSep(items);
      var openLine := Line(pad, false);
      var closeLine := Line(if cfg.closeStyle.Dedent? then pad else "", false);
      var flat := Concat([Text(cfg.open), Nest(1, Concat([openLine, Concat(parts)])), closeLine, Text(cfg.close)]);
      doc := Group(flat);
      ListPrints(cfg, openLine, parts, closeLine);
      LinesPrint(cfg);
      GroupPrintsInside(flat);
    }
  }

  lemma ItemsKnow(style: Style, items: seq<Member>, ts: seq<Tree>)
    requires AreItems(style, items, ts)
    ensures FlowAll(HardJoined(items)) == MembersFlow(style, true, ts) && FlowAll(LineJoined(items)) == MembersFlow(style, false, ts)
    ensures items == [] <==> LastKept(ts).None?
    ensures items != [] ==> items[0].blankBefore == LeadsWithBlank(ts)
    ensures (exists k :: 0 <= k < |items| && items[k].comment) <==> HasSwallowing(ts)
  {
    hide FlowAll, HardJoined, LineJoined, MembersFlow, LeadsWithBlank, LastKept, HasSwallowing;
  }

  lemma TextsPrint(cfg: ListCfg)
    ensures Flow(Text(cfg.open)) == [Word(cfg.open)] && Flow(Text(cfg.close)) == [Word(cfg.close)]
    ensures Flow(Text(cfg.open + cfg.close)) == [Word(cfg.open + cfg.close)]
  {
  }

  lemma LinesPrint(cfg: ListCfg)
    ensures Flow(Line(PadOf(cfg), false)) == [Gap(Some(PadOf(cfg)), false, 0)] && Flow(Line("", false)) == [Gap(Some(""), false, 0)]
  {
  }

  lemma ThreePrint(a: Doc, b: Doc, c: Doc)
    ensures Flow(Concat([a, b, c])) == Flow(a) + Flow(b) + Flow(c)
  {
    hide Flow, FlowAll;
    TwoPrint(a, b);
    FlowSnoc([a, b], c);
    assert [a, b] + [c] == [a, b, c];
    ConcatPrints([a, b, c]);
  }

  lemma ListPrints(cfg: ListCfg, openLine: Doc, parts: seq<Doc>, closeLine: Doc)
    ensures Flow(Concat([Text(cfg.open), Nest(1, Concat([openLine, Concat(parts)])), closeLine, Text(cfg.close)]))
         == [Word(cfg.open)] + Shift(Flow(openLine) + FlowAll(parts), 1) + Flow(closeLine) + [Word(cfg.close)]
  {
    hide Flow, FlowAll, Shift;
    TextsPrint(cfg);
    TwoPrint(openLine, Concat(parts));
    ConcatPrints(parts);
    NestPrints([openLine, Concat(parts)]);
    FourPrint(Text(cfg.open), Nest(1, Concat([openLine, Concat(parts)])), closeLine, Text(cfg.close));
    ConcatPrints([Text(cfg.open), Nest(1, Concat([openLine, Concat(parts)])), closeLine, Text(cfg.close)]);
  }

  // ---- The whole file -------------------------------------------------------------------------------

  /** The members of the file, each on lines of its own. */
  method LowerContainer(style: Style, root: Tree) returns (doc: Doc)
    requires root.Node?
    ensures Flow(doc) == MembersFlow(style, true, root.children)
  {
    hide FlowAll, AreItems, HardJoined, MembersFlow;
    var items, _ := CollectItems(style, root.children);
    var parts := JoinItems(items);
    doc := Concat(parts);
    ItemsKnow(style, items, root.children);
    ConcatPrints(parts);
  }
}
