/** The tree of a state machine diagram (fpp_diagram/src/sprotty.rs:183-289). */
module DiagramTree {
  import opened Wrappers
  import opened Diagrams
  import opened DiagramLaws

  // ---- The lowering ---------------------------------------------------------------------------

  /** Whether the edges of these nodes are still where they were grouped. */
  ghost predicate HaveEdges(edgesOf: map<Option<string>, seq<Element>>, under: Option<string> -> seq<Element>,
                            vs: seq<SmNode>) {
    forall v :: v in vs ==> Look(edgesOf, Some(v.id)) == under(Some(v.id))
  }

  lemma HaveEdgesSplit(edgesOf: map<Option<string>, seq<Element>>, under: Option<string> -> seq<Element>,
                       vs: seq<SmNode>, ws: seq<SmNode>)
    ensures HaveEdges(edgesOf, under, vs + ws) <==> HaveEdges(edgesOf, under, vs) && HaveEdges(edgesOf, under, ws)
  {
    if HaveEdges(edgesOf, under, vs + ws) {
      assert forall v :: v in vs ==> v in vs + ws;
      assert forall v :: v in ws ==> v in vs + ws;
    }
  }

  /** Taking the edges of some nodes leaves those of others. */
  lemma HaveEdgesApart(edgesOf: map<Option<string>, seq<Element>>, under: Option<string> -> seq<Element>,
                       taken: seq<SmNode>, vs: seq<SmNode>)
    requires HaveEdges(edgesOf, under, vs) && ApartIds(taken, vs)
    ensures HaveEdges(edgesOf - KeysOf(taken), under, vs)
  {
    forall v | v in vs
      ensures Some(v.id) !in KeysOf(taken)
    {
    }
  }

  lemma KeysOfConcat(vs: seq<SmNode>, ws: seq<SmNode>)
    ensures KeysOf(vs + ws) == KeysOf(vs) + KeysOf(ws) && KeysOf([]) == {}
  {
  }

  lemma KeysOfOne(n: SmNode)
    ensures KeysOf([n]) == {Some(n.id)}
  {
    assert n in [n];
  }

  lemma TakenTwice<T>(m: map<Option<string>, T>, a: set<Option<string>>, b: set<Option<string>>)
    ensures m - a - b == m - (a + b)
  {
  }

  class Lowering {
    ghost const f: Forest
    ghost const under: Option<string> -> seq<Element>
    const childrenOf: map<Option<string>, seq<SmNode>>
    var edgesOf: map<Option<string>, seq<Element>>

    ghost predicate IsGrouped() {
      f.Valid() && forall key :: Look(childrenOf, key) == Kids(f.nodes, key)
    }

    constructor (ghost f: Forest, ghost under: Option<string> -> seq<Element>, childrenOf: map<Option<string>, seq<SmNode>>,
                 edgesOf: map<Option<string>, seq<Element>>)
      requires f.Valid() && forall key :: Look(childrenOf, key) == Kids(f.nodes, key)
      ensures IsGrouped() && this.f == f && this.under == under && this.edgesOf == edgesOf
      ensures this.childrenOf == childrenOf
    {
      this.f, this.under := f, under;
      this.childrenOf, this.edgesOf := childrenOf, edgesOf;
    }

    /** The element of a node, whose own edges are taken. */
    method LowerNode(n: SmNode) returns (e: Element)
      requires IsGrouped() && n in f.nodes && HaveEdges(edgesOf, under, Visit(f, n))
      modifies `edgesOf
      ensures e == Lowered(f, under, n) && edgesOf == old(edgesOf) - KeysOf(Visit(f, n))
      decreases f.bound - f.rank(n.id), 1, 0
    {
      hide VisitAll, LoweredAll, KeysOf, HaveEdges, ApartIds, DistinctIds;
      var kids := Look(childrenOf, Some(n.id));
      ghost var floor := f.rank(n.id);
      assert kids == KidsOf(f, n);
      KidsAreSiblings(f, Some(n.id));
      HaveEdgesSplit(edgesOf, under, [n], VisitAll(f, kids, floor));
      var nested := LowerAll(kids, floor);
      VisitOnce(f, n);
      OwnEdges(old(edgesOf), under, n, VisitAll(f, kids, floor));
      if Some(n.id) in edgesOf {
        nested := nested + edgesOf[Some(n.id)];
      } else {
        assert nested + [] == nested;
      }
      ghost var own := {Some(n.id)};
      edgesOf := edgesOf - {Some(n.id)};
      KeysOfConcat([n], VisitAll(f, kids, floor));
      KeysOfOne(n);
      TakenTwice(old(edgesOf), KeysOf(VisitAll(f, kids, floor)), own);
      assert KeysOf(VisitAll(f, kids, floor)) + own == own + KeysOf(VisitAll(f, kids, floor));
      match n.kind {
        case Initial => e := InitialNode(n.id);
        case StateKind => e := StateNode(n.id, n.depth, n.detail, [SmNodeLabel(n)] + nested);
        case Choice => e := ChoiceNode(n.id, n.depth, [SmNodeLabel(n)] + nested);
      }
    }

    method LowerAll(kids: seq<SmNode>, ghost floor: int) returns (elements: seq<Element>)
      requires IsGrouped() && AreBelow(f, kids, floor) && AreSiblings(kids)
      requires HaveEdges(edgesOf, under, VisitAll(f, kids, floor))
      modifies `edgesOf
      ensures elements == LoweredAll(f, under, kids, floor)
      ensures edgesOf == old(edgesOf) - KeysOf(VisitAll(f, kids, floor))
      decreases f.bound - floor, 0, |kids|
    {
      hide Visit, Lowered, VisitAll, LoweredAll, KeysOf, HaveEdges, ApartIds, Forest.Valid, AreSiblings;
      ghost var all := edgesOf;
      elements := [];
      NothingBelow(f, under, floor);
      KeysOfConcat([], []);
      assert kids[..0] == [] && all - {} == all;
      for i := 0 to |kids|
        invariant elements == LoweredAll(f, under, kids[..i], floor)
        invariant edgesOf == all - KeysOf(VisitAll(f, kids[..i], floor))
      {
        var k := kids[i];
        assert k in kids && f.rank(k.id) <= f.bound by {
          RankIsBounded(f, k);
        }
        SubtreesApart(f, kids, floor, i);
        BelowSnoc(f, under, kids, floor, i);
        EdgesBelow(all, f, under, kids, floor, i);
        HaveEdgesApart(all, under, VisitAll(f, kids[..i], floor), Visit(f, k));
        var e := LowerNode(k);
        KeysOfConcat(VisitAll(f, kids[..i], floor), Visit(f, k));
        TakenTwice(all, KeysOf(VisitAll(f, kids[..i], floor)), KeysOf(Visit(f, k)));
        elements := elements + [e];
      }
      assert kids[..|kids|] == kids;
    }
  }

  lemma RankIsBounded(f: Forest, n: SmNode)
    requires f.Valid() && n in f.nodes
    ensures f.rank(n.id) <= f.bound
  {
  }

  lemma NothingBelow(f: Forest, under: Option<string> -> seq<Element>, floor: int)
    requires f.Valid()
    ensures VisitAll(f, [], floor) == [] && LoweredAll(f, under, [], floor) == []
  {
  }

  lemma BelowSnoc(f: Forest, under: Option<string> -> seq<Element>, kids: seq<SmNode>, floor: int, i: nat)
    requires f.Valid() && AreBelow(f, kids, floor) && i < |kids| && kids[i] in f.nodes
    ensures VisitAll(f, kids[..i + 1], floor) == VisitAll(f, kids[..i], floor) + Visit(f, kids[i])
    ensures LoweredAll(f, under, kids[..i + 1], floor) == LoweredAll(f, under, kids[..i], floor) + [Lowered(f, under, kids[i])]
  {
    hide Visit, Lowered;
    assert kids[..i + 1][..i] == kids[..i];
  }

  /** The edges below one of the children are among those below all. */
  lemma {:induction false} EdgesBelow(edgesOf: map<Option<string>, seq<Element>>, f: Forest,
                                      under: Option<string> -> seq<Element>, kids: seq<SmNode>, floor: int, i: nat)
    requires f.Valid() && AreBelow(f, kids, floor) && i < |kids| && kids[i] in f.nodes
    requires HaveEdges(edgesOf, under, VisitAll(f, kids, floor))
    ensures HaveEdges(edgesOf, under, Visit(f, kids[i]))
    decreases |kids|
  {
    hide Visit, HaveEdges;
    var init, last := kids[..|kids| - 1], kids[|kids| - 1];
    HaveEdgesSplit(edgesOf, under, VisitAll(f, init, floor), Visit(f, last));
    if i < |init| {
      EdgesBelow(edgesOf, f, under, init, floor, i);
    }
  }

  /** A node's own edges are still there after those below it have been taken. */
  lemma OwnEdges(edgesOf: map<Option<string>, seq<Element>>, under: Option<string> -> seq<Element>, n: SmNode,
                 below: seq<SmNode>)
    requires HaveEdges(edgesOf, under, [n]) && ApartIds([n], below)
    ensures Look(edgesOf - KeysOf(below), Some(n.id)) == under(Some(n.id))
  {
    assert n in [n];
  }

  // ---- What a tree holds ------------------------------------------------------------------------

  datatype Label = Label(id: string, text: string)

  /** What is drawn of a node or an edge, and the id of the element that it is drawn in. */
  datatype Placed =
    | PlacedState(parent: Option<string>, id: string, depth: nat, detail: string, labels: seq<Label>)
    | PlacedChoice(parent: Option<string>, id: string, depth: nat, labels: seq<Label>)
    | PlacedInitial(parent: Option<string>, id: string)
    | PlacedEdge(parent: Option<string>, id: string, source: string, target: string, detail: string, labels: seq<Label>)

  /** What is to be drawn of a node: its label is set apart by its id. */
  function NodePlace(n: SmNode): Placed {
    match n.kind
    case Initial => PlacedInitial(n.parent, n.id)
    case StateKind => PlacedState(n.parent, n.id, n.depth, n.detail, [Label(n.id + ".label", n.text)])
    case Choice => PlacedChoice(n.parent, n.id, n.depth, [Label(n.id + ".label", n.text)])
  }

  /** What is to be drawn of an edge: it leads from source to target, with a label if it has a text. */
  function EdgePlace(e: SmEdge, parent: Option<string>): Placed {
    PlacedEdge(parent, e.id, e.source, e.target, e.detail, if e.text == "" then [] else [Label(e.id + ".label", e.text)])
  }

  /** The labels among the children of an element. */
  function LabelsOf(es: seq<Element>): seq<Label> {
    if es == [] then
      []
    else
      var e := es[|es| - 1];
      LabelsOf(es[..|es| - 1])
      + match e
        case StateLabel(id, text) => [Label(id, text)]
        case TransitionLabel(id, text) => [Label(id, text)]
        case _ => []
  }

  lemma {:induction false} LabelsConcat(a: seq<Element>, b: seq<Element>)
    ensures LabelsOf(a + b) == LabelsOf(a) + LabelsOf(b)
    decreases |b|
  {
    if b == [] {
      assert a + b == a;
    } else {
      assert (a + b)[..|a + b| - 1] == a + b[..|b| - 1];
      LabelsConcat(a, b[..|b| - 1]);
    }
  }

  ghost predicate HasNoLabels(es: seq<Element>) {
    forall e :: e in es ==> !e.StateLabel? && !e.TransitionLabel?
  }

  lemma {:induction false} NoLabels(es: seq<Element>)
    requires HasNoLabels(es)
    ensures LabelsOf(es) == []
  {
    if es != [] {
      assert es[|es| - 1] in es;
      NoLabels(es[..|es| - 1]);
    }
  }

  /** The nodes and edges in a tree, with their places. */
  function Contents(e: Element, parent: Option<string>): multiset<Placed>
    decreases e, 0
  {
    match e
    case Graph(children) => ContentsAll(children, None)
    case StateNode(id, depth, detail, children) =>
      multiset{PlacedState(parent, id, depth, detail, LabelsOf(children))} + ContentsAll(children, Some(id))
    case ChoiceNode(id, depth, children) =>
      multiset{PlacedChoice(parent, id, depth, LabelsOf(children))} + ContentsAll(children, Some(id))
    case InitialNode(id) => multiset{PlacedInitial(parent, id)}
    case TransitionEdge(id, source, target, detail, children) =>
      multiset{PlacedEdge(parent, id, source, target, detail, LabelsOf(children))}
    case _ => multiset{}
  }

  function ContentsAll(es: seq<Element>, parent: Option<string>): multiset<Placed>
    decreases es
  {
    if es == [] then multiset{} else ContentsAll(es[..|es| - 1], parent) + Contents(es[|es| - 1], parent)
  }

  lemma {:induction false} ContentsConcat(a: seq<Element>, b: seq<Element>, parent: Option<string>)
    ensures ContentsAll(a + b, parent) == ContentsAll(a, parent) + ContentsAll(b, parent)
    decreases |b|
  {
    if b == [] {
      assert a + b == a;
    } else {
      assert (a + b)[..|a + b| - 1] == a + b[..|b| - 1];
      ContentsConcat(a, b[..|b| - 1], parent);
    }
  }

  /** The nodes of a list, each under its parent. */
  function NodesOf(vs: seq<SmNode>): multiset<Placed> {
    if vs == [] then
      multiset{}
    else
      NodesOf(vs[..|vs| - 1]) + multiset{NodePlace(vs[|vs| - 1])}
  }

  /** The edges that belong under the nodes of a list. */
  ghost function EdgesOf(under: Option<string> -> seq<Element>, vs: seq<SmNode>): multiset<Placed> {
    if vs == [] then
      multiset{}
    else
      EdgesOf(under, vs[..|vs| - 1]) + ContentsAll(under(Some(vs[|vs| - 1].id)), Some(vs[|vs| - 1].id))
  }

  lemma {:induction false} NodesConcat(vs: seq<SmNode>, ws: seq<SmNode>)
    ensures NodesOf(vs + ws) == NodesOf(vs) + NodesOf(ws)
    decreases |ws|
  {
    if ws == [] {
      assert vs + ws == vs;
    } else {
      assert (vs + ws)[..|vs + ws| - 1] == vs + ws[..|ws| - 1];
      NodesConcat(vs, ws[..|ws| - 1]);
    }
  }

  lemma {:induction false} EdgesConcat(under: Option<string> -> seq<Element>, vs: seq<SmNode>, ws: seq<SmNode>)
    ensures EdgesOf(under, vs + ws) == EdgesOf(under, vs) + EdgesOf(under, ws)
    decreases |ws|
  {
    if ws == [] {
      assert vs + ws == vs;
    } else {
      assert (vs + ws)[..|vs + ws| - 1] == vs + ws[..|ws| - 1];
      EdgesConcat(under, vs, ws[..|ws| - 1]);
    }
  }

  ghost predicate AreEdges(es: seq<Element>) {
    forall e :: e in es ==> e.TransitionEdge?
  }

  /** The element of an edge is the edge as it is to be drawn. */
  lemma EdgeIsDrawn(e: SmEdge, parent: Option<string>)
    ensures Contents(TransitionEdgeElement(e), parent) == multiset{EdgePlace(e, parent)}
  {
    OneLabel(TransitionLabel(e.id + ".label", e.text), Label(e.id + ".label", e.text));
    NoLabels([]);
  }

  /** The element of a node is the node as it is to be drawn, around what is nested in it. */
  lemma NodeIsDrawn(n: SmNode, nested: seq<Element>)
    requires HasNoLabels(nested) && (n.kind == Initial ==> nested == [])
    ensures Contents(NodeElement(n, nested), n.parent) == multiset{NodePlace(n)} + ContentsAll(nested, Some(n.id))
  {
    hide ContentsAll, LabelsOf, HasNoLabels;
    NoContents(Some(n.id));
    LabelHoldsNothing(n);
    ContentsConcat([SmNodeLabel(n)], nested, Some(n.id));
    LabelsConcat([SmNodeLabel(n)], nested);
    NoLabels(nested);
    OneLabel(SmNodeLabel(n), Label(n.id + ".label", n.text));
  }

  lemma OneLabel(e: Element, l: Label)
    requires e == StateLabel(l.id, l.text) || e == TransitionLabel(l.id, l.text)
    ensures LabelsOf([e]) == [l] && [l] + [] == [l]
  {
    assert [e][..0] == [];
    assert [] + [l] == [l];
  }

  lemma NoContents(parent: Option<string>)
    ensures ContentsAll([], parent) == multiset{}
  {
  }

  /** Whether nothing is inside an initial node. */
  ghost predicate InitialsAreEmpty(f: Forest, under: Option<string> -> seq<Element>) {
    forall n :: n in f.nodes && n.kind == Initial ==> Kids(f.nodes, Some(n.id)) == [] && under(Some(n.id)) == []
  }

  /** A node's element holds all nodes below it and all their edges. */
  lemma {:induction false} LoweredHolds(f: Forest, under: Option<string> -> seq<Element>, n: SmNode)
    requires f.Valid() && n in f.nodes && InitialsAreEmpty(f, under) && forall key :: AreEdges(under(key))
    ensures Contents(Lowered(f, under, n), n.parent) == NodesOf(Visit(f, n)) + EdgesOf(under, Visit(f, n))
    decreases f.bound - f.rank(n.id), 1, 0
  {
    hide ContentsAll, Contents, NodesOf, EdgesOf, VisitAll, LoweredAll, InitialsAreEmpty, AreEdges, Forest.Valid, NodeElement, NodePlace, HasNoLabels;
    var kids, floor := KidsOf(f, n), f.rank(n.id);
    var below := VisitAll(f, kids, floor);
    KidsAre(f.nodes, Some(n.id));
    LoweredAllHolds(f, under, kids, floor, Some(n.id));
    ContentsConcat(LoweredAll(f, under, kids, floor), under(Some(n.id)), Some(n.id));
    NodesConcat([n], below);
    EdgesConcat(under, [n], below);
    OneNode(under, n);
    LoweredHasNoLabels(f, under, kids, floor);
    if n.kind == Initial {
      EmptyInitial(f, under, n);
      NothingBelow(f, under, floor);
      NothingHeld(under, Some(n.id));
    }
    LabelFree(LoweredAll(f, under, kids, floor), under(Some(n.id)));
    NodeIsDrawn(n, LoweredAll(f, under, kids, floor) + under(Some(n.id)));
  }

  lemma LabelFree(a: seq<Element>, b: seq<Element>)
    requires HasNoLabels(a) && AreEdges(b)
    ensures HasNoLabels(a + b)
  {
  }

  lemma {:induction false} LoweredHasNoLabels(f: Forest, under: Option<string> -> seq<Element>, kids: seq<SmNode>, floor: int)
    requires f.Valid() && AreBelow(f, kids, floor)
    ensures HasNoLabels(LoweredAll(f, under, kids, floor))
    decreases |kids|
  {
    if kids != [] {
      LoweredHasNoLabels(f, under, kids[..|kids| - 1], floor);
    }
  }

  lemma OneNode(under: Option<string> -> seq<Element>, n: SmNode)
    ensures NodesOf([n]) == multiset{NodePlace(n)}
    ensures EdgesOf(under, [n]) == ContentsAll(under(Some(n.id)), Some(n.id))
  {
    hide ContentsAll;
    assert [n][..0] == [];
  }

  lemma EmptyInitial(f: Forest, under: Option<string> -> seq<Element>, n: SmNode)
    requires InitialsAreEmpty(f, under) && n in f.nodes && n.kind == Initial
    ensures Kids(f.nodes, Some(n.id)) == [] && under(Some(n.id)) == []
  {
  }

  lemma NothingHeld(under: Option<string> -> seq<Element>, parent: Option<string>)
    ensures NodesOf([]) == multiset{} && EdgesOf(under, []) == multiset{} && ContentsAll([], parent) == multiset{}
  {
  }

  lemma LabelHoldsNothing(n: SmNode)
    ensures ContentsAll([SmNodeLabel(n)], Some(n.id)) == multiset{}
  {
    assert [SmNodeLabel(n)][..0] == [];
  }

  lemma {:induction false} LoweredAllHolds(f: Forest, under: Option<string> -> seq<Element>, kids: seq<SmNode>, floor: int,
                                           parent: Option<string>)
    requires f.Valid() && AreBelow(f, kids, floor) && (forall k :: k in kids ==> k.parent == parent)
    requires InitialsAreEmpty(f, under) && forall key :: AreEdges(under(key))
    ensures ContentsAll(LoweredAll(f, under, kids, floor), parent)
         == NodesOf(VisitAll(f, kids, floor)) + EdgesOf(under, VisitAll(f, kids, floor))
    decreases f.bound - floor, 0, |kids|
  {
    hide Contents, NodesOf, EdgesOf, Visit, Lowered, InitialsAreEmpty, AreEdges;
    if kids == [] {
      NothingHeld(under, parent);
    } else {
      var init, k := kids[..|kids| - 1], kids[|kids| - 1];
      assert k in kids && f.rank(k.id) <= f.bound;
      LoweredAllHolds(f, under, init, floor, parent);
      LoweredHolds(f, under, k);
      NodesConcat(VisitAll(f, init, floor), Visit(f, k));
      EdgesConcat(under, VisitAll(f, init, floor), Visit(f, k));
      var before := LoweredAll(f, under, init, floor);
      assert (before + [Lowered(f, under, k)])[..|before|] == before;
    }
  }

  // ---- All edges, once -----------------------------------------------------------------------------

  /** Each edge in the innermost node around its ends, or at the root. */
  ghost function AllEdges(edges: seq<SmEdge>, p: map<string, Option<string>>, rank: string -> nat): multiset<Placed>
    requires Climbs(p, rank)
  {
    if edges == [] then
      multiset{}
    else
      var last := edges[|edges| - 1];
      AllEdges(edges[..|edges| - 1], p, rank)
      + multiset{EdgePlace(last, LcaOfEdge(p, rank, last))}
  }

  ghost function Under(edges: seq<SmEdge>, p: map<string, Option<string>>, rank: string -> nat): Option<string> -> seq<Element>
    requires Climbs(p, rank)
  {
    key => EdgesUnder(edges, p, rank, key)
  }

  /** All edges under the nodes of a list, and at the root. */
  ghost function Gathered(edges: seq<SmEdge>, p: map<string, Option<string>>, rank: string -> nat, vs: seq<SmNode>): multiset<Placed>
    requires Climbs(p, rank)
  {
    ContentsAll(EdgesUnder(edges, p, rank, None), None) + EdgesOf(Under(edges, p, rank), vs)
  }

  function When(holds: bool, x: Placed): multiset<Placed> {
    if holds then multiset{x} else multiset{}
  }

  ghost function LcaOfEdge(p: map<string, Option<string>>, rank: string -> nat, e: SmEdge): Option<string>
    requires Climbs(p, rank)
  {
    Lca(p, rank, e.source, e.target)
  }

  lemma EdgesSnoc(es: seq<Element>, e: SmEdge, key: Option<string>)
    ensures ContentsAll(es + [TransitionEdgeElement(e)], key) == ContentsAll(es, key) + multiset{EdgePlace(e, key)}
  {
    hide TransitionEdgeElement, EdgePlace;
    EdgeIsDrawn(e, key);
    assert (es + [TransitionEdgeElement(e)])[..|es|] == es;
  }

  lemma EdgesUnderLast(edges: seq<SmEdge>, p: map<string, Option<string>>, rank: string -> nat, key: Option<string>)
    requires Climbs(p, rank) && edges != []
    ensures var last := edges[|edges| - 1];
            EdgesUnder(edges, p, rank, key)
            == EdgesUnder(edges[..|edges| - 1], p, rank, key)
               + if LcaOfEdge(p, rank, last) == key then [TransitionEdgeElement(last)] else []
  {
    hide Climbs, Lca;
  }

  lemma UnderLast(edges: seq<SmEdge>, p: map<string, Option<string>>, rank: string -> nat, key: Option<string>)
    requires Climbs(p, rank) && edges != []
    ensures var last := edges[|edges| - 1];
            ContentsAll(EdgesUnder(edges, p, rank, key), key)
            == ContentsAll(EdgesUnder(edges[..|edges| - 1], p, rank, key), key)
               + When(LcaOfEdge(p, rank, last) == key, EdgePlace(last, key))
  {
    hide Climbs, LcaOfEdge, ContentsAll, EdgesUnder, TransitionEdgeElement, EdgePlace;
    var last := edges[|edges| - 1];
    var before := EdgesUnder(edges[..|edges| - 1], p, rank, key);
    EdgesUnderLast(edges, p, rank, key);
    EdgesSnoc(before, last, key);
    assert before + [] == before;
  }

  ghost predicate HasKey(vs: seq<SmNode>, key: Option<string>) {
    exists v :: v in vs && key == Some(v.id)
  }

  lemma HasKeyLast(vs: seq<SmNode>, key: Option<string>)
    requires vs != [] && DistinctIds(vs)
    ensures HasKey(vs, key) <==> HasKey(vs[..|vs| - 1], key) || key == Some(vs[|vs| - 1].id)
    ensures !(HasKey(vs[..|vs| - 1], key) && key == Some(vs[|vs| - 1].id))
  {
    LastIsDistinct(vs);
    assert vs == vs[..|vs| - 1] + [vs[|vs| - 1]];
  }

  lemma EdgesOfLast(under: Option<string> -> seq<Element>, vs: seq<SmNode>)
    requires vs != []
    ensures var v := vs[|vs| - 1];
            EdgesOf(under, vs) == EdgesOf(under, vs[..|vs| - 1]) + ContentsAll(under(Some(v.id)), Some(v.id))
  {
    hide ContentsAll;
  }

  /** One more edge is one more under the nodes of the list, if its node is in the list. */
  lemma {:induction false} GatherLast(edges: seq<SmEdge>, p: map<string, Option<string>>, rank: string -> nat, vs: seq<SmNode>)
    requires Climbs(p, rank) && edges != [] && DistinctIds(vs)
    ensures var last := edges[|edges| - 1];
            var lca := LcaOfEdge(p, rank, last);
            EdgesOf(Under(edges, p, rank), vs)
            == EdgesOf(Under(edges[..|edges| - 1], p, rank), vs)
               + When(HasKey(vs, lca), EdgePlace(last, lca))
    decreases |vs|
  {
    hide Climbs, LcaOfEdge, ContentsAll, EdgesUnder, EdgesOf, HasKey, TransitionEdgeElement, EdgePlace;
    var lca := LcaOfEdge(p, rank, edges[|edges| - 1]);
    if vs == [] {
      NothingHeld(Under(edges, p, rank), None);
      NothingHeld(Under(edges[..|edges| - 1], p, rank), None);
      NoKey(lca);
    } else {
      var init, v := vs[..|vs| - 1], vs[|vs| - 1];
      GatherLast(edges, p, rank, init);
      UnderLast(edges, p, rank, Some(v.id));
      HasKeyLast(vs, lca);
      EdgesOfLast(Under(edges, p, rank), vs);
      EdgesOfLast(Under(edges[..|edges| - 1], p, rank), vs);
    }
  }

  lemma NoKey(key: Option<string>)
    ensures !HasKey([], key)
  {
  }

  lemma {:induction false} EveryEdgeIsGathered(edges: seq<SmEdge>, p: map<string, Option<string>>, rank: string -> nat,
                                               vs: seq<SmNode>)
    requires Climbs(p, rank) && DistinctIds(vs)
    requires forall e :: e in edges ==> LcaOfEdge(p, rank, e).None? || HasKey(vs, LcaOfEdge(p, rank, e))
    ensures Gathered(edges, p, rank, vs) == AllEdges(edges, p, rank)
  {
    hide Climbs, LcaOfEdge, ContentsAll, EdgesUnder, EdgesOf, HasKey, Under, TransitionEdgeElement, EdgePlace;
    if edges == [] {
      NoEdges(p, rank, vs);
    } else {
      var last := edges[|edges| - 1];
      assert last in edges;
      EveryEdgeIsGathered(edges[..|edges| - 1], p, rank, vs);
      UnderLast(edges, p, rank, None);
      GatherLast(edges, p, rank, vs);
      NoneHasNoKey(vs);
    }
  }

  lemma NoneHasNoKey(vs: seq<SmNode>)
    ensures !HasKey(vs, None)
  {
  }

  lemma {:induction false} NoEdges(p: map<string, Option<string>>, rank: string -> nat, vs: seq<SmNode>)
    requires Climbs(p, rank)
    ensures Gathered([], p, rank, vs) == multiset{}
    decreases |vs|
  {
    if vs != [] {
      NoEdges(p, rank, vs[..|vs| - 1]);
    }
  }

  lemma {:induction false} AreEdgesUnder(edges: seq<SmEdge>, p: map<string, Option<string>>, rank: string -> nat, key: Option<string>)
    requires Climbs(p, rank)
    ensures AreEdges(EdgesUnder(edges, p, rank, key))
  {
    hide Climbs, Lca;
    if edges != [] {
      AreEdgesUnder(edges[..|edges| - 1], p, rank, key);
    }
  }
}
