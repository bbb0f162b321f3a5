/** The whole of `state_machine_to_smodel` (fpp_diagram/src/sprotty.rs:183-233). */
module DiagramWhole {
  import opened Wrappers
  import opened Diagrams
  import opened DiagramLaws
  import opened DiagramTree

  /** Where each edge belongs. */
  ghost function UnderOf(f: Forest, edges: seq<SmEdge>): Option<string> -> seq<Element>
    requires f.Valid()
  {
    ForestClimbs(f);
    Under(edges, ParentOf(f.nodes), f.rank)
  }

  ghost function EdgesOfDiagram(f: Forest, edges: seq<SmEdge>): multiset<Placed>
    requires f.Valid()
  {
    ForestClimbs(f);
    AllEdges(edges, ParentOf(f.nodes), f.rank)
  }

  /** The lowered diagram: the top-level nodes, then the edges of the root. */
  ghost function GraphOf(f: Forest, edges: seq<SmEdge>): Element
    requires f.Valid()
  {
    Graph(LoweredAll(f, UnderOf(f, edges), Roots(f), -1) + UnderOf(f, edges)(None))
  }

  method StateMachineToSModel(nodes: seq<SmNode>, edges: seq<SmEdge>, ghost f: Forest) returns (graph: Element)
    requires f.Valid() && f.nodes == nodes
    ensures graph == GraphOf(f, edges)
  {
    hide VisitAll, LoweredAll, KeysOf, HaveEdges, DistinctIds, Climbs, ParentOf, Lca, EdgesUnder, Kids;
    ForestClimbs(f);
    var childrenOf := GroupByParent(nodes);
    var parentOf := ParentsById(nodes);
    var edgesOf := GroupByLca(edges, parentOf, f.rank);
    var roots := Look(childrenOf, None);
    KidsAreSiblings(f, None);
    assert roots == Roots(f);
    AllHaveEdges(edgesOf, UnderOf(f, edges), VisitAll(f, roots, -1));
    var lowering := new Lowering(f, UnderOf(f, edges), childrenOf, edgesOf);
    var children := lowering.LowerAll(roots, -1);
    RootKey(VisitAll(f, roots, -1));
    if None in lowering.edgesOf {
      children := children + lowering.edgesOf[None];
    } else {
      assert children + [] == children;
    }
    graph := Graph(children);
  }

  lemma AllHaveEdges(edgesOf: map<Option<string>, seq<Element>>, under: Option<string> -> seq<Element>, vs: seq<SmNode>)
    requires forall key :: Look(edgesOf, key) == under(key)
    ensures HaveEdges(edgesOf, under, vs)
  {
  }

  lemma RootKey(vs: seq<SmNode>)
    ensures None !in KeysOf(vs)
  {
  }

  // ---- The same nodes --------------------------------------------------------------------------

  ghost predicate HasNode(vs: seq<SmNode>, x: Placed) {
    exists v :: v in vs && x == NodePlace(v)
  }

  lemma {:induction false} NodesOnce(vs: seq<SmNode>, x: Placed)
    requires DistinctIds(vs)
    ensures NodesOf(vs)[x] == if HasNode(vs, x) then 1 else 0
  {
    hide HasNode;
    if vs != [] {
      var init, last := vs[..|vs| - 1], vs[|vs| - 1];
      NodesOnce(init, x);
      LastIsDistinct(vs);
      assert vs == init + [last] && last in vs;
      HasNodeLast(init, last, x);
      PlacedOnce(init, last, x);
    } else {
      HasNone(x);
    }
  }

  lemma HasNone(x: Placed)
    ensures !HasNode([], x)
  {
  }

  /** Nodes with other ids are not in the place of this one. */
  lemma PlacedOnce(vs: seq<SmNode>, v: SmNode, x: Placed)
    requires forall w :: w in vs ==> w.id != v.id
    ensures !(HasNode(vs, x) && x == NodePlace(v))
  {
  }

  lemma HasNodeLast(vs: seq<SmNode>, v: SmNode, x: Placed)
    ensures HasNode(vs + [v], x) <==> HasNode(vs, x) || x == NodePlace(v)
  {
    hide NodePlace;
    var all := vs + [v];
    assert all[|vs|] == v;
    forall w | w in vs
      ensures w in all
    {
    }
  }

  /** Lists of the same nodes, without repeats, hold the same. */
  lemma SameNodes(vs: seq<SmNode>, ws: seq<SmNode>)
    requires DistinctIds(vs) && DistinctIds(ws) && forall n :: n in vs <==> n in ws
    ensures NodesOf(vs) == NodesOf(ws)
  {
    forall x
      ensures NodesOf(vs)[x] == NodesOf(ws)[x]
    {
      NodesOnce(vs, x);
      NodesOnce(ws, x);
    }
  }

  // ---- Nothing is lost ---------------------------------------------------------------------------

  /** What a caller can check: initial nodes have neither children nor edges to themselves. */
  ghost predicate InitialsStandAlone(f: Forest, edges: seq<SmEdge>) {
    forall n :: n in f.nodes && n.kind == Initial ==>
      && (forall k :: k in f.nodes ==> k.parent != Some(n.id))
      && (forall e :: e in edges ==> !(e.source == e.target == n.id))
  }

  ghost predicate EndsExist(f: Forest, edges: seq<SmEdge>) {
    forall e :: e in edges ==> f.Has(e.source) && f.Has(e.target)
  }

  /** Everything around a node is a node, and has a child unless it is the node itself. */
  lemma {:induction false} AroundIsParent(f: Forest, n: SmNode, x: string)
    requires f.Valid() && n in f.nodes && x in ChainOf(f, n.id)
    ensures f.Has(x)
    ensures x != n.id ==> exists k :: k in f.nodes && k.parent == Some(x)
    decreases f.rank(n.id)
  {
    hide ChainOf;
    ChainOfNode(f, n);
    if x != n.id {
      var p :| p in f.nodes && p.id == n.parent.value;
      AroundIsParent(f, p, x);
      if x == p.id {
        assert n.parent == Some(x);
      }
    }
  }

  lemma LcaIsAround(f: Forest, a: string, b: string)
    requires f.Valid()
    ensures Climbs(ParentOf(f.nodes), f.rank)
    ensures var lca := Lca(ParentOf(f.nodes), f.rank, a, b);
            lca.Some? ==> lca.value in ChainOf(f, a) && lca.value in ChainOf(f, b)
    ensures a == b ==> Lca(ParentOf(f.nodes), f.rank, a, b) == Some(a)
  {
    ForestClimbs(f);
    LcaIsInnermost(ParentOf(f.nodes), f.rank, a, b);
    ChainStep(ParentOf(f.nodes), f.rank, a);
  }

  /** An edge that belongs under a node without children is an edge from that node to itself. */
  lemma LcaOfLeaf(f: Forest, edges: seq<SmEdge>, e: SmEdge, id: string)
    requires f.Valid() && EndsExist(f, edges) && e in edges
    requires Climbs(ParentOf(f.nodes), f.rank) && LcaOfEdge(ParentOf(f.nodes), f.rank, e) == Some(id)
    ensures f.Has(id)
    ensures (forall k :: k in f.nodes ==> k.parent != Some(id)) ==> e.source == e.target == id
  {
    LcaIsAround(f, e.source, e.target);
    var s :| s in f.nodes && s.id == e.source;
    var t :| t in f.nodes && t.id == e.target;
    AroundIsParent(f, s, id);
    AroundIsParent(f, t, id);
  }

  lemma {:induction false} UnderIsNot(f: Forest, edges: seq<SmEdge>, key: Option<string>)
    requires f.Valid() && Climbs(ParentOf(f.nodes), f.rank)
    requires forall e :: e in edges ==> LcaOfEdge(ParentOf(f.nodes), f.rank, e) != key
    ensures EdgesUnder(edges, ParentOf(f.nodes), f.rank, key) == []
  {
    hide Climbs, Lca, ParentOf;
    if edges != [] {
      assert edges[|edges| - 1] in edges;
      UnderIsNot(f, edges[..|edges| - 1], key);
    }
  }

  lemma {:induction false} NoKids(nodes: seq<SmNode>, parent: Option<string>)
    requires forall k :: k in nodes ==> k.parent != parent
    ensures Kids(nodes, parent) == []
  {
    if nodes != [] {
      assert nodes[|nodes| - 1] in nodes;
      NoKids(nodes[..|nodes| - 1], parent);
    }
  }

  lemma NoOwnEdges(f: Forest, edges: seq<SmEdge>, id: string)
    requires f.Valid() && EndsExist(f, edges) && (forall k :: k in f.nodes ==> k.parent != Some(id))
    requires forall e :: e in edges ==> !(e.source == e.target == id)
    ensures UnderOf(f, edges)(Some(id)) == []
  {
    hide ParentOf, Climbs, Lca, EdgesUnder, LcaOfEdge;
    ForestClimbs(f);
    forall e | e in edges
      ensures LcaOfEdge(ParentOf(f.nodes), f.rank, e) != Some(id)
    {
      if LcaOfEdge(ParentOf(f.nodes), f.rank, e) == Some(id) {
        LcaOfLeaf(f, edges, e, id);
      }
    }
    UnderIsNot(f, edges, Some(id));
  }

  lemma StandAloneIsEmpty(f: Forest, edges: seq<SmEdge>)
    requires f.Valid() && EndsExist(f, edges) && InitialsStandAlone(f, edges)
    ensures InitialsAreEmpty(f, UnderOf(f, edges))
  {
    hide UnderOf, EndsExist, Kids, Forest.Valid;
    forall n | n in f.nodes && n.kind == Initial
      ensures Kids(f.nodes, Some(n.id)) == [] && UnderOf(f, edges)(Some(n.id)) == []
    {
      NoKids(f.nodes, Some(n.id));
      NoOwnEdges(f, edges, n.id);
    }
  }

  lemma GraphHolds(f: Forest, edges: seq<SmEdge>)
    requires f.Valid() && EndsExist(f, edges) && InitialsAreEmpty(f, UnderOf(f, edges))
    ensures Contents(GraphOf(f, edges), None) == NodesOf(f.nodes) + EdgesOfDiagram(f, edges)
  {
    hide ParentOf, Climbs, Lca, LoweredAll, VisitAll, NodesOf, EdgesOf, EdgesUnder, ContentsAll, AllEdges, InitialsAreEmpty,
         AreEdges, DistinctIds, HasKey;
    ForestClimbs(f);
    var p, under, roots := ParentOf(f.nodes), UnderOf(f, edges), Roots(f);
    var vs := VisitAll(f, roots, -1);
    forall key
      ensures AreEdges(under(key))
    {
      AreEdgesUnder(edges, p, f.rank, key);
    }
    KidsAre(f.nodes, None);
    LoweredAllHolds(f, under, roots, -1, None);
    ContentsConcat(LoweredAll(f, under, roots, -1), under(None), None);
    WalkMeetsEachNodeOnce(f);
    SameNodes(vs, f.nodes);
    forall e | e in edges
      ensures LcaOfEdge(p, f.rank, e).None? || HasKey(vs, LcaOfEdge(p, f.rank, e))
    {
      if LcaOfEdge(p, f.rank, e).Some? {
        LcaOfLeaf(f, edges, e, LcaOfEdge(p, f.rank, e).value);
        KeyOfNode(f, vs, LcaOfEdge(p, f.rank, e).value);
      }
    }
    EveryEdgeIsGathered(edges, p, f.rank, vs);
  }

  lemma KeyOfNode(f: Forest, vs: seq<SmNode>, id: string)
    requires f.Has(id) && forall n :: n in f.nodes ==> n in vs
    ensures HasKey(vs, Some(id))
  {
  }

  // ---- What is inside an initial node is lost -------------------------------------------------------

  /** Whether a place is the given one or inside a node that is not initial. */
  ghost predicate IsPlace(f: Forest, parent: Option<string>, at: Option<string>) {
    at == parent || exists m :: m in f.nodes && m.kind != Initial && at == Some(m.id)
  }

  ghost predicate AreThere(f: Forest, parent: Option<string>, contents: multiset<Placed>) {
    forall x :: x in contents ==> IsPlace(f, parent, x.parent)
  }

  lemma {:induction false} ThereInLowered(f: Forest, under: Option<string> -> seq<Element>, n: SmNode, parent: Option<string>)
    requires f.Valid() && n in f.nodes && forall key :: AreEdges(under(key))
    ensures AreThere(f, parent, Contents(Lowered(f, under, n), parent))
    decreases f.bound - f.rank(n.id), 1, 0
  {
    hide LoweredAll, ContentsAll, AreEdges, Forest.Valid;
    var kids, floor := KidsOf(f, n), f.rank(n.id);
    if n.kind != Initial {
      var inner := LoweredAll(f, under, kids, floor);
      ThereInLoweredAll(f, under, kids, floor, Some(n.id));
      ThereInEdges(f, under(Some(n.id)), Some(n.id));
      LabelHoldsNothing(n);
      ContentsConcat(inner, under(Some(n.id)), Some(n.id));
      ContentsConcat([SmNodeLabel(n)], inner + under(Some(n.id)), Some(n.id));
    }
  }

  lemma {:induction false} ThereInLoweredAll(f: Forest, under: Option<string> -> seq<Element>, kids: seq<SmNode>, floor: int,
                                             parent: Option<string>)
    requires f.Valid() && AreBelow(f, kids, floor) && forall key :: AreEdges(under(key))
    ensures AreThere(f, parent, ContentsAll(LoweredAll(f, under, kids, floor), parent))
    decreases f.bound - floor, 0, |kids|
  {
    hide Contents, Lowered, AreEdges;
    if kids != [] {
      var init, k := kids[..|kids| - 1], kids[|kids| - 1];
      assert k in kids && f.rank(k.id) <= f.bound;
      ThereInLoweredAll(f, under, init, floor, parent);
      ThereInLowered(f, under, k, parent);
      var before := LoweredAll(f, under, init, floor);
      assert (before + [Lowered(f, under, k)])[..|before|] == before;
    }
  }

  lemma {:induction false} ThereInEdges(f: Forest, es: seq<Element>, parent: Option<string>)
    requires AreEdges(es)
    ensures AreThere(f, parent, ContentsAll(es, parent))
  {
    if es != [] {
      assert es[|es| - 1] in es;
      ThereInEdges(f, es[..|es| - 1], parent);
    }
  }

  lemma ThereInGraph(f: Forest, edges: seq<SmEdge>)
    requires f.Valid()
    ensures AreThere(f, None, Contents(GraphOf(f, edges), None))
  {
    hide ParentOf, Climbs, LoweredAll, ContentsAll, EdgesUnder, AreEdges;
    ForestClimbs(f);
    var under := UnderOf(f, edges);
    forall key
      ensures AreEdges(under(key))
    {
      AreEdgesUnder(edges, ParentOf(f.nodes), f.rank, key);
    }
    ThereInLoweredAll(f, under, Roots(f), -1, None);
    ThereInEdges(f, under(None), None);
    ContentsConcat(LoweredAll(f, under, Roots(f), -1), under(None), None);
  }

  lemma {:induction false} EdgeIsExpected(f: Forest, edges: seq<SmEdge>, e: SmEdge)
    requires f.Valid() && e in edges && Climbs(ParentOf(f.nodes), f.rank)
    ensures EdgePlace(e, LcaOfEdge(ParentOf(f.nodes), f.rank, e)) in EdgesOfDiagram(f, edges)
  {
    hide Lca, ParentOf, Climbs;
    if e != edges[|edges| - 1] {
      EdgeIsExpected(f, edges[..|edges| - 1], e);
    }
  }

  lemma NotInsideInitial(f: Forest, n: SmNode)
    requires f.Valid() && n in f.nodes && n.kind == Initial
    ensures !IsPlace(f, None, Some(n.id))
  {
    forall m | m in f.nodes && m.kind != Initial
      ensures m.id != n.id
    {
      var i :| 0 <= i < |f.nodes| && f.nodes[i] == m;
      var j :| 0 <= j < |f.nodes| && f.nodes[j] == n;
    }
  }

  /** When everything is there, nothing is inside an initial node. */
  lemma KeptMeansStandAlone(f: Forest, edges: seq<SmEdge>)
    requires f.Valid()
    requires Contents(GraphOf(f, edges), None) == NodesOf(f.nodes) + EdgesOfDiagram(f, edges)
    ensures InitialsStandAlone(f, edges)
  {
    hide ParentOf, Climbs, GraphOf, NodesOf, EdgesOfDiagram, Contents, IsPlace, DistinctIds;
    ForestClimbs(f);
    ThereInGraph(f, edges);
    forall n | n in f.nodes && n.kind == Initial
      ensures forall k :: k in f.nodes ==> k.parent != Some(n.id)
      ensures forall e :: e in edges ==> !(e.source == e.target == n.id)
    {
      NotInsideInitial(f, n);
      forall k | k in f.nodes
        ensures k.parent != Some(n.id)
      {
        var x := NodePlace(k);
        NodesOnce(f.nodes, x);
        assert HasNode(f.nodes, x) && x in Contents(GraphOf(f, edges), None);
      }
      forall e | e in edges
        ensures !(e.source == e.target == n.id)
      {
        EdgeIsExpected(f, edges, e);
        LcaIsAround(f, e.source, e.target);
        var x := EdgePlace(e, LcaOfEdge(ParentOf(f.nodes), f.rank, e));
        assert x in Contents(GraphOf(f, edges), None);
      }
    }
  }

  /**
   The tree draws every node once, under its parent, and every edge once, from its source to its
   target in the innermost node around them, if and only if initial nodes have neither children nor
   edges to themselves.
   */
  lemma NothingIsLost(f: Forest, edges: seq<SmEdge>)
    requires f.Valid() && EndsExist(f, edges)
    ensures Contents(GraphOf(f, edges), None) == NodesOf(f.nodes) + EdgesOfDiagram(f, edges)
        <==> InitialsStandAlone(f, edges)
  {
    hide GraphOf, NodesOf, EdgesOfDiagram, Contents, InitialsStandAlone, InitialsAreEmpty, UnderOf, EndsExist;
    if InitialsStandAlone(f, edges) {
      StandAloneIsEmpty(f, edges);
      GraphHolds(f, edges);
    }
    if Contents(GraphOf(f, edges), None) == NodesOf(f.nodes) + EdgesOfDiagram(f, edges) {
      KeptMeansStandAlone(f, edges);
    }
  }
}
