/** Lowering a state machine diagram to a tree of elements (fpp_diagram/src/sprotty.rs:183-344). */
module Diagrams {
  import opened Wrappers

  datatype NodeKind = Initial | StateKind | Choice

  datatype SmNode = SmNode(id: string, parent: Option<string>, kind: NodeKind, depth: nat, text: string, detail: string)

  datatype SmEdge = SmEdge(id: string, source: string, target: string, text: string, detail: string)

  datatype Element =
    | Graph(children: seq<Element>)
    | StateNode(id: string, depth: nat, detail: string, children: seq<Element>)
    | ChoiceNode(id: string, depth: nat, children: seq<Element>)
    | InitialNode(id: string)
    | StateLabel(id: string, text: string)
    | TransitionEdge(id: string, source: string, target: string, detail: string, children: seq<Element>)
    | TransitionLabel(id: string, text: string)

  ghost predicate DistinctIds(vs: seq<SmNode>) {
    forall i, j :: 0 <= i < j < |vs| ==> vs[i].id != vs[j].id
  }

  /** The nodes of a diagram. `rank` shows that no node is above itself. */
  datatype Forest = Forest(nodes: seq<SmNode>, rank: string -> nat, bound: nat) {
    ghost predicate Valid() {
      && DistinctIds(nodes)
      && (forall n :: n in nodes ==> rank(n.id) <= bound)
      && (forall n :: n in nodes && n.parent.Some? ==> Has(n.parent.value) && rank(n.parent.value) < rank(n.id))
    }

    ghost predicate Has(id: string) {
      exists n :: n in nodes && n.id == id
    }
  }

  // ---- Parents ------------------------------------------------------------------------------

  /** The parent of each node, by id. */
  function ParentOf(nodes: seq<SmNode>): map<string, Option<string>> {
    if nodes == [] then
      map[]
    else
      ParentOf(nodes[..|nodes| - 1])[nodes[|nodes| - 1].id := nodes[|nodes| - 1].parent]
  }

  function Up(parentOf: map<string, Option<string>>, id: string): Option<string> {
    if id in parentOf then parentOf[id] else None
  }

  ghost predicate Climbs(parentOf: map<string, Option<string>>, rank: string -> nat) {
    forall id :: Up(parentOf, id).Some? ==> rank(Up(parentOf, id).value) < rank(id)
  }

  /** A node and those around it, from the inside out. */
  ghost function Chain(parentOf: map<string, Option<string>>, rank: string -> nat, id: string): seq<string>
    requires Climbs(parentOf, rank)
    decreases rank(id)
  {
    [id] + if Up(parentOf, id).Some? then Chain(parentOf, rank, Up(parentOf, id).value) else []
  }

  lemma ChainStep(parentOf: map<string, Option<string>>, rank: string -> nat, id: string)
    requires Climbs(parentOf, rank)
    ensures id in Chain(parentOf, rank, id)
    ensures Up(parentOf, id).Some? ==>
        Chain(parentOf, rank, id) == [id] + Chain(parentOf, rank, Up(parentOf, id).value)
    ensures Up(parentOf, id).None? ==> Chain(parentOf, rank, id) == [id]
  {
    assert [id] + [] == [id];
  }

  /** The innermost node around both: it is around both, and whatever is around both is around it. */
  ghost predicate IsInnermost(parentOf: map<string, Option<string>>, rank: string -> nat, a: string, b: string,
                              lca: Option<string>)
    requires Climbs(parentOf, rank)
  {
    && (lca.Some? ==> lca.value in Chain(parentOf, rank, a) && lca.value in Chain(parentOf, rank, b))
    && forall x :: x in Chain(parentOf, rank, a) && x in Chain(parentOf, rank, b) ==>
         lca.Some? && x in Chain(parentOf, rank, lca.value)
  }

  /** The ancestors of a node, itself included. */
  method AncestorsOf(parentOf: map<string, Option<string>>, ghost rank: string -> nat, a: string)
    returns (chain: seq<string>)
    requires Climbs(parentOf, rank)
    ensures chain == Chain(parentOf, rank, a)
  {
    hide Chain, Climbs;
    var cur := a;
    chain := [a];
    ghost var before: seq<string> := [];
    assert [] + Chain(parentOf, rank, a) == Chain(parentOf, rank, a);
    while Up(parentOf, cur).Some?
      invariant chain == before + [cur]
      invariant Chain(parentOf, rank, a) == before + Chain(parentOf, rank, cur)
      decreases rank(cur)
    {
      ChainStep(parentOf, rank, cur);
      ClimbsUp(parentOf, rank, cur);
      var p := Up(parentOf, cur).value;
      assert before + ([cur] + Chain(parentOf, rank, p)) == before + [cur] + Chain(parentOf, rank, p);
      before := before + [cur];
      chain := chain + [p];
      cur := p;
    }
    ChainStep(parentOf, rank, cur);
  }

  method LcaOf(parentOf: map<string, Option<string>>, ghost rank: string -> nat, a: string, b: string)
    returns (lca: Option<string>)
    requires Climbs(parentOf, rank)
    ensures lca == Lca(parentOf, rank, a, b)
  {
    hide Chain, Climbs, Lca;
    var aChain := AncestorsOf(parentOf, rank, a);
    var aSet := set x | x in aChain;
    var cur := b;
    while true
      invariant Lca(parentOf, rank, a, b) == Lca(parentOf, rank, a, cur)
      decreases rank(cur)
    {
      LcaStep(parentOf, rank, a, cur);
      if cur in aSet {
        return Some(cur);
      }
      if Up(parentOf, cur).None? {
        return None;
      }
      ClimbsUp(parentOf, rank, cur);
      cur := Up(parentOf, cur).value;
    }
  }

  /** The first node above `b` that is around `a`. */
  ghost function Lca(parentOf: map<string, Option<string>>, rank: string -> nat, a: string, b: string): Option<string>
    requires Climbs(parentOf, rank)
    decreases rank(b)
  {
    if b in Chain(parentOf, rank, a) then
      Some(b)
    else if Up(parentOf, b).Some? then
      Lca(parentOf, rank, a, Up(parentOf, b).value)
    else
      None
  }

  lemma LcaStep(parentOf: map<string, Option<string>>, rank: string -> nat, a: string, b: string)
    requires Climbs(parentOf, rank)
    ensures b in Chain(parentOf, rank, a) ==> Lca(parentOf, rank, a, b) == Some(b)
    ensures b !in Chain(parentOf, rank, a) ==>
        Lca(parentOf, rank, a, b)
        == if Up(parentOf, b).Some? then Lca(parentOf, rank, a, Up(parentOf, b).value) else None
  {
  }

  lemma ClimbsUp(parentOf: map<string, Option<string>>, rank: string -> nat, id: string)
    requires Climbs(parentOf, rank) && Up(parentOf, id).Some?
    ensures rank(Up(parentOf, id).value) < rank(id)
  {
  }

  /** What is around a node around `a` is around `a`. */
  lemma {:induction false} ChainOfAncestor(parentOf: map<string, Option<string>>, rank: string -> nat, a: string, x: string)
    requires Climbs(parentOf, rank) && x in Chain(parentOf, rank, a)
    ensures forall y :: y in Chain(parentOf, rank, x) ==> y in Chain(parentOf, rank, a)
    ensures rank(x) <= rank(a) && (x != a ==> rank(x) < rank(a))
    decreases rank(a)
  {
    if x != a {
      ChainStep(parentOf, rank, a);
      ChainOfAncestor(parentOf, rank, Up(parentOf, a).value, x);
    }
  }

  /** An edge is drawn in the innermost node around both its ends. */
  lemma {:induction false} LcaIsInnermost(parentOf: map<string, Option<string>>, rank: string -> nat, a: string, b: string)
    requires Climbs(parentOf, rank)
    ensures IsInnermost(parentOf, rank, a, b, Lca(parentOf, rank, a, b))
    decreases rank(b)
  {
    ChainStep(parentOf, rank, b);
    if b !in Chain(parentOf, rank, a) && Up(parentOf, b).Some? {
      LcaIsInnermost(parentOf, rank, a, Up(parentOf, b).value);
    }
  }

  // ---- Grouping -----------------------------------------------------------------------------

  function Look<T>(m: map<Option<string>, seq<T>>, key: Option<string>): seq<T> {
    if key in m then m[key] else []
  }

  /** The nodes with a parent, in order. */
  function Kids(nodes: seq<SmNode>, parent: Option<string>): seq<SmNode> {
    if nodes == [] then
      []
    else
      var last := nodes[|nodes| - 1];
      Kids(nodes[..|nodes| - 1], parent) + if last.parent == parent then [last] else []
  }

  method GroupByParent(nodes: seq<SmNode>) returns (childrenOf: map<Option<string>, seq<SmNode>>)
    ensures forall key :: Look(childrenOf, key) == Kids(nodes, key)
  {
    childrenOf := map[];
    for i := 0 to |nodes|
      invariant forall key :: Look(childrenOf, key) == Kids(nodes[..i], key)
    {
      assert nodes[..i + 1][..i] == nodes[..i];
      childrenOf := childrenOf[nodes[i].parent := Look(childrenOf, nodes[i].parent) + [nodes[i]]];
    }
    assert nodes[..|nodes|] == nodes;
  }

  method ParentsById(nodes: seq<SmNode>) returns (parentOf: map<string, Option<string>>)
    ensures parentOf == ParentOf(nodes)
  {
    parentOf := map[];
    for i := 0 to |nodes|
      invariant parentOf == ParentOf(nodes[..i])
    {
      assert nodes[..i + 1][..i] == nodes[..i];
      parentOf := parentOf[nodes[i].id := nodes[i].parent];
    }
    assert nodes[..|nodes|] == nodes;
  }

  function TransitionEdgeElement(edge: SmEdge): Element {
    TransitionEdge(edge.id, edge.source, edge.target, edge.detail,
                   if edge.text == "" then [] else [TransitionLabel(edge.id + ".label", edge.text)])
  }

  /** The elements of the edges that belong under a node, or at the root, in order. */
  ghost function EdgesUnder(edges: seq<SmEdge>, parentOf: map<string, Option<string>>, rank: string -> nat,
                            key: Option<string>): seq<Element>
    requires Climbs(parentOf, rank)
  {
    if edges == [] then
      []
    else
      var last := edges[|edges| - 1];
      EdgesUnder(edges[..|edges| - 1], parentOf, rank, key)
      + if Lca(parentOf, rank, last.source, last.target) == key then [TransitionEdgeElement(last)] else []
  }

  method GroupByLca(edges: seq<SmEdge>, parentOf: map<string, Option<string>>, ghost rank: string -> nat)
    returns (edgesOf: map<Option<string>, seq<Element>>)
    requires Climbs(parentOf, rank)
    ensures forall key :: Look(edgesOf, key) == EdgesUnder(edges, parentOf, rank, key)
  {
    hide Climbs, Lca;
    edgesOf := map[];
    for i := 0 to |edges|
      invariant forall key :: Look(edgesOf, key) == EdgesUnder(edges[..i], parentOf, rank, key)
    {
      var lca := LcaOf(parentOf, rank, edges[i].source, edges[i].target);
      assert edges[..i + 1][..i] == edges[..i];
      edgesOf := edgesOf[lca := Look(edgesOf, lca) + [TransitionEdgeElement(edges[i])]];
    }
    assert edges[..|edges|] == edges;
  }

  // ---- Nodes below a node ---------------------------------------------------------------------

  /** Whether these are nodes of the forest, further from the roots than `floor`. */
  ghost predicate AreBelow(f: Forest, kids: seq<SmNode>, floor: int) {
    forall k :: k in kids ==> k in f.nodes && floor < f.rank(k.id)
  }

  lemma {:induction false} KidsAre(nodes: seq<SmNode>, parent: Option<string>)
    ensures forall k :: k in Kids(nodes, parent) <==> k in nodes && k.parent == parent
  {
    if nodes != [] {
      KidsAre(nodes[..|nodes| - 1], parent);
      assert nodes == nodes[..|nodes| - 1] + [nodes[|nodes| - 1]];
    }
  }

  ghost function KidsOf(f: Forest, n: SmNode): (kids: seq<SmNode>)
    requires f.Valid() && n in f.nodes
    ensures AreBelow(f, kids, f.rank(n.id))
  {
    KidsAre(f.nodes, Some(n.id));
    Kids(f.nodes, Some(n.id))
  }

  ghost function Roots(f: Forest): (roots: seq<SmNode>)
    requires f.Valid()
    ensures AreBelow(f, roots, -1)
  {
    KidsAre(f.nodes, None);
    Kids(f.nodes, None)
  }

  /** A node and all below it. */
  ghost function Visit(f: Forest, n: SmNode): seq<SmNode>
    requires f.Valid() && n in f.nodes
    decreases f.bound - f.rank(n.id), 1, 0
  {
    [n] + VisitAll(f, KidsOf(f, n), f.rank(n.id))
  }

  ghost function VisitAll(f: Forest, kids: seq<SmNode>, floor: int): seq<SmNode>
    requires f.Valid() && AreBelow(f, kids, floor)
    decreases f.bound - floor, 0, |kids|
  {
    if kids == [] then
      []
    else
      var k := kids[|kids| - 1];
      assert f.rank(k.id) <= f.bound;
      VisitAll(f, kids[..|kids| - 1], floor) + Visit(f, k)
  }

  // ---- Lowering -------------------------------------------------------------------------------

  function SmNodeLabel(n: SmNode): Element {
    StateLabel(n.id + ".label", n.text)
  }

  function NodeElement(n: SmNode, nested: seq<Element>): Element {
    match n.kind
    case Initial => InitialNode(n.id)
    case StateKind => StateNode(n.id, n.depth, n.detail, [SmNodeLabel(n)] + nested)
    case Choice => ChoiceNode(n.id, n.depth, [SmNodeLabel(n)] + nested)
  }

  /** The element of a node: its label, the elements of its children, then its edges. */
  ghost function Lowered(f: Forest, under: Option<string> -> seq<Element>, n: SmNode): Element
    requires f.Valid() && n in f.nodes
    decreases f.bound - f.rank(n.id), 1, 0
  {
    NodeElement(n, LoweredAll(f, under, KidsOf(f, n), f.rank(n.id)) + under(Some(n.id)))
  }

  ghost function LoweredAll(f: Forest, under: Option<string> -> seq<Element>, kids: seq<SmNode>, floor: int): seq<Element>
    requires f.Valid() && AreBelow(f, kids, floor)
    decreases f.bound - floor, 0, |kids|
  {
    if kids == [] then
      []
    else
      var k := kids[|kids| - 1];
      assert f.rank(k.id) <= f.bound;
      LoweredAll(f, under, kids[..|kids| - 1], floor) + [Lowered(f, under, k)]
  }

  ghost function KeysOf(vs: seq<SmNode>): set<Option<string>> {
    set v | v in vs :: Some(v.id)
  }
}
