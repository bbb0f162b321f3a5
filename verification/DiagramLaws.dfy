/** Nothing is lost in a state machine diagram (fpp_diagram/src/sprotty.rs:183-289). */
module DiagramLaws {
  import opened Wrappers
  import opened Diagrams

  // ---- Chains in a forest ---------------------------------------------------------------------

  lemma ParentOfLast(nodes: seq<SmNode>)
    requires nodes != []
    ensures var init, last := nodes[..|nodes| - 1], nodes[|nodes| - 1];
            && ParentOf(nodes) == ParentOf(init)[last.id := last.parent]
            && (forall n :: n in nodes <==> n in init || n == last)
  {
    assert nodes == nodes[..|nodes| - 1] + [nodes[|nodes| - 1]];
  }

  lemma {:induction false} ParentOfEach(nodes: seq<SmNode>)
    requires DistinctIds(nodes)
    ensures forall n :: n in nodes ==> n.id in ParentOf(nodes) && ParentOf(nodes)[n.id] == n.parent
    ensures forall id :: id in ParentOf(nodes) ==> exists n :: n in nodes && n.id == id
  {
    hide ParentOf;
    if nodes == [] {
      NoParents();
    } else {
      var init, last := nodes[..|nodes| - 1], nodes[|nodes| - 1];
      ParentOfEach(init);
      ParentOfLast(nodes);
      LastIsDistinct(nodes);
      forall id | id in ParentOf(init)
        ensures exists n :: n in nodes && n.id == id
      {
        var n :| n in init && n.id == id;
        assert n in nodes;
      }
      assert last in nodes && last.id == last.id;
    }
  }

  lemma NoParents()
    ensures ParentOf([]) == map[]
  {
  }

  lemma LastIsDistinct(nodes: seq<SmNode>)
    requires nodes != [] && DistinctIds(nodes)
    ensures forall n :: n in nodes[..|nodes| - 1] ==> n.id != nodes[|nodes| - 1].id
  {
    forall n | n in nodes[..|nodes| - 1]
      ensures n.id != nodes[|nodes| - 1].id
    {
      var i :| 0 <= i < |nodes| - 1 && nodes[i] == n;
    }
  }

  /** In a forest, walking up always ends. */
  lemma ForestClimbs(f: Forest)
    requires f.Valid()
    ensures Climbs(ParentOf(f.nodes), f.rank)
    ensures forall n :: n in f.nodes ==> Up(ParentOf(f.nodes), n.id) == n.parent
    ensures forall id :: id in ParentOf(f.nodes) ==> f.Has(id)
  {
    ParentOfEach(f.nodes);
  }

  ghost function ChainOf(f: Forest, id: string): seq<string>
    requires f.Valid()
  {
    ForestClimbs(f);
    Chain(ParentOf(f.nodes), f.rank, id)
  }

  lemma ChainOfNode(f: Forest, n: SmNode)
    requires f.Valid() && n in f.nodes
    ensures n.id in ChainOf(f, n.id)
    ensures n.parent.Some? ==> ChainOf(f, n.id) == [n.id] + ChainOf(f, n.parent.value)
    ensures n.parent.None? ==> ChainOf(f, n.id) == [n.id]
  {
    ForestClimbs(f);
    ChainStep(ParentOf(f.nodes), f.rank, n.id);
  }

  lemma ChainAbove(f: Forest, a: string, x: string)
    requires f.Valid() && x in ChainOf(f, a)
    ensures forall y :: y in ChainOf(f, x) ==> y in ChainOf(f, a)
    ensures f.rank(x) <= f.rank(a) && (x != a ==> f.rank(x) < f.rank(a))
  {
    ForestClimbs(f);
    ChainOfAncestor(ParentOf(f.nodes), f.rank, a, x);
  }

  /** Of two nodes around the same node, one is around the other. */
  lemma {:induction false} ChainIsLinear(f: Forest, x: string, a: string, b: string)
    requires f.Valid() && a in ChainOf(f, x) && b in ChainOf(f, x)
    ensures a in ChainOf(f, b) || b in ChainOf(f, a)
    decreases f.rank(x)
  {
    ForestClimbs(f);
    var p := ParentOf(f.nodes);
    ChainStep(p, f.rank, x);
    if a != x && b != x {
      ClimbsUp(p, f.rank, x);
      ChainIsLinear(f, Up(p, x).value, a, b);
    }
  }

  lemma NotUnderSibling(f: Forest, a: SmNode, b: SmNode)
    requires f.Valid() && a in f.nodes && b in f.nodes && a.parent == b.parent && a.id != b.id
    ensures a.id !in ChainOf(f, b.id)
  {
    hide ChainOf;
    ChainOfNode(f, b);
    if b.parent.Some? {
      var p := b.parent.value;
      forall x | x in ChainOf(f, p)
        ensures x != a.id
      {
        ChainAbove(f, p, x);
      }
    }
  }

  /** No node is in two children of the same node. */
  lemma SiblingsApart(f: Forest, x: string, a: SmNode, b: SmNode)
    requires f.Valid() && a in f.nodes && b in f.nodes && a.parent == b.parent && a.id != b.id
    requires a.id in ChainOf(f, x)
    ensures b.id !in ChainOf(f, x)
  {
    hide ChainOf;
    NotUnderSibling(f, a, b);
    NotUnderSibling(f, b, a);
    if b.id in ChainOf(f, x) {
      ChainIsLinear(f, x, a.id, b.id);
    }
  }

  // ---- Every node once ------------------------------------------------------------------------

  lemma {:induction false} VisitIsBelow(f: Forest, n: SmNode)
    requires f.Valid() && n in f.nodes
    ensures forall x :: x in Visit(f, n) ==> x in f.nodes && n.id in ChainOf(f, x.id)
    decreases f.bound - f.rank(n.id), 1, 0
  {
    hide ChainOf;
    ChainOfNode(f, n);
    KidsAre(f.nodes, Some(n.id));
    VisitAllIsBelow(f, KidsOf(f, n), f.rank(n.id));
    forall x | x in VisitAll(f, KidsOf(f, n), f.rank(n.id))
      ensures n.id in ChainOf(f, x.id)
    {
      var k :| k in KidsOf(f, n) && k.id in ChainOf(f, x.id);
      ChainOfNode(f, k);
      ChainOfSelf(f, n);
      ChainAbove(f, x.id, k.id);
    }
  }

  lemma ChainOfSelf(f: Forest, n: SmNode)
    requires f.Valid() && n in f.nodes
    ensures forall k :: k in f.nodes && k.parent == Some(n.id) ==> n.id in ChainOf(f, k.id)
  {
    hide ChainOf;
    ChainOfNode(f, n);
    forall k | k in f.nodes && k.parent == Some(n.id)
      ensures n.id in ChainOf(f, k.id)
    {
      ChainOfNode(f, k);
    }
  }

  lemma {:induction false} VisitAllIsBelow(f: Forest, kids: seq<SmNode>, floor: int)
    requires f.Valid() && AreBelow(f, kids, floor)
    ensures forall x :: x in VisitAll(f, kids, floor) ==> x in f.nodes && exists k :: k in kids && k.id in ChainOf(f, x.id)
    decreases f.bound - floor, 0, |kids|
  {
    hide ChainOf, Visit;
    if kids != [] {
      var init, last := kids[..|kids| - 1], kids[|kids| - 1];
      VisitAllIsBelow(f, init, floor);
      VisitIsBelow(f, last);
      forall x | x in VisitAll(f, kids, floor)
        ensures x in f.nodes && exists k :: k in kids && k.id in ChainOf(f, x.id)
      {
        if x in VisitAll(f, init, floor) {
          var k :| k in init && k.id in ChainOf(f, x.id);
          assert k in kids;
        } else {
          assert last in kids;
        }
      }
    }
  }

  ghost predicate ApartIds(vs: seq<SmNode>, ws: seq<SmNode>) {
    forall v, w :: v in vs && w in ws ==> v.id != w.id
  }

  lemma DistinctConcat(vs: seq<SmNode>, ws: seq<SmNode>)
    requires DistinctIds(vs) && DistinctIds(ws) && ApartIds(vs, ws)
    ensures DistinctIds(vs + ws)
  {
    forall i, j | 0 <= i < j < |vs + ws|
      ensures (vs + ws)[i].id != (vs + ws)[j].id
    {
      if i < |vs| <= j {
        assert vs[i] in vs && ws[j - |vs|] in ws;
      }
    }
  }

  lemma {:induction false} KidsAreDistinct(nodes: seq<SmNode>, parent: Option<string>)
    requires DistinctIds(nodes)
    ensures DistinctIds(Kids(nodes, parent))
  {
    if nodes != [] {
      var init, last := nodes[..|nodes| - 1], nodes[|nodes| - 1];
      KidsAreDistinct(init, parent);
      KidsAre(init, parent);
      forall v | v in Kids(init, parent)
        ensures v.id != last.id
      {
        var i :| 0 <= i < |init| && init[i] == v;
        assert nodes[i].id != nodes[|nodes| - 1].id;
      }
      if last.parent == parent {
        DistinctConcat(Kids(init, parent), [last]);
      }
    }
  }

  /** Children of the same node. */
  ghost predicate AreSiblings(kids: seq<SmNode>) {
    DistinctIds(kids) && forall a, b :: a in kids && b in kids ==> a.parent == b.parent
  }

  lemma KidsAreSiblings(f: Forest, parent: Option<string>)
    requires f.Valid()
    ensures AreSiblings(Kids(f.nodes, parent))
  {
    KidsAre(f.nodes, parent);
    KidsAreDistinct(f.nodes, parent);
  }

  /** What is below one child is not below another. */
  lemma SubtreesApart(f: Forest, kids: seq<SmNode>, floor: int, i: nat)
    requires f.Valid() && AreBelow(f, kids, floor) && AreSiblings(kids) && i < |kids|
    ensures AreBelow(f, kids[..i], floor) && kids[i] in f.nodes
    ensures ApartIds(VisitAll(f, kids[..i], floor), Visit(f, kids[i]))
  {
    hide ChainOf, Visit, VisitAll;
    assert kids[i] in kids;
    VisitAllIsBelow(f, kids[..i], floor);
    VisitIsBelow(f, kids[i]);
    forall v, w | v in VisitAll(f, kids[..i], floor) && w in Visit(f, kids[i])
      ensures v.id != w.id
    {
      var k :| k in kids[..i] && k.id in ChainOf(f, v.id);
      var j :| 0 <= j < i && kids[..i][j] == k;
      assert kids[j] == k && k in kids && kids[j].id != kids[i].id;
      SiblingsApart(f, v.id, k, kids[i]);
    }
  }

  lemma {:induction false} VisitOnce(f: Forest, n: SmNode)
    requires f.Valid() && n in f.nodes
    ensures DistinctIds(Visit(f, n))
    ensures ApartIds([n], VisitAll(f, KidsOf(f, n), f.rank(n.id)))
    decreases f.bound - f.rank(n.id), 1, 0
  {
    hide ChainOf, VisitAll;
    var kids := KidsOf(f, n);
    KidsAreSiblings(f, Some(n.id));
    VisitAllOnce(f, kids, f.rank(n.id));
    VisitAllIsBelow(f, kids, f.rank(n.id));
    forall x | x in VisitAll(f, kids, f.rank(n.id))
      ensures x.id != n.id
    {
      var k :| k in kids && k.id in ChainOf(f, x.id);
      ChainAbove(f, x.id, k.id);
    }
    DistinctConcat([n], VisitAll(f, kids, f.rank(n.id)));
  }

  lemma {:induction false} VisitAllOnce(f: Forest, kids: seq<SmNode>, floor: int)
    requires f.Valid() && AreBelow(f, kids, floor) && AreSiblings(kids)
    ensures DistinctIds(VisitAll(f, kids, floor))
    decreases f.bound - floor, 0, |kids|
  {
    hide Visit;
    if kids != [] {
      var init, last := kids[..|kids| - 1], kids[|kids| - 1];
      VisitAllOnce(f, init, floor);
      VisitOnce(f, last);
      SubtreesApart(f, kids, floor, |kids| - 1);
      DistinctConcat(VisitAll(f, init, floor), Visit(f, last));
    }
  }

  // ---- Every node at all ----------------------------------------------------------------------

  lemma {:induction false} VisitIsClosed(f: Forest, n: SmNode, x: SmNode, y: SmNode)
    requires f.Valid() && n in f.nodes && x in Visit(f, n) && y in f.nodes && y.parent == Some(x.id)
    requires x in f.nodes
    ensures y in Visit(f, n)
    decreases f.bound - f.rank(n.id), 1, 0
  {
    hide VisitAll;
    var kids := KidsOf(f, n);
    if x == n {
      KidsAre(f.nodes, Some(n.id));
      VisitedKid(f, kids, f.rank(n.id), y);
    } else {
      VisitAllIsClosed(f, kids, f.rank(n.id), x, y);
    }
  }

  lemma {:induction false} VisitAllIsClosed(f: Forest, kids: seq<SmNode>, floor: int, x: SmNode, y: SmNode)
    requires f.Valid() && AreBelow(f, kids, floor) && x in VisitAll(f, kids, floor) && x in f.nodes
    requires y in f.nodes && y.parent == Some(x.id)
    ensures y in VisitAll(f, kids, floor)
    decreases f.bound - floor, 0, |kids|
  {
    hide Visit;
    var init, last := kids[..|kids| - 1], kids[|kids| - 1];
    if x in VisitAll(f, init, floor) {
      VisitAllIsClosed(f, init, floor, x, y);
    } else {
      VisitIsClosed(f, last, x, y);
    }
  }

  lemma {:induction false} VisitedKid(f: Forest, kids: seq<SmNode>, floor: int, k: SmNode)
    requires f.Valid() && AreBelow(f, kids, floor) && k in kids
    ensures k in VisitAll(f, kids, floor)
    decreases |kids|
  {
    if k == kids[|kids| - 1] {
      assert k in Visit(f, k);
    } else {
      VisitedKid(f, kids[..|kids| - 1], floor, k);
    }
  }

  lemma {:induction false} EveryNodeIsVisited(f: Forest, n: SmNode)
    requires f.Valid() && n in f.nodes
    ensures n in VisitAll(f, Roots(f), -1)
    decreases f.rank(n.id)
  {
    hide VisitAll;
    KidsAre(f.nodes, None);
    if n.parent.None? {
      VisitedKid(f, Roots(f), -1, n);
    } else {
      var p :| p in f.nodes && p.id == n.parent.value;
      EveryNodeIsVisited(f, p);
      VisitAllIsClosed(f, Roots(f), -1, p, n);
    }
  }

  /** The walk over the forest meets each node once. */
  lemma WalkMeetsEachNodeOnce(f: Forest)
    requires f.Valid()
    ensures DistinctIds(VisitAll(f, Roots(f), -1))
    ensures forall n :: n in VisitAll(f, Roots(f), -1) <==> n in f.nodes
  {
    hide VisitAll, ChainOf;
    KidsAreSiblings(f, None);
    VisitAllOnce(f, Roots(f), -1);
    VisitAllIsBelow(f, Roots(f), -1);
    forall n | n in f.nodes
      ensures n in VisitAll(f, Roots(f), -1)
    {
      EveryNodeIsVisited(f, n);
    }
  }
}
