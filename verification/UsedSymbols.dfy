/** Deep resolution of used symbols (fpp_analysis/src/used_symbols.rs:164-223). */
module UsedSymbols {
  import opened Wrappers

  datatype Symbol = EnumConstant(node: nat) | EnumType(node: nat) | OtherSymbol(node: nat)

  /** The finished analysis: its symbols, what visiting a symbol adds to the used symbols, and
      the enums of the constants that have an enum type. */
  datatype Model = Model(symbols: set<Symbol>, uses: Symbol -> set<Symbol>, enumOf: map<nat, nat>)

  ghost predicate IsClosed(m: Model) {
    forall s :: s in m.symbols ==> m.uses(s) <= m.symbols
  }

  /** A use of `E.A` becomes a use of `E`. */
  function ResolveEnumConstant(m: Model, s: Symbol): Option<Symbol> {
    match s
    case EnumConstant(node) => if node in m.enumOf then Some(EnumType(m.enumOf[node])) else None
    case _ => Some(s)
  }

  // ---- Uses of uses -----------------------------------------------------------------------

  ghost predicate IsPath(m: Model, path: seq<Symbol>) {
    path != [] && forall i :: 0 <= i < |path| - 1 ==> path[i + 1] in m.uses(path[i])
  }

  /** Whether one of the symbols uses `t`, or uses one that uses it, and so on. */
  ghost predicate Reaches(m: Model, ss: set<Symbol>, t: Symbol) {
    exists path :: IsPath(m, path) && path[0] in ss && path[|path| - 1] == t
  }

  ghost function Reachable(m: Model, ss: set<Symbol>): set<Symbol> {
    set t | t in m.symbols && Reaches(m, ss, t)
  }

  function Image(m: Model, ss: set<Symbol>): set<Symbol> {
    set s | s in ss && ResolveEnumConstant(m, s).Some? :: ResolveEnumConstant(m, s).value
  }

  /** Whether `t` stands for one of these symbols in the result: an enum stands for itself and for its
      constants, a constant of an enum for nothing, and every other symbol for itself. */
  ghost predicate StandsFor(m: Model, ss: set<Symbol>, t: Symbol) {
    match t
    case EnumConstant(_) => false
    case EnumType(e) => t in ss || exists c :: EnumConstant(c) in ss && c in m.enumOf && m.enumOf[c] == e
    case OtherSymbol(_) => t in ss
  }

  lemma ImageStandsFor(m: Model, ss: set<Symbol>)
    ensures forall t :: t in Image(m, ss) <==> StandsFor(m, ss, t)
  {
    forall t
      ensures t in Image(m, ss) <==> StandsFor(m, ss, t)
    {
      if StandsFor(m, ss, t) {
        if t in ss {
          assert ResolveEnumConstant(m, t) == Some(t);
        } else {
          var c :| EnumConstant(c) in ss && c in m.enumOf && m.enumOf[c] == t.node;
          assert ResolveEnumConstant(m, EnumConstant(c)) == Some(t);
        }
      }
    }
  }

  lemma ReachesSelf(m: Model, ss: set<Symbol>, s: Symbol)
    requires s in ss
    ensures Reaches(m, ss, s)
  {
    assert IsPath(m, [s]) && [s][0] in ss && [s][|[s]| - 1] == s;
  }

  /** What a use reaches is reached. */
  lemma ReachesThrough(m: Model, s: Symbol, t: Symbol, u: Symbol)
    requires t in m.uses(s) && Reaches(m, {t}, u)
    ensures Reaches(m, {s}, u)
  {
    var path :| IsPath(m, path) && path[0] in {t} && path[|path| - 1] == u;
    var longer := [s] + path;
    forall i | 0 <= i < |longer| - 1
      ensures longer[i + 1] in m.uses(longer[i])
    {
      if 0 < i {
        assert longer[i] == path[i - 1] && longer[i + 1] == path[i];
      }
    }
    assert IsPath(m, longer) && longer[0] in {s} && longer[|longer| - 1] == u;
  }

  lemma ReachesFromMore(m: Model, s: Symbol, ss: set<Symbol>, t: Symbol)
    requires Reaches(m, {s}, t) && s in ss
    ensures Reaches(m, ss, t)
  {
    var path :| IsPath(m, path) && path[0] in {s} && path[|path| - 1] == t;
    assert path[0] in ss;
  }

  /** A set that has all uses of its symbols has all that they reach. */
  lemma {:induction false} ClosedHasPath(m: Model, closed: set<Symbol>, path: seq<Symbol>)
    requires IsPath(m, path) && path[0] in closed && forall s :: s in closed ==> m.uses(s) <= closed
    ensures path[|path| - 1] in closed
  {
    if 1 < |path| {
      assert path[0 + 1] in m.uses(path[0]);
      forall i | 0 <= i < |path[1..]| - 1
        ensures path[1..][i + 1] in m.uses(path[1..][i])
      {
        assert path[i + 1 + 1] in m.uses(path[i + 1]);
      }
      ClosedHasPath(m, closed, path[1..]);
    }
  }

  lemma ClosedIsReachable(m: Model, ss: set<Symbol>, closed: set<Symbol>)
    requires closed <= m.symbols && ss <= closed
    requires forall s :: s in closed ==> m.uses(s) <= closed
    requires forall s :: s in closed ==> Reaches(m, ss, s)
    ensures closed == Reachable(m, ss)
  {
    forall t | t in m.symbols && Reaches(m, ss, t)
      ensures t in closed
    {
      var path :| IsPath(m, path) && path[0] in ss && path[|path| - 1] == t;
      ClosedHasPath(m, closed, path);
    }
  }

  lemma ImageAdd(m: Model, ss: set<Symbol>, tt: set<Symbol>)
    ensures Image(m, ss + tt) == Image(m, ss) + Image(m, tt)
  {
    forall s | s in ss + tt
      ensures s in ss || s in tt
    {
    }
    assert forall s :: s in ss ==> s in ss + tt;
    assert forall s :: s in tt ==> s in ss + tt;
  }

  // ---- The resolution ------------------------------------------------------------------------

  class Resolution {
    const model: Model
    var usedSymbolSet: set<Symbol>
    var visited: set<Symbol>
    var out: set<Symbol>

    constructor (model: Model, usedSymbolSet: set<Symbol>)
      ensures this.model == model && this.usedSymbolSet == usedSymbolSet && visited == out == {}
    {
      this.model := model;
      this.usedSymbolSet := usedSymbolSet;
      visited, out := {}, {};
    }

    /** Visiting a symbol adds its uses to those that are there. */
    method VisitSymbol(s: Symbol)
      modifies `usedSymbolSet
      ensures usedSymbolSet == old(usedSymbolSet) + model.uses(s)
    {
      usedSymbolSet := usedSymbolSet + model.uses(s);
    }

    /** What is newly visited is what `s` reaches, with all its uses. The used symbols of the
        analysis are as they were. */
    method ResolveNode(s: Symbol)
      requires IsClosed(model) && s in model.symbols && visited <= model.symbols
      modifies this
      ensures usedSymbolSet == old(usedSymbolSet)
      ensures old(visited) <= visited <= model.symbols && s in visited
      ensures forall t :: t in visited - old(visited) ==> model.uses(t) <= visited && Reaches(model, {s}, t)
      ensures out == old(out) + Image(model, visited - old(visited))
      decreases model.symbols - visited
    {
      hide Reaches, Image;
      ghost var before, out0, used0 := visited, out, usedSymbolSet;
      if s in visited {
        EmptyImage(model);
        assert visited - before == {};
        return;
      }
      visited := visited + {s};
      var resolved := ResolveEnumConstant(model, s);
      if resolved.Some? {
        out := out + {resolved.value};
      }
      OneImage(model, s);
      var saved := usedSymbolSet;
      usedSymbolSet := {};
      VisitSymbol(s);
      var shallow := usedSymbolSet;
      usedSymbolSet := saved;
      assert shallow == model.uses(s);
      ReachesSelf(model, {s}, s);
      assert visited - before == {s};
      var todo := shallow;
      while todo != {}
        invariant usedSymbolSet == used0
        invariant todo <= shallow && shallow - todo <= visited
        invariant before + {s} <= visited <= model.symbols
        invariant forall t :: t in visited - before - {s} ==> model.uses(t) <= visited
        invariant forall t :: t in visited - before ==> Reaches(model, {s}, t)
        invariant out == out0 + Image(model, visited - before)
        decreases todo
      {
        var t :| t in todo;
        todo := todo - {t};
        ghost var mid := visited;
        ResolveNode(t);
        forall u | u in visited - mid
          ensures Reaches(model, {s}, u)
        {
          ReachesThrough(model, s, t, u);
        }
        ImageAdd(model, mid - before, visited - mid);
        assert (mid - before) + (visited - mid) == visited - before;
      }
    }

    /** The result is what stands for the symbols that the given ones reach, in whatever order they
        are resolved. */
    method ResolveUses(ss: set<Symbol>)
      requires IsClosed(model) && ss <= model.symbols && visited == out == {}
      modifies this
      ensures usedSymbolSet == old(usedSymbolSet)
      ensures visited == Reachable(model, ss)
      ensures forall t :: t in out <==> StandsFor(model, Reachable(model, ss), t)
    {
      hide Reaches, Image, Reachable, StandsFor;
      ghost var used0 := usedSymbolSet;
      var todo := ss;
      EmptyImage(model);
      while todo != {}
        invariant usedSymbolSet == used0
        invariant todo <= ss && ss - todo <= visited <= model.symbols
        invariant forall t :: t in visited ==> model.uses(t) <= visited && Reaches(model, ss, t)
        invariant out == Image(model, visited)
        decreases todo
      {
        var s :| s in todo;
        todo := todo - {s};
        ghost var mid := visited;
        ResolveNode(s);
        forall t | t in visited - mid
          ensures Reaches(model, ss, t)
        {
          ReachesFromMore(model, s, ss, t);
        }
        ImageAdd(model, mid, visited - mid);
        assert mid + (visited - mid) == visited;
      }
      ClosedIsReachable(model, ss, visited);
      ImageStandsFor(model, visited);
    }
  }

  lemma EmptyImage(m: Model)
    ensures Image(m, {}) == {}
  {
  }

  lemma OneImage(m: Model, s: Symbol)
    ensures Image(m, {s}) == if ResolveEnumConstant(m, s).Some? then {ResolveEnumConstant(m, s).value} else {}
  {
    assert s in {s};
  }

}
