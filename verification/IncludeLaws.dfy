/** What a depth-first walk over includes promises (fpp_format/src/include.rs:42-64, 66-116). */
module IncludeLaws {
  import opened Wrappers
  import opened Includes

  /** The places that were formatted, in the order in which they were formatted. */
  function Places(v: Visit): seq<Place>
    decreases v, 0
  {
    match v
    case Formatted(p, _, _, steps) => [p] + PlacesAll(steps)
    case Skipped(_) => []
  }

  function PlacesAll(steps: seq<Visit>): seq<Place>
    decreases steps
  {
    if steps == [] then [] else PlacesAll(steps[..|steps| - 1]) + Places(steps[|steps| - 1])
  }

  function CanonList(v: Visit): seq<string>
    decreases v, 0
  {
    match v
    case Formatted(_, c, _, steps) => [c] + CanonListAll(steps)
    case Skipped(_) => []
  }

  function CanonListAll(steps: seq<Visit>): seq<string>
    decreases steps
  {
    if steps == [] then [] else CanonListAll(steps[..|steps| - 1]) + CanonList(steps[|steps| - 1])
  }

  /** The files in the order in which their includes were finished. */
  function Finish(v: Visit): seq<string>
    decreases v, 0
  {
    match v
    case Formatted(_, c, _, steps) => FinishAll(steps) + [c]
    case Skipped(_) => []
  }

  function FinishAll(steps: seq<Visit>): seq<string>
    decreases steps
  {
    if steps == [] then [] else FinishAll(steps[..|steps| - 1]) + Finish(steps[|steps| - 1])
  }

  // ---- The units are the formatted files -----------------------------------------------------

  /** Unit by unit, the file was read, parsed and formatted from its place. */
  ghost predicate AreUnits(w: World, units: seq<FormattedUnit>, places: seq<Place>, canons: seq<string>) {
    && |units| == |places| == |canons|
    && forall i :: 0 <= i < |units| ==>
         && IsReadable(w, places[i]) && units[i].path == places[i].path && units[i].entry == places[i].entry
         && w.read(places[i].path) == Some(units[i].original)
         && units[i].formatted
            == RestoreLineEndings(units[i].original, w.format(w.parse(units[i].original, places[i].entry).root))
         && w.canonicalize(places[i].path) == Some(canons[i])
  }

  lemma AreUnitsConcat(w: World, u: seq<FormattedUnit>, p: seq<Place>, c: seq<string>,
                       u': seq<FormattedUnit>, p': seq<Place>, c': seq<string>)
    requires AreUnits(w, u, p, c) && AreUnits(w, u', p', c')
    ensures AreUnits(w, u + u', p + p', c + c')
  {
  }

  lemma {:induction false} UnitsArePlaces(w: World, v: Visit, place: Place, chain: seq<string>, before: set<string>)
    requires IsTrace(w, v, place, chain, before)
    ensures AreUnits(w, Units(v), Places(v), CanonList(v))
    decreases v, 0
  {
    hide AreUnits;
    match v
    case Skipped(_) => NoUnits(w);
    case Formatted(p, c, u, steps) =>
      UnitsArePlacesAll(w, steps, IncludesOf(w, place), chain + [c], before + {c});
      OneUnit(w, place, c);
      AreUnitsConcat(w, [u], [p], [c], UnitsAll(steps), PlacesAll(steps), CanonListAll(steps));
  }

  lemma {:induction false} UnitsArePlacesAll(w: World, steps: seq<Visit>, places: seq<Place>, chain: seq<string>,
                                             before: set<string>)
    requires AreTraces(w, steps, places, chain, before)
    ensures AreUnits(w, UnitsAll(steps), PlacesAll(steps), CanonListAll(steps))
    decreases steps
  {
    hide AreUnits, IsTrace;
    if steps == [] {
      NoUnits(w);
    } else {
      var n := |steps| - 1;
      UnitsArePlacesAll(w, steps[..n], places[..n], chain, before);
      UnitsArePlaces(w, steps[n], places[n], chain, before + CanonsAll(steps[..n]));
      AreUnitsConcat(w, UnitsAll(steps[..n]), PlacesAll(steps[..n]), CanonListAll(steps[..n]),
                     Units(steps[n]), Places(steps[n]), CanonList(steps[n]));
    }
  }

  lemma NoUnits(w: World)
    ensures AreUnits(w, [], [], [])
  {
  }

  lemma OneUnit(w: World, p: Place, c: string)
    requires IsReadable(w, p) && w.canonicalize(p.path) == Some(c)
    ensures AreUnits(w, [UnitOf(w, p)], [p], [c])
  {
  }

  // ---- Each file once ------------------------------------------------------------------------

  ghost predicate NoRepeats(s: seq<string>) {
    forall i, j :: 0 <= i < j < |s| ==> s[i] != s[j]
  }

  /** The files of a list: each once, and none of `before`. */
  ghost predicate ListsOnce(s: seq<string>, all: set<string>, before: set<string>) {
    NoRepeats(s) && (forall c :: c in s <==> c in all) && all !! before
  }

  lemma ListsOnceConcat(s: seq<string>, all: set<string>, before: set<string>, s': seq<string>, all': set<string>)
    requires ListsOnce(s, all, before) && ListsOnce(s', all', before + all)
    ensures ListsOnce(s + s', all + all', before)
  {
    forall i, j | 0 <= i < j < |s + s'|
      ensures (s + s')[i] != (s + s')[j]
    {
      if i < |s| <= j {
        assert s[i] in s && s'[j - |s|] in s';
      }
    }
    assert forall c :: c in s + s' <==> c in s || c in s';
  }

  lemma OneFile(c: string, before: set<string>)
    requires c !in before
    ensures ListsOnce([c], {c}, before) && ListsOnce([], {}, before)
  {
  }

  lemma NoFile(before: set<string>)
    ensures ListsOnce([], {}, before)
  {
  }

  lemma {:induction false} EachFileOnce(w: World, v: Visit, place: Place, chain: seq<string>, before: set<string>)
    requires IsTrace(w, v, place, chain, before)
    ensures ListsOnce(CanonList(v), Canons(v), before)
    decreases v, 0
  {
    hide ListsOnce, IncludesOf;
    match v
    case Skipped(_) => NoFile(before);
    case Formatted(_, c, _, steps) =>
      EachFileOnceAll(w, steps, IncludesOf(w, place), chain + [c], before + {c});
      OneFile(c, before);
      ListsOnceConcat([c], {c}, before, CanonListAll(steps), CanonsAll(steps));
  }

  lemma {:induction false} EachFileOnceAll(w: World, steps: seq<Visit>, places: seq<Place>, chain: seq<string>,
                                           before: set<string>)
    requires AreTraces(w, steps, places, chain, before)
    ensures ListsOnce(CanonListAll(steps), CanonsAll(steps), before)
    decreases steps
  {
    hide ListsOnce, IsTrace;
    if steps == [] {
      NoFile(before);
    } else {
      var n := |steps| - 1;
      EachFileOnceAll(w, steps[..n], places[..n], chain, before);
      EachFileOnce(w, steps[n], places[n], chain, before + CanonsAll(steps[..n]));
      ListsOnceConcat(CanonListAll(steps[..n]), CanonsAll(steps[..n]), before, CanonList(steps[n]), Canons(steps[n]));
    }
  }

  // ---- Closed under includes, without cycles -------------------------------------------------

  /** Whether `a` comes before `b`. */
  ghost predicate IsBefore(order: seq<string>, a: string, b: string) {
    exists i, j :: 0 <= i < j < |order| && order[i] == a && order[j] == b
  }

  /** Whether the file at a place is in the list. */
  ghost predicate IsIn(w: World, p: Place, order: seq<string>) {
    w.canonicalize(p.path).Some? && w.canonicalize(p.path).value in order
  }

  /** Every include of these places was finished before the place itself. */
  ghost predicate AreRanked(w: World, places: seq<Place>, order: seq<string>) {
    forall p, q :: p in places && IsReadable(w, p) && q in IncludesOf(w, p) ==>
      && IsIn(w, q, order)
      && IsBefore(order, w.canonicalize(q.path).value, w.canonicalize(p.path).value)
  }

  lemma RankedLater(w: World, places: seq<Place>, order: seq<string>, more: seq<string>)
    requires AreRanked(w, places, order)
    ensures AreRanked(w, places, order + more)
  {
    hide IncludesOf;
    forall p, q | p in places && IsReadable(w, p) && q in IncludesOf(w, p)
      ensures IsIn(w, q, order + more)
      ensures IsBefore(order + more, w.canonicalize(q.path).value, w.canonicalize(p.path).value)
    {
      var i, j :| 0 <= i < j < |order| && order[i] == w.canonicalize(q.path).value && order[j] == w.canonicalize(p.path).value;
      assert (order + more)[i] == order[i] && (order + more)[j] == order[j];
    }
  }

  lemma RankedConcat(w: World, a: seq<Place>, b: seq<Place>, order: seq<string>)
    requires AreRanked(w, a, order) && AreRanked(w, b, order)
    ensures AreRanked(w, a + b, order) && AreRanked(w, [], order)
  {
  }

  /** A file is finished after all that it includes. */
  lemma RankedLast(w: World, p: Place, c: string, order: seq<string>)
    requires IsReadable(w, p) && w.canonicalize(p.path) == Some(c)
    requires forall q :: q in IncludesOf(w, p) ==> IsIn(w, q, order)
    ensures AreRanked(w, [p], order + [c])
  {
    forall q | q in IncludesOf(w, p)
      ensures IsIn(w, q, order + [c]) && IsBefore(order + [c], w.canonicalize(q.path).value, c)
    {
      var i :| 0 <= i < |order| && order[i] == w.canonicalize(q.path).value;
      assert (order + [c])[i] == order[i] && (order + [c])[|order|] == c;
    }
  }

  /** What was met before is finished, or is around. */
  ghost predicate IsSplit(before: set<string>, chain: seq<string>, done: seq<string>) {
    forall c :: c in before <==> c in chain || c in done
  }

  lemma {:induction false} FinishedIncludes(w: World, v: Visit, place: Place, chain: seq<string>, before: set<string>,
                                            done: seq<string>)
    requires IsTrace(w, v, place, chain, before) && IsSplit(before, chain, done)
    ensures AreRanked(w, Places(v), done + Finish(v))
    ensures IsIn(w, place, done + Finish(v)) && forall c :: c in Finish(v) <==> c in Canons(v)
    decreases v, 0
  {
    hide AreRanked, IncludesOf;
    match v
    case Skipped(c) =>
      assert done + [] == done;
      RankedNothing(w, done);
    case Formatted(p, c, _, steps) =>
      FinishedIncludesAll(w, steps, IncludesOf(w, place), chain + [c], before + {c}, done);
      var order := done + FinishAll(steps);
      assert done + Finish(v) == order + [c];
      forall q | q in IncludesOf(w, place)
        ensures IsIn(w, q, order)
      {
        var i :| 0 <= i < |IncludesOf(w, place)| && IncludesOf(w, place)[i] == q;
      }
      RankedLast(w, place, c, order);
      RankedLater(w, PlacesAll(steps), order, [c]);
      RankedConcat(w, [p], PlacesAll(steps), order + [c]);
      assert (order + [c])[|order|] == c;
  }

  lemma RankedNothing(w: World, order: seq<string>)
    ensures AreRanked(w, [], order)
  {
  }

  lemma {:induction false} FinishedIncludesAll(w: World, steps: seq<Visit>, places: seq<Place>, chain: seq<string>,
                                               before: set<string>, done: seq<string>)
    requires AreTraces(w, steps, places, chain, before) && IsSplit(before, chain, done)
    ensures AreRanked(w, PlacesAll(steps), done + FinishAll(steps))
    ensures forall i :: 0 <= i < |places| ==> IsIn(w, places[i], done + FinishAll(steps))
    ensures forall c :: c in FinishAll(steps) <==> c in CanonsAll(steps)
    decreases steps
  {
    hide AreRanked, IsTrace;
    if steps == [] {
      RankedNothing(w, done + []);
    } else {
      var n := |steps| - 1;
      FinishedIncludesAll(w, steps[..n], places[..n], chain, before, done);
      var order := done + FinishAll(steps[..n]);
      assert IsSplit(before + CanonsAll(steps[..n]), chain, order);
      FinishedIncludes(w, steps[n], places[n], chain, before + CanonsAll(steps[..n]), order);
      assert done + FinishAll(steps) == order + Finish(steps[n]);
      RankedLater(w, PlacesAll(steps[..n]), order, Finish(steps[n]));
      RankedConcat(w, PlacesAll(steps[..n]), Places(steps[n]), order + Finish(steps[n]));
      forall i | 0 <= i < |places|
        ensures IsIn(w, places[i], order + Finish(steps[n]))
      {
        assert i < n ==> places[..n][i] == places[i];
      }
    }
  }

  // ---- Every file is reached -------------------------------------------------------------------

  /** Whether each place is included by one of `roots` or by an earlier place. */
  ghost predicate AreReached(w: World, places: seq<Place>, roots: seq<Place>) {
    forall i :: 0 <= i < |places| ==>
      places[i] in roots || exists j :: 0 <= j < i && IsReadable(w, places[j]) && places[i] in IncludesOf(w, places[j])
  }

  lemma ReachedConcat(w: World, a: seq<Place>, b: seq<Place>, roots: seq<Place>)
    requires AreReached(w, a, roots) && AreReached(w, b, roots)
    ensures AreReached(w, a + b, roots)
  {
    hide IncludesOf;
    forall i | 0 <= i < |a + b|
      ensures (a + b)[i] in roots
              || exists j :: 0 <= j < i && IsReadable(w, (a + b)[j]) && (a + b)[i] in IncludesOf(w, (a + b)[j])
    {
      if i < |a| {
        if a[i] !in roots {
          var j :| 0 <= j < i && IsReadable(w, a[j]) && a[i] in IncludesOf(w, a[j]);
          assert (a + b)[j] == a[j];
        }
      } else if b[i - |a|] !in roots {
        var j :| 0 <= j < i - |a| && IsReadable(w, b[j]) && b[i - |a|] in IncludesOf(w, b[j]);
        assert (a + b)[|a| + j] == b[j];
      }
    }
  }

  lemma ReachedUnder(w: World, p: Place, rest: seq<Place>, roots: seq<Place>)
    requires IsReadable(w, p) && AreReached(w, rest, IncludesOf(w, p)) && p in roots
    ensures AreReached(w, [p] + rest, roots)
  {
    hide IncludesOf;
    var all := [p] + rest;
    forall i | 0 < i < |all|
      ensures exists j :: 0 <= j < i && IsReadable(w, all[j]) && all[i] in IncludesOf(w, all[j])
    {
      assert all[i] == rest[i - 1] && all[0] == p;
      if rest[i - 1] !in IncludesOf(w, p) {
        var j :| 0 <= j < i - 1 && IsReadable(w, rest[j]) && rest[i - 1] in IncludesOf(w, rest[j]);
        assert all[j + 1] == rest[j];
      }
    }
  }

  lemma {:induction false} EveryFileIsReached(w: World, v: Visit, place: Place, chain: seq<string>, before: set<string>,
                                              roots: seq<Place>)
    requires IsTrace(w, v, place, chain, before) && place in roots
    ensures AreReached(w, Places(v), roots)
    decreases v, 0
  {
    hide AreReached, IncludesOf;
    match v
    case Skipped(_) => NoneReached(w, roots);
    case Formatted(p, c, _, steps) =>
      EveryFileIsReachedAll(w, steps, IncludesOf(w, place), chain + [c], before + {c}, IncludesOf(w, place));
      ReachedUnder(w, place, PlacesAll(steps), roots);
  }

  lemma {:induction false} EveryFileIsReachedAll(w: World, steps: seq<Visit>, places: seq<Place>, chain: seq<string>,
                                                 before: set<string>, roots: seq<Place>)
    requires AreTraces(w, steps, places, chain, before) && forall p :: p in places ==> p in roots
    ensures AreReached(w, PlacesAll(steps), roots)
    decreases steps
  {
    hide AreReached, IsTrace;
    if steps == [] {
      NoneReached(w, roots);
    } else {
      var n := |steps| - 1;
      EveryFileIsReachedAll(w, steps[..n], places[..n], chain, before, roots);
      assert places[n] in places;
      EveryFileIsReached(w, steps[n], places[n], chain, before + CanonsAll(steps[..n]), roots);
      ReachedConcat(w, PlacesAll(steps[..n]), Places(steps[n]), roots);
    }
  }

  lemma NoneReached(w: World, roots: seq<Place>)
    ensures AreReached(w, [], roots)
  {
  }

  // ---- The whole walk --------------------------------------------------------------------------

  /** What `format_file_recursive` promises of its result: every file that can be reached through
      includes is there once, the root first, and no file includes itself through others. */
  ghost predicate IsClosure(w: World, units: seq<FormattedUnit>, places: seq<Place>, canons: seq<string>,
                            order: seq<string>, root: Place) {
    && AreUnits(w, units, places, canons) && NoRepeats(canons)
    && places != [] && places[0] == root
    && AreReached(w, places, [root])
    && NoRepeats(order) && (forall c :: c in order <==> c in canons)
    && AreRanked(w, places, order)
  }

  method FormatFileRecursive(w: World, path: string, entry: Entry)
    returns (units: seq<FormattedUnit>, failure: Option<FormatError>, ghost v: Visit, ghost route: seq<Place>)
    requires IsFinite(w)
    ensures failure.None? ==>
        && IsTrace(w, v, Place(path, entry), [], {}) && units == Units(v)
        && IsClosure(w, units, Places(v), CanonList(v), Finish(v), Place(path, entry))
    ensures failure.Some? ==> IsRoute(w, route, Place(path, entry)) && IsFault(w, route, [], failure.value)
    ensures failure.None? <==> exists u :: IsTrace(w, u, Place(path, entry), [], {})
  {
    hide IsTrace, IsClosure, IsRoute, IsFault, Units, Canons;
    var walk := new Walk(w);
    failure, v, route := walk.FormatInner(path, entry);
    units := walk.results;
    if failure.None? {
      WalkIsClosure(w, v, Place(path, entry));
    }
  }

  lemma {:induction false} FinishOnce(w: World, v: Visit, place: Place, chain: seq<string>, before: set<string>)
    requires IsTrace(w, v, place, chain, before)
    ensures ListsOnce(Finish(v), Canons(v), before)
    decreases v, 0
  {
    hide ListsOnce, IncludesOf;
    match v
    case Skipped(_) => NoFile(before);
    case Formatted(_, c, _, steps) =>
      FinishOnceAll(w, steps, IncludesOf(w, place), chain + [c], before + {c});
      OneMoreOnce(FinishAll(steps), CanonsAll(steps), before, c);
  }

  lemma OneMoreOnce(s: seq<string>, all: set<string>, before: set<string>, c: string)
    requires ListsOnce(s, all, before + {c}) && c !in before
    ensures ListsOnce(s + [c], {c} + all, before)
  {
    assert forall d :: d in s + [c] <==> d in s || d == c;
  }

  lemma {:induction false} FinishOnceAll(w: World, steps: seq<Visit>, places: seq<Place>, chain: seq<string>,
                                         before: set<string>)
    requires AreTraces(w, steps, places, chain, before)
    ensures ListsOnce(FinishAll(steps), CanonsAll(steps), before)
    decreases steps
  {
    hide ListsOnce, IsTrace;
    if steps == [] {
      NoFile(before);
    } else {
      var n := |steps| - 1;
      FinishOnceAll(w, steps[..n], places[..n], chain, before);
      FinishOnce(w, steps[n], places[n], chain, before + CanonsAll(steps[..n]));
      ListsOnceConcat(FinishAll(steps[..n]), CanonsAll(steps[..n]), before, Finish(steps[n]), Canons(steps[n]));
    }
  }

  lemma WalkIsClosure(w: World, v: Visit, root: Place)
    requires IsTrace(w, v, root, [], {})
    ensures IsClosure(w, Units(v), Places(v), CanonList(v), Finish(v), root)
  {
    hide IsTrace, AreUnits, AreReached, AreRanked, Units, Canons, CanonList, Finish;
    UnitsArePlaces(w, v, root, [], {});
    EachFileOnce(w, v, root, [], {});
    FinishOnce(w, v, root, [], {});
    EveryFileIsReached(w, v, root, [], {}, [root]);
    FinishedIncludes(w, v, root, [], {}, []);
    assert [] + Finish(v) == Finish(v);
    RootIsFormatted(w, v, root);
  }

  lemma RootIsFormatted(w: World, v: Visit, root: Place)
    requires IsTrace(w, v, root, [], {})
    ensures Places(v) != [] && Places(v)[0] == root
  {
  }

  // ---- Routes to the formatted files -----------------------------------------------------------

  lemma RouteOfOne(w: World, root: Place)
    ensures IsRoute(w, [root], root)
  {
  }

  lemma RouteSnoc(w: World, route: seq<Place>, root: Place, next: Place)
    requires IsRoute(w, route, root)
    requires IsReadable(w, route[|route| - 1]) && next in IncludesOf(w, route[|route| - 1])
    ensures IsRoute(w, route + [next], root)
  {
    hide IncludesOf, IsReadable;
  }

  lemma RoutePrefix(w: World, route: seq<Place>, root: Place, n: nat)
    requires IsRoute(w, route, root) && 0 < n <= |route|
    ensures IsRoute(w, route[..n], root)
  {
    hide IncludesOf, IsReadable;
  }

  /** A route leads to every formatted file. */
  lemma {:induction false} RouteTo(w: World, places: seq<Place>, root: Place, i: nat) returns (route: seq<Place>)
    requires AreReached(w, places, [root]) && i < |places|
    ensures IsRoute(w, route, root) && route[|route| - 1] == places[i]
    decreases i
  {
    hide IncludesOf, IsReadable, IsRoute;
    if places[i] in [root] {
      RouteOfOne(w, root);
      route := [root];
    } else {
      var j :| 0 <= j < i && IsReadable(w, places[j]) && places[i] in IncludesOf(w, places[j]);
      var before := RouteTo(w, places, root, j);
      RouteSnoc(w, before, root, places[i]);
      route := before + [places[i]];
    }
  }

  // ---- One directory for a file ----------------------------------------------------------------

  /** Whether no file is reached through two directories. */
  ghost predicate HasOneDirectory(w: World, root: Place) {
    forall r: seq<Place>, s: seq<Place> :: IsRoute(w, r, root) && IsRoute(w, s, root) ==>
      AreInOneDirectory(w, r[|r| - 1].path, s[|s| - 1].path)
  }

  ghost predicate AreInOneDirectory(w: World, p: string, q: string) {
    w.canonicalize(p).Some? && w.canonicalize(p) == w.canonicalize(q) ==> w.directory(p) == w.directory(q)
  }

  /** The places of named texts, each in some entry point. */
  lemma {:induction false} NamesArePlaces(w: World, p: Place, specs: seq<Spec>)
    ensures |PlacesOf(w, p, specs)| == |Named(specs)|
    ensures forall k :: 0 <= k < |Named(specs)| ==> PlacesOf(w, p, specs)[k].path == w.relative(p.path, Named(specs)[k])
  {
    if specs != [] {
      NamesArePlaces(w, p, specs[..|specs| - 1]);
    }
  }

  /** A file that is met in one directory includes the same files however it was reached. */
  lemma SameIncludes(w: World, p: Place, q: Place, x: Place)
    requires IsFileSystem(w) && NamesAreFixed(w)
    requires IsReadable(w, p) && IsReadable(w, q) && w.canonicalize(p.path) == w.canonicalize(q.path)
    requires w.directory(p.path) == w.directory(q.path) && x in IncludesOf(w, p)
    ensures exists y :: y in IncludesOf(w, q) && w.canonicalize(y.path) == w.canonicalize(x.path)
  {
    hide Specs, PlacesOf, Named;
    var text := w.read(p.path).value;
    assert w.read(q.path) == Some(text);
    NamesArePlaces(w, p, Specs(RootOf(w, p), []));
    NamesArePlaces(w, q, Specs(RootOf(w, q), []));
    var k :| 0 <= k < |IncludesOf(w, p)| && IncludesOf(w, p)[k] == x;
    assert IncludesOf(w, q)[k] in IncludesOf(w, q);
  }

  // ---- Cycles ----------------------------------------------------------------------------------

  /** Whether the route comes back to a file that it has met. */
  ghost predicate IsCycle(w: World, route: seq<Place>) {
    exists i, j :: 0 <= i < j < |route| && w.canonicalize(route[i].path).Some?
                   && w.canonicalize(route[i].path) == w.canonicalize(route[j].path)
  }

  /** The assumptions under which a file includes the same files however it is reached from the root. */
  ghost predicate IsSteady(w: World, root: Place) {
    IsFileSystem(w) && NamesAreFixed(w) && HasOneDirectory(w, root)
  }

  /** A file was finished before any that includes it, however that was reached. */
  lemma NextIsRanked(w: World, places: seq<Place>, canons: seq<string>, units: seq<FormattedUnit>, order: seq<string>,
                     root: Place, route: seq<Place>, p: Place, x: Place)
    requires AreUnits(w, units, places, canons) && (forall c :: c in order <==> c in canons)
    requires AreRanked(w, places, order) && AreReached(w, places, [root]) && IsSteady(w, root) && IsRoute(w, route, root)
    requires route[|route| - 1] == p && IsReadable(w, p) && IsIn(w, p, order) && x in IncludesOf(w, p)
    ensures IsIn(w, x, order) && IsBefore(order, w.canonicalize(x.path).value, w.canonicalize(p.path).value)
  {
    hide IncludesOf, IsReadable, IsBefore, IsRoute, AreReached, IsFileSystem, NamesAreFixed;
    var c := w.canonicalize(p.path).value;
    assert c in canons;
    var k :| 0 <= k < |canons| && canons[k] == c;
    var q := places[k];
    assert q in places && w.canonicalize(q.path) == Some(c) && IsReadable(w, q);
    var other := RouteTo(w, places, root, k);
    assert AreInOneDirectory(w, p.path, q.path);
    SameIncludes(w, p, q, x);
    var y :| y in IncludesOf(w, q) && w.canonicalize(y.path) == w.canonicalize(x.path);
  }

  /** Along a route, every file was finished before the file that includes it. */
  lemma {:induction false} RouteIsRanked(w: World, units: seq<FormattedUnit>, places: seq<Place>, canons: seq<string>,
                                         order: seq<string>, root: Place, route: seq<Place>, j: nat)
    requires IsClosure(w, units, places, canons, order, root) && IsSteady(w, root) && IsRoute(w, route, root) && j < |route|
    ensures IsIn(w, route[j], order)
    ensures forall i :: 0 <= i < j ==>
        && w.canonicalize(route[i].path).Some?
        && IsBefore(order, w.canonicalize(route[j].path).value, w.canonicalize(route[i].path).value)
    decreases j
  {
    hide IncludesOf, IsReadable, IsBefore, AreRanked, AreReached, IsSteady;
    if j == 0 {
      assert canons[0] in canons;
    } else {
      RouteIsRanked(w, units, places, canons, order, root, route, j - 1);
      var p, x := route[j - 1], route[j];
      RoutePrefix(w, route, root, j);
      NextIsRanked(w, places, canons, units, order, root, route[..j], p, x);
      forall i | 0 <= i < j
        ensures w.canonicalize(route[i].path).Some?
        ensures IsBefore(order, w.canonicalize(x.path).value, w.canonicalize(route[i].path).value)
      {
        if i < j - 1 {
          BeforeIsTransitive(order, w.canonicalize(x.path).value, w.canonicalize(p.path).value,
                             w.canonicalize(route[i].path).value);
        }
      }
    }
  }

  lemma BeforeIsTransitive(order: seq<string>, a: string, b: string, c: string)
    requires NoRepeats(order) && IsBefore(order, a, b) && IsBefore(order, b, c)
    ensures IsBefore(order, a, c)
  {
    var i, j :| 0 <= i < j < |order| && order[i] == a && order[j] == b;
    var k, l :| 0 <= k < l < |order| && order[k] == b && order[l] == c;
    assert j == k;
  }

  lemma NothingBeforeItself(order: seq<string>, a: string)
    requires NoRepeats(order)
    ensures !IsBefore(order, a, a)
  {
  }

  /** A successful walk means that no route comes back to a file, if none is reached through two
      directories. */
  lemma SuccessMeansNoCycle(w: World, v: Visit, root: Place, route: seq<Place>)
    requires IsFileSystem(w) && NamesAreFixed(w) && HasOneDirectory(w, root)
    requires IsTrace(w, v, root, [], {}) && IsRoute(w, route, root)
    ensures !IsCycle(w, route)
  {
    hide IsTrace, IsFileSystem, NamesAreFixed, HasOneDirectory, IncludesOf, IsRoute;
    WalkIsClosure(w, v, root);
    forall i, j | 0 <= i < j < |route| && w.canonicalize(route[i].path).Some?
      ensures w.canonicalize(route[i].path) != w.canonicalize(route[j].path)
    {
      RouteIsRanked(w, Units(v), Places(v), CanonList(v), Finish(v), root, route, j);
      NothingBeforeItself(Finish(v), w.canonicalize(route[i].path).value);
    }
  }

  /** What `FormatFileRecursive` ensures. */
  ghost predicate IsOutcome(w: World, root: Place, failure: Option<FormatError>, v: Visit, route: seq<Place>) {
    match failure
    case None => IsTrace(w, v, root, [], {})
    case Some(e) => IsRoute(w, route, root) && IsFault(w, route, [], e)
  }

  /** When everything that is reached can be read and parsed, a walk that fails reports a route
      that comes back to a file. If moreover no file is reached through two directories, the walk
      fails if and only if there is such a route. */
  lemma CycleIsFound(w: World, root: Place, failure: Option<FormatError>, v: Visit, route: seq<Place>)
    requires IsFileSystem(w) && NamesAreFixed(w)
    requires IsOutcome(w, root, failure, v, route)
    requires forall r :: IsRoute(w, r, root) ==> IsReadable(w, r[|r| - 1])
    ensures failure.Some? ==> failure.value.IncludeCycle? && AreCanons(w, failure.value.chain, route) && IsCycle(w, route)
    ensures HasOneDirectory(w, root) ==> (failure.Some? <==> exists r :: IsRoute(w, r, root) && IsCycle(w, r))
  {
    hide IsTrace, IsFileSystem, NamesAreFixed, HasOneDirectory, IsRoute;
    if failure.Some? {
      assert IsReadable(w, route[|route| - 1]);
      var e := failure.value;
      assert e.IncludeCycle? && e.chain[0..] == e.chain;
      var n := |e.chain| - 1;
      var i :| 0 <= i < n && e.chain[..n][i] == e.chain[n];
      assert w.canonicalize(route[i].path) == w.canonicalize(route[n].path) == Some(e.chain[n]);
    } else if HasOneDirectory(w, root) {
      forall r | IsRoute(w, r, root)
        ensures !IsCycle(w, r)
      {
        SuccessMeansNoCycle(w, v, root, r);
      }
    }
  }

  // ---- A cycle that goes unnoticed -------------------------------------------------------------

  function Include(text: string): Node {
    Node(SpecInclude, [StringToken(text)])
  }

  const ROOT_TREE := Node(OtherNode, [Include("1/a"), Include("2/a")])
  const A_TREE := Node(OtherNode, [Include("b")])
  const EMPTY_TREE := Node(OtherNode, [])

  /** The directory of a path with one directory of one letter. */
  function DirectoryOf(path: string): string {
    if |path| > 2 && path[1] == '/' then path[..2] else ""
  }

  /** `1/a`, `2/a` and `2/b` are links to the file `a`, which includes `b`; `1/b` is an empty file. */
  function LinkedFiles(): World {
    World({"r", "a", "1/b"},
          path => if path in {"1/a", "2/a", "2/b"} then Some("a") else if path in {"r", "1/b"} then Some(path) else None,
          path => DirectoryOf(path),
          path => if path in {"1/a", "2/a", "2/b"} then Some("a") else Some(path),
          (text: string, entry: Entry) =>
            Parse(if text == "r" then ROOT_TREE else if text == "a" then A_TREE else EMPTY_TREE, []),
          (_: Node) => "",
          (path: string, text: string) => DirectoryOf(path) + text)
  }

  const IN_FILE := [OtherNode]

  function SpecOf(text: string): Spec {
    Spec([StringToken(text)], IN_FILE)
  }

  lemma SpecsOfInclude(text: string)
    ensures Specs(Include(text), IN_FILE) == SpecsAll([Include(text)], IN_FILE) == [SpecOf(text)]
  {
    assert [StringToken(text)][1..] == [];
    assert SpecsAll([StringToken(text)], IN_FILE + [SpecInclude]) == [];
    assert [Include(text)][1..] == [];
  }

  lemma SpecsOfTrees()
    ensures Specs(ROOT_TREE, []) == [SpecOf("1/a"), SpecOf("2/a")]
    ensures Specs(A_TREE, []) == [SpecOf("b")]
    ensures Specs(EMPTY_TREE, []) == []
  {
    hide Specs, SpecsAll, Include, SpecOf;
    SpecsOfInclude("1/a");
    SpecsOfInclude("2/a");
    SpecsOfInclude("b");
    SpecsOfFile([]);
    SpecsOfFile([Include("b")]);
    SpecsOfFile([Include("1/a"), Include("2/a")]);
    SpecsOfTwo(Include("1/a"), Include("2/a"));
  }

  lemma SpecsOfFile(children: seq<Node>)
    ensures Specs(Node(OtherNode, children), []) == SpecsAll(children, IN_FILE)
    ensures SpecsAll([], IN_FILE) == []
  {
    assert [] + [OtherNode] == IN_FILE;
  }

  lemma SpecsOfTwo(a: Node, b: Node)
    ensures SpecsAll([a, b], IN_FILE) == Specs(a, IN_FILE) + Specs(b, IN_FILE)
  {
    hide Specs;
    assert [a, b][1..] == [b] && [b][1..] == [];
    assert SpecsAll([b], IN_FILE) == Specs(b, IN_FILE) + [];
  }

  lemma PlaceOfSpec(w: World, p: Place, specs: seq<Spec>, text: string)
    ensures PlacesOf(w, p, specs + [SpecOf(text)]) == PlacesOf(w, p, specs) + [Place(w.relative(p.path, text), p.entry)]
  {
    hide PlacesOf;
    PlacesSnoc(w, p, specs, SpecOf(text));
    EntryInsideSnoc([], OtherNode, p.entry);
    assert [] + [OtherNode] == IN_FILE;
  }

  lemma IncludesOfFiles(w: World, root: Place, one: Place, two: Place, empty: Place)
    requires w == LinkedFiles() && root == Place("r", Module)
    requires one == Place("1/a", Module) && two == Place("2/a", Module) && empty == Place("1/b", Module)
    ensures IsReadable(w, root) && IncludesOf(w, root) == [one, two]
    ensures IsReadable(w, one) && IncludesOf(w, one) == [empty]
    ensures IsReadable(w, two) && IncludesOf(w, two) == [Place("2/b", Module)]
    ensures IsReadable(w, empty) && IncludesOf(w, empty) == []
  {
    hide Specs, PlacesOf, EntryInside;
    SpecsOfTrees();
    var specs := [SpecOf("1/a"), SpecOf("2/a")];
    PlacesSnoc(w, root, [], SpecOf("b"));
    PlaceOfSpec(w, root, [], "1/a");
    PlaceOfSpec(w, root, [SpecOf("1/a")], "2/a");
    assert [SpecOf("1/a")] + [SpecOf("2/a")] == specs && [] + [SpecOf("1/a")] == [SpecOf("1/a")];
    assert "" + "1/a" == "1/a" && "" + "2/a" == "2/a";
    assert [] + [one] == [one] && [one] + [two] == [one, two];
    PlacesSnoc(w, one, [], SpecOf("b"));
    PlaceOfSpec(w, one, [], "b");
    PlacesSnoc(w, two, [], SpecOf("b"));
    PlaceOfSpec(w, two, [], "b");
    assert [] + [SpecOf("b")] == [SpecOf("b")];
    assert "1/a"[..2] + "b" == "1/b" && "2/a"[..2] + "b" == "2/b";
    PlacesSnoc(w, empty, [], SpecOf("b"));
  }

  lemma LinkedFilesAreFiles()
    ensures var w := LinkedFiles(); IsFinite(w) && IsFileSystem(w) && NamesAreFixed(w)
  {
    hide Named, Specs, DirectoryOf;
  }

  /** A file is formatted in the directory through which it is first met, so a cycle through
      another directory goes unnoticed: the walk succeeds although a route comes back. */
  lemma CycleGoesUnnoticed()
    ensures exists w, v, root, route ::
        && IsFinite(w) && IsFileSystem(w) && NamesAreFixed(w)
        && IsTrace(w, v, root, [], {}) && IsRoute(w, route, root) && IsCycle(w, route)
  {
    hide IncludesOf, UnitOf, IsFinite, IsFileSystem, NamesAreFixed, IsTrace;
    var w := LinkedFiles();
    LinkedFilesAreFiles();
    var r, one, two, empty := Place("r", Module), Place("1/a", Module), Place("2/a", Module), Place("1/b", Module);
    IncludesOfFiles(w, r, one, two, empty);
    TraceOfOne(w, one, "a", empty, "1/b", ["r"], {"r"});
    var a := Formatted(one, "a", UnitOf(w, one), [Formatted(empty, "1/b", UnitOf(w, empty), [])]);
    TraceOfTwo(w, r, "r", one, a, two, "a");
    var v := Formatted(r, "r", UnitOf(w, r), [a, Skipped("a")]);
    var route := [r, two, Place("2/b", Module)];
    assert IsRoute(w, route, r);
    assert w.canonicalize(route[1].path) == w.canonicalize(route[2].path);
  }

  /** A file that includes one file, which includes none. */
  lemma TraceOfOne(w: World, p: Place, c: string, q: Place, d: string, chain: seq<string>, before: set<string>)
    requires IsReadable(w, p) && w.canonicalize(p.path) == Some(c) && IncludesOf(w, p) == [q]
    requires IsReadable(w, q) && w.canonicalize(q.path) == Some(d) && IncludesOf(w, q) == []
    requires c !in chain && c !in before && d !in chain && d !in before && c != d
    ensures IsTrace(w, Formatted(p, c, UnitOf(w, p), [Formatted(q, d, UnitOf(w, q), [])]), p, chain, before)
  {
    hide IncludesOf, UnitOf, IsReadable;
    var v := Formatted(q, d, UnitOf(w, q), []);
    NoSteps(w, chain + [c] + [d], before + {c} + {d});
    NoSteps(w, chain + [c], before + {c});
    assert before + {c} + {} == before + {c};
    assert IsTrace(w, v, q, chain + [c], before + {c});
    StepSnoc(w, [], v, [], q, chain + [c], before + {c});
    assert [] + [v] == [v] && [] + [q] == [q];
  }

  /** A file with two includes, the second of which has been met. */
  lemma TraceOfTwo(w: World, p: Place, c: string, q: Place, v: Visit, again: Place, d: string)
    requires IsReadable(w, p) && w.canonicalize(p.path) == Some(c) && IncludesOf(w, p) == [q, again]
    requires IsTrace(w, v, q, [c], {c}) && d in Canons(v) && d != c && w.canonicalize(again.path) == Some(d)
    ensures IsTrace(w, Formatted(p, c, UnitOf(w, p), [v, Skipped(d)]), p, [], {})
  {
    hide IncludesOf, UnitOf, IsReadable, Canons;
    NoSteps(w, [c], {c});
    assert {c} + {} == {c} && [] + [c] == [c] && {} + {c} == {c};
    StepSnoc(w, [], v, [], q, [c], {c});
    assert [] + [v] == [v] && [] + [q] == [q];
    assert IsTrace(w, Skipped(d), again, [c], {c} + CanonsAll([v]));
    StepSnoc(w, [v], Skipped(d), [q], again, [c], {c});
    assert [v] + [Skipped(d)] == [v, Skipped(d)] && [q] + [again] == [q, again];
  }
}
