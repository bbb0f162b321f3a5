/** What keeps the cached translation units apart (fpp_lsp_server/src/analysis.rs:58-93, 393-431). */
module Isolation {
  import opened Wrappers
  import opened Handles
  import opened Contexts
  import opened Diagnostics
  import opened Units

  /** Each unit owns its handles, no handle belongs to two units, and a unit is found under its root. */
  ghost predicate AreIsolated(cache: map<nat, Unit>, parsed: map<nat, Parsed>, c: Context) {
    && parsed.Keys == cache.Keys
    && (forall f :: f in cache ==> cache[f].file == f && Owns(cache[f], parsed[f], c))
    && (forall f, g :: f in cache && g in cache && f != g ==> Disjoint(cache[f].gc, cache[g].gc))
  }

  /** Every file in use belongs to a unit, or is one of `others`. */
  ghost predicate AreCovered(cache: map<nat, Unit>, c: Context, others: set<nat>) {
    forall h :: h in c.files.store && h !in others ==> exists f :: f in cache && h in cache[f].gc.files
  }

  /** `others` are in use, and belong to no unit. */
  ghost predicate AreApart(cache: map<nat, Unit>, c: Context, others: GcSet) {
    Within(others, c.Live()) && forall f :: f in cache ==> Disjoint(cache[f].gc, others)
  }

  // ---- One unit ------------------------------------------------------------------------

  lemma OwnsWithin(u: Unit, p: Parsed, c: Context)
    requires Owns(u, p, c)
    ensures Within(u.gc, c.Live()) && u.file in u.gc.files
    ensures u.file in c.files.store && c.files.store[u.file].parent == None
  {
    forall h | h in u.gc.files
      ensures h in c.files.store
    {
      var i :| 0 <= i < |p.names.files| && p.names.files[i] == h;
      assert FileIs(p.outline, p.names, c, i);
    }
    forall h | h in u.gc.spans
      ensures h in c.spans.store
    {
      var i :| 0 <= i < |p.names.spans| && p.names.spans[i] == h;
      assert SpanIs(p.outline, p.names, c, i);
    }
    assert FileIs(p.outline, p.names, c, 0);
    assert p.names.files[0] == u.file;
  }

  /** The items with these keys are still held, with the same data. */
  ghost predicate Spares<V>(before: Ids<V>, after: Ids<V>, keys: set<nat>) {
    forall k :: k in keys && k in before.store ==> k in after.store && after.store[k] == before.store[k]
  }

  lemma OwnsSpared(u: Unit, p: Parsed, before: Context, after: Context)
    requires Owns(u, p, before)
    requires Spares(before.files, after.files, u.gc.files) && Spares(before.spans, after.spans, u.gc.spans)
    requires Spares(before.nodes, after.nodes, u.gc.nodes)
    ensures Owns(u, p, after)
  {
    hide IsTree;
    var o, n := p.outline, p.names;
    forall i | 0 <= i < |n.files|
      ensures FileIs(o, n, after, i)
    {
      assert FileIs(o, n, before, i);
      assert n.files[i] in u.gc.files;
    }
    forall i | 0 <= i < |n.spans|
      ensures SpanIs(o, n, after, i)
    {
      assert SpanIs(o, n, before, i);
      assert forall k :: k in n.spans ==> k in u.gc.spans;
    }
    forall i | 0 <= i < |n.nodes|
      ensures n.nodes[i] in after.nodes.store && after.nodes.store[n.nodes[i]].span == n.spans[o.nodeSpans[i]]
    {
      assert n.nodes[i] in u.gc.nodes;
    }
  }

  lemma OwnsGrows(u: Unit, p: Parsed, before: Context, after: Context)
    requires Owns(u, p, before) && Grows(before, after)
    ensures Owns(u, p, after)
  {
    RealizedGrows(p.outline, p.names, before, after);
  }

  // ---- All units -----------------------------------------------------------------------

  lemma IsolatedGrows(cache: map<nat, Unit>, parsed: map<nat, Parsed>, before: Context, after: Context)
    requires AreIsolated(cache, parsed, before) && Grows(before, after)
    ensures AreIsolated(cache, parsed, after)
  {
    hide Owns;
    forall f | f in cache
      ensures Owns(cache[f], parsed[f], after)
    {
      OwnsGrows(cache[f], parsed[f], before, after);
    }
  }

  /** A new unit is apart from all the others, whose data it does not touch. */
  lemma IsolatedAdd(cache: map<nat, Unit>, parsed: map<nat, Parsed>, before: Context, after: Context, u: Unit, p: Parsed)
    requires AreIsolated(cache, parsed, before) && Made(before, after, p.names) && Owns(u, p, after)
    ensures u.file !in cache
    ensures AreIsolated(cache[u.file := u], parsed[u.file := p], after)
  {
    hide Owns, Ids.Valid, Elements;
    OwnsWithin(u, p, after);
    OwnsNames(u, p, after);
    forall f | f in cache
      ensures Disjoint(cache[f].gc, u.gc) && Disjoint(u.gc, cache[f].gc) && f in cache[f].gc.files
    {
      OwnsWithin(cache[f], parsed[f], before);
    }
    IsolatedGrows(cache, parsed, before, after);
  }

  lemma OwnsNames(u: Unit, p: Parsed, c: Context)
    requires Owns(u, p, c)
    ensures u.gc == SetOf(p.names)
  {
  }

  lemma CoveredAdd(cache: map<nat, Unit>, before: Context, after: Context, others: set<nat>, u: Unit, p: Parsed)
    requires AreCovered(cache, before, others) && Made(before, after, p.names) && Owns(u, p, after)
    requires u.file !in cache
    ensures AreCovered(cache[u.file := u], after, others)
  {
    hide Owns, Ids.Valid, Elements;
    OwnsNames(u, p, after);
    var cache' := cache[u.file := u];
    forall h | h in after.files.store && h !in others
      ensures exists f :: f in cache' && h in cache'[f].gc.files
    {
      if h in u.gc.files {
        assert u.file in cache' && h in cache'[u.file].gc.files;
      } else {
        assert h in before.Live().files;
        var f :| f in cache && h in cache[f].gc.files;
        assert f in cache' && h in cache'[f].gc.files;
      }
    }
  }

  lemma ApartAdd(cache: map<nat, Unit>, before: Context, after: Context, others: GcSet, u: Unit, p: Parsed)
    requires AreApart(cache, before, others) && Made(before, after, p.names) && Owns(u, p, after)
    ensures AreApart(cache[u.file := u], after, others)
  {
    hide Owns, Ids.Valid, Elements;
    OwnsNames(u, p, after);
  }

  lemma ApartFromNothing(cache: map<nat, Unit>, c: Context)
    ensures AreApart(cache, c, NOTHING)
  {
  }

  /** Cleaning up handles that belong to no unit leaves every unit as it was. */
  lemma IsolatedCleanup(cache: map<nat, Unit>, parsed: map<nat, Parsed>, before: Context, after: Context, gc: GcSet)
    requires AreIsolated(cache, parsed, before) && CleanedUp(before, after, gc)
    requires forall f :: f in cache ==> Disjoint(cache[f].gc, gc)
    ensures AreIsolated(cache, parsed, after)
  {
    hide Owns;
    forall f | f in cache
      ensures Owns(cache[f], parsed[f], after)
    {
      SparesApart(before.files, after.files, gc.files, cache[f].gc.files);
      SparesApart(before.spans, after.spans, gc.spans, cache[f].gc.spans);
      SparesApart(before.nodes, after.nodes, gc.nodes, cache[f].gc.nodes);
      OwnsSpared(cache[f], parsed[f], before, after);
    }
  }

  lemma SparesApart<V>(before: Ids<V>, after: Ids<V>, lost: set<nat>, keys: set<nat>)
    requires Loses(before, after, lost) && keys !! lost
    ensures Spares(before, after, keys)
  {
  }

  /** Removing a unit and cleaning up its handles leaves exactly the others. */
  lemma IsolatedRemove(cache: map<nat, Unit>, parsed: map<nat, Parsed>, before: Context, after: Context, f: nat)
    requires AreIsolated(cache, parsed, before) && f in cache && CleanedUp(before, after, cache[f].gc)
    ensures AreIsolated(cache - {f}, parsed - {f}, after)
  {
    hide Owns, CleanedUp;
    IsolatedCleanup(cache - {f}, parsed - {f}, before, after, cache[f].gc);
  }

  lemma CoveredRemove(cache: map<nat, Unit>, before: Context, after: Context, f: nat)
    requires AreCovered(cache, before, {}) && f in cache && CleanedUp(before, after, cache[f].gc)
    ensures AreCovered(cache - {f}, after, {})
  {
    forall h | h in after.files.store
      ensures exists g :: g in cache - {f} && h in (cache - {f})[g].gc.files
    {
      var g :| g in cache && h in cache[g].gc.files;
      assert g in cache - {f} && h in (cache - {f})[g].gc.files;
    }
  }

  lemma CoveredCleanup(cache: map<nat, Unit>, before: Context, after: Context, gc: GcSet)
    requires AreCovered(cache, before, gc.files) && CleanedUp(before, after, gc)
    ensures AreCovered(cache, after, {})
  {
  }

  // ---- The diagnostics of the units ------------------------------------------------------

  /** The ids of all units' diagnostics. */
  ghost function UnitIds(cache: map<nat, Unit>): set<nat> {
    set f, id | f in cache && id in cache[f].diagnostics :: id
  }

  /** A unit's diagnostics are those that its events reported, in the order of the log. */
  ghost predicate Reports(u: Unit, p: Parsed, log: seq<Entry>) {
    && p.first + |p.outline.emits| <= |log|
    && u.diagnostics == Interval(p.first, p.first + |p.outline.emits|)
    && forall i :: 0 <= i < |p.outline.emits| ==> log[p.first + i] == p.outline.emits[i]
  }

  /** What is left of the log are the diagnostics of the units, those of the last analysis
      unless they have been cleared since, and the untracked ones. */
  ghost predicate AreAccounted(cache: map<nat, Unit>, parsed: map<nat, Parsed>, log: seq<Entry>, alive: set<nat>,
                               analysis: set<nat>, untracked: set<nat>)
    requires parsed.Keys == cache.Keys
  {
    && (forall f :: f in cache ==> Reports(cache[f], parsed[f], log))
    && (forall f, g :: f in cache && g in cache && f != g ==> cache[f].diagnostics !! cache[g].diagnostics)
    && UnitIds(cache) !! untracked && UnitIds(cache) !! analysis && analysis !! untracked
    && (analysis <= alive || analysis !! alive)
    && alive == UnitIds(cache) + untracked + (if analysis <= alive then analysis else {})
    && (forall id :: id in alive || id in analysis ==> id < |log|)
  }

  lemma ReportsGrows(u: Unit, p: Parsed, log: seq<Entry>, emits: seq<Entry>)
    requires Reports(u, p, log)
    ensures Reports(u, p, log + emits)
  {
  }

  lemma UnitIdsAdd(cache: map<nat, Unit>, f: nat, u: Unit)
    requires f !in cache
    ensures UnitIds(cache[f := u]) == UnitIds(cache) + u.diagnostics
  {
    var cache' := cache[f := u];
    assert forall g :: g in cache ==> g in cache' && cache'[g] == cache[g];
    assert cache'[f] == u;
    forall id | id in UnitIds(cache) + u.diagnostics
      ensures id in UnitIds(cache')
    {
      if id !in u.diagnostics {
        var g :| g in cache && id in cache[g].diagnostics;
        assert g in cache' && id in cache'[g].diagnostics;
      }
    }
  }

  lemma UnitIdsRemove(cache: map<nat, Unit>, f: nat)
    requires f in cache
    requires forall g :: g in cache && g != f ==> cache[f].diagnostics !! cache[g].diagnostics
    ensures UnitIds(cache - {f}) == UnitIds(cache) - cache[f].diagnostics
  {
    var cache' := cache - {f};
    forall id | id in UnitIds(cache) - cache[f].diagnostics
      ensures id in UnitIds(cache')
    {
      var g :| g in cache && id in cache[g].diagnostics;
      assert g in cache' && id in cache'[g].diagnostics;
    }
  }

  /** The diagnostics of a new unit come on top. */
  lemma AccountedAdd(cache: map<nat, Unit>, parsed: map<nat, Parsed>, log: seq<Entry>, alive: set<nat>,
                     analysis: set<nat>, untracked: set<nat>, u: Unit, p: Parsed, log': seq<Entry>, alive': set<nat>)
    requires parsed.Keys == cache.Keys && AreAccounted(cache, parsed, log, alive, analysis, untracked)
    requires u.file !in cache && p.first == |log| && u.diagnostics == Interval(|log|, |log'|)
    requires Emitted(log, alive, None, p.outline.emits, log', alive', None)
    ensures AreAccounted(cache[u.file := u], parsed[u.file := p], log', alive', analysis, untracked)
    ensures analysis !! alive ==> analysis !! alive'
  {
    hide Reports, UnitIds;
    UnitIdsAdd(cache, u.file, u);
    forall f | f in cache
      ensures Reports(cache[f], parsed[f], log') && cache[f].diagnostics !! u.diagnostics
    {
      ReportsGrows(cache[f], parsed[f], log, p.outline.emits);
      ReportsBelow(cache[f], parsed[f], log);
    }
    NewReports(u, p, log);
    assert analysis !! Interval(|log|, |log'|);
    assert analysis <= alive' <==> analysis <= alive;
  }

  lemma ReportsBelow(u: Unit, p: Parsed, log: seq<Entry>)
    requires Reports(u, p, log)
    ensures forall id :: id in u.diagnostics ==> id < |log|
  {
  }

  lemma NewReports(u: Unit, p: Parsed, log: seq<Entry>)
    requires p.first == |log| && u.diagnostics == Interval(|log|, |log| + |p.outline.emits|)
    ensures Reports(u, p, log + p.outline.emits)
  {
  }

  /** Cleaning up a unit's diagnostics leaves those of all the others. */
  lemma AccountedRemove(cache: map<nat, Unit>, parsed: map<nat, Parsed>, log: seq<Entry>, alive: set<nat>,
                        analysis: set<nat>, untracked: set<nat>, f: nat)
    requires parsed.Keys == cache.Keys && AreAccounted(cache, parsed, log, alive, analysis, untracked) && f in cache
    ensures AreAccounted(cache - {f}, parsed - {f}, log, alive - cache[f].diagnostics, analysis, untracked)
  {
    hide Reports, UnitIds;
    UnitIdsRemove(cache, f);
    OneUnitIds(cache, f);
    assert analysis <= alive - cache[f].diagnostics <==> analysis <= alive;
  }

  lemma OneUnitIds(cache: map<nat, Unit>, f: nat)
    requires f in cache
    ensures cache[f].diagnostics <= UnitIds(cache)
  {
  }

  /** Diagnostics that nothing tracks stay until all are cleared. */
  lemma AccountedUntracked(cache: map<nat, Unit>, parsed: map<nat, Parsed>, log: seq<Entry>, alive: set<nat>,
                           analysis: set<nat>, untracked: set<nat>, emits: seq<Entry>, log': seq<Entry>, alive': set<nat>)
    requires parsed.Keys == cache.Keys && AreAccounted(cache, parsed, log, alive, analysis, untracked)
    requires Emitted(log, alive, None, emits, log', alive', None)
    ensures AreAccounted(cache, parsed, log', alive', analysis, untracked + Interval(|log|, |log'|))
    ensures analysis !! alive ==> analysis !! alive'
  {
    hide Reports, UnitIds;
    forall f | f in cache
      ensures Reports(cache[f], parsed[f], log') && forall id :: id in cache[f].diagnostics ==> id < |log|
    {
      ReportsGrows(cache[f], parsed[f], log, emits);
      ReportsBelow(cache[f], parsed[f], log);
    }
    assert analysis !! Interval(|log|, |log'|);
    assert analysis <= alive' <==> analysis <= alive;
    assert UnitIds(cache) <= alive;
  }

  /** Cleaning up after the last analysis does nothing if its diagnostics were cleared since:
      no id is given out twice. */
  lemma AccountedAnalysis(cache: map<nat, Unit>, parsed: map<nat, Parsed>, log: seq<Entry>, alive: set<nat>,
                          analysis: set<nat>, untracked: set<nat>, emits: seq<Entry>, log': seq<Entry>, alive': set<nat>,
                          analysis': set<nat>)
    requires parsed.Keys == cache.Keys && AreAccounted(cache, parsed, log, alive, analysis, untracked)
    requires Emitted(log, alive - analysis, Some({}), emits, log', alive', Some(analysis'))
    ensures AreAccounted(cache, parsed, log', alive', analysis', untracked)
    ensures analysis' == Interval(|log|, |log'|) && alive' == UnitIds(cache) + untracked + analysis'
  {
    hide Reports, UnitIds;
    forall f | f in cache
      ensures Reports(cache[f], parsed[f], log')
    {
      ReportsGrows(cache[f], parsed[f], log, emits);
    }
    assert alive - analysis == UnitIds(cache) + untracked;
    assert analysis' == Interval(|log|, |log'|);
  }

  lemma AccountedNothing(log: seq<Entry>, stale: set<nat>)
    requires forall id :: id in stale ==> id < |log|
    ensures AreAccounted(map[], map[], log, {}, stale, {})
  {
    assert UnitIds(map[]) == {};
  }
}
