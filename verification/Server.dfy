/** The language server's tasks (fpp_lsp_server/src/analysis.rs:95-501). */
module Server {
  import opened Wrappers
  import opened Handles
  import opened Contexts
  import opened Diagnostics
  import opened Units
  import opened Isolation

  datatype Workspace = NoWorkspace | LocsFile(uri: string) | Full

  datatype Task = ReloadWorkspace | Reprocess(file: nat)

  /** A `textDocument/publishDiagnostics` notification. */
  datatype Notification = Notification(uri: string, diagnostics: seq<Diagnostic>)

  /** What the client shows for a URI: the diagnostics of the last notification for it. */
  function Shown(sent: seq<Notification>, uri: string): seq<Diagnostic> {
    if sent == [] then
      []
    else if sent[|sent| - 1].uri == uri then
      sent[|sent| - 1].diagnostics
    else
      Shown(sent[..|sent| - 1], uri)
  }

  lemma ShownSnoc(sent: seq<Notification>, n: Notification)
    ensures Shown(sent + [n], n.uri) == n.diagnostics
    ensures forall uri :: uri != n.uri ==> Shown(sent + [n], uri) == Shown(sent, uri)
  {
    assert (sent + [n])[..|sent|] == sent;
  }

  /** A file named by the locs file, which may turn out not to be readable. */
  datatype Location = Unreadable(span: nat, diagnostic: Diagnostic) | Readable(script: seq<Event>)

  /** The units are isolated from each other and from `others`, and every file and diagnostic
      is accounted for. */
  ghost predicate IsConsistent(context: CompilerContext, emitter: Emitter, cache: map<nat, Unit>,
                               parsed: map<nat, Parsed>, others: GcSet, analysis: set<nat>, untracked: set<nat>)
    reads context, context.Repr(), emitter
  {
    && context.Valid() && emitter.Valid() && emitter !in context.Repr()
    && context.gc == None && emitter.garbageCollectionSet == None
    && parsed.Keys == cache.Keys
    && AreIsolated(cache, parsed, context.View())
    && AreCovered(cache, context.View(), others.files)
    && AreApart(cache, context.View(), others)
    && AreAccounted(cache, parsed, emitter.log, emitter.alive, analysis, untracked)
  }

  /** Parses a file into a unit beside those that are there. */
  method AddUnit(context: CompilerContext, emitter: Emitter, script: seq<Event>, cache: map<nat, Unit>,
                 ghost parsed: map<nat, Parsed>, ghost others: GcSet, ghost analysis: set<nat>, ghost untracked: set<nat>)
    returns (u: Unit, ghost p: Parsed)
    requires IsConsistent(context, emitter, cache, parsed, others, analysis, untracked)
    requires IsUnit(script, emitter.isUri)
    modifies context.Repr(), emitter
    ensures u.file !in cache && u.file == old(context.View()).files.NextKey()
    ensures IsConsistent(context, emitter, cache[u.file := u], parsed[u.file := p], others, analysis, untracked)
    ensures Made(old(context.View()), context.View(), p.names) && u.gc == SetOf(p.names)
    ensures p.outline == UnitOutline(script, emitter.isUri)
    ensures emitter.log == old(emitter.log) + p.outline.emits
    ensures analysis !! old(emitter.alive) ==> analysis !! emitter.alive
  {
    hide Ids.Valid, Emitter.Valid, Owns, AreIsolated, AreCovered, AreApart, AreAccounted, IsUnit, Made, Interval;
    ghost var before, log, alive := context.View(), emitter.log, emitter.alive;
    u, p := NewTranslationUnitCache(context, emitter, script);
    IsolatedAdd(cache, parsed, before, context.View(), u, p);
    CoveredAdd(cache, before, context.View(), others.files, u, p);
    ApartAdd(cache, before, context.View(), others, u, p);
    AccountedAdd(cache, parsed, log, alive, analysis, untracked, u, p, emitter.log, emitter.alive);
    OwnsNames(u, p, context.View());
  }

  // ---- Files by URI -------------------------------------------------------------------

  /** Whether the table has exactly these files, each under its URI. */
  ghost predicate Lists(table: map<string, seq<nat>>, c: Context, hs: set<nat>) {
    forall uri, h: nat :: uri in table && h in table[uri]
                          <==> h in hs && h in c.files.store && c.files.store[h].uri == uri
  }

  function AddFile(table: map<string, seq<nat>>, uri: string, h: nat): map<string, seq<nat>> {
    table[uri := (if uri in table then table[uri] else []) + [h]]
  }

  lemma AddFileLists(table: map<string, seq<nat>>, c: Context, hs: set<nat>, h: nat)
    requires Lists(table, c, hs) && h in c.files.store
    ensures Lists(AddFile(table, c.files.store[h].uri, h), c, hs + {h})
  {
    var uri := c.files.store[h].uri;
    var table' := AddFile(table, uri, h);
    forall u, k: nat
      ensures u in table' && k in table'[u] <==> k in hs + {h} && k in c.files.store && c.files.store[k].uri == u
    {
      assert u in table && k in table[u] <==> k in hs && k in c.files.store && c.files.store[k].uri == u;
    }
  }

  /** The files of some of the units. */
  ghost function FilesOf(cache: map<nat, Unit>, roots: set<nat>): set<nat> {
    set f, h | f in roots && f in cache && h in cache[f].gc.files :: h
  }

  lemma FilesOfMore(cache: map<nat, Unit>, roots: set<nat>, f: nat)
    requires f in cache
    ensures FilesOf(cache, roots + {f}) == FilesOf(cache, roots) + cache[f].gc.files
    ensures FilesOf(cache, {}) == {}
  {
    assert f in roots + {f};
    forall h | h in FilesOf(cache, roots)
      ensures h in FilesOf(cache, roots + {f})
    {
      var g :| g in roots && g in cache && h in cache[g].gc.files;
      assert g in roots + {f};
    }
  }

  lemma NothingListed(cache: map<nat, Unit>, c: Context)
    ensures Lists(map[], c, {}) && FilesOf(cache, {}) == {}
  {
  }

  lemma AllFiles(cache: map<nat, Unit>, parsed: map<nat, Parsed>, c: Context)
    requires AreIsolated(cache, parsed, c) && AreCovered(cache, c, {})
    ensures FilesOf(cache, cache.Keys) == c.files.store.Keys
  {
    hide Owns;
    forall f | f in cache
      ensures cache[f].gc.files <= c.files.store.Keys
    {
      OwnsWithin(cache[f], parsed[f], c);
    }
  }

  lemma UnitFiles(cache: map<nat, Unit>, parsed: map<nat, Parsed>, c: Context, f: nat)
    requires AreIsolated(cache, parsed, c) && f in cache
    ensures cache[f].gc.files == Elements(cache[f].includes) + {f}
    ensures f in c.files.store && forall i :: 0 <= i < |cache[f].includes| ==> cache[f].includes[i] in c.files.store
  {
    OwnsWithin(cache[f], parsed[f], c);
    var u := cache[f];
    assert parsed[f].names.files == [f] + u.includes;
    ElementsConcat([f], u.includes);
    forall i | 0 <= i < |u.includes|
      ensures u.includes[i] in c.files.store
    {
      assert u.includes[i] in Elements(u.includes);
    }
  }

  method FilesByUri(context: CompilerContext, cache: map<nat, Unit>, ghost parsed: map<nat, Parsed>)
    returns (table: map<string, seq<nat>>)
    requires AreIsolated(cache, parsed, context.View()) && AreCovered(cache, context.View(), {})
    ensures Lists(table, context.View(), context.View().files.store.Keys)
  {
    hide Ids.Valid, AreIsolated, AreCovered, Lists, Elements, FilesOf, AddFile;
    table := map[];
    ghost var c, listed: set<nat> := context.View(), {};
    NothingListed(cache, c);
    AllFiles(cache, parsed, c);
    var unvisited := cache.Keys;
    ghost var visited: set<nat> := {};
    while unvisited != {}
      invariant unvisited <= cache.Keys && visited == cache.Keys - unvisited
      invariant Lists(table, c, FilesOf(cache, visited))
      decreases unvisited
    {
      var file :| file in unvisited;
      var includes := cache[file].includes;
      UnitFiles(cache, parsed, c, file);
      listed := FilesOf(cache, visited);
      NoElements(listed, includes);
      for i := 0 to |includes|
        invariant Lists(table, c, listed + Elements(includes[..i]))
      {
        AddFileLists(table, c, listed + Elements(includes[..i]), includes[i]);
        MoreElements(listed, includes, i);
        table := AddFile(table, context.files.store[includes[i]].uri, includes[i]);
      }
      AddFileLists(table, c, listed + Elements(includes), file);
      table := AddFile(table, context.files.store[file].uri, file);
      FilesOfMore(cache, visited, file);
      assert listed + Elements(includes) + {file} == listed + (Elements(includes) + {file});
      unvisited, visited := unvisited - {file}, visited + {file};
    }
    assert visited == cache.Keys;
  }

  lemma NoElements(s: set<nat>, keys: seq<nat>)
    ensures s + Elements(keys[..0]) == s && keys[..|keys|] == keys
  {
    assert keys[..0] == [];
  }

  lemma MoreElements(s: set<nat>, keys: seq<nat>, i: nat)
    requires i < |keys|
    ensures s + Elements(keys[..i + 1]) == s + Elements(keys[..i]) + {keys[i]}
  {
    assert keys[..i + 1] == keys[..i] + [keys[i]];
    ElementsConcat(keys[..i], [keys[i]]);
  }

  lemma MadeGrows(before: Context, after: Context, made: Names)
    requires Made(before, after, made)
    ensures Grows(before, after) && (before.gc.Some? <==> after.gc.Some?)
  {
  }

  /** When no file is made, the files stay as they are. */
  lemma SameFiles(cache: map<nat, Unit>, before: Context, after: Context, made: Names, table: map<string, seq<nat>>)
    requires Made(before, after, made) && made.files == [] && AreCovered(cache, before, {})
    requires Lists(table, before, before.files.store.Keys)
    ensures AreCovered(cache, after, {}) && Lists(table, after, after.files.store.Keys)
  {
    hide Lists, Ids.Valid;
    assert after.files.store.Keys == before.files.store.Keys;
    assert after.files.store == before.files.store;
    ListsSame(table, before, after);
  }

  lemma ListsSame(table: map<string, seq<nat>>, before: Context, after: Context)
    requires Lists(table, before, before.files.store.Keys) && after.files.store == before.files.store
    ensures Lists(table, after, after.files.store.Keys)
  {
  }

  lemma EmittedLog(log: seq<Entry>, alive: set<nat>, gc: Option<set<nat>>, emits: seq<Entry>,
                   log': seq<Entry>, alive': set<nat>, gc': Option<set<nat>>)
    requires Emitted(log, alive, gc, emits, log', alive', gc')
    ensures log' == log + emits && (gc'.Some? <==> gc.Some?)
  {
  }

  lemma AccountedReports(cache: map<nat, Unit>, parsed: map<nat, Parsed>, log: seq<Entry>, alive: set<nat>,
                         analysis: set<nat>, untracked: set<nat>)
    requires parsed.Keys == cache.Keys && AreAccounted(cache, parsed, log, alive, analysis, untracked)
    ensures forall f :: f in cache ==> Reports(cache[f], parsed[f], log)
  {
  }

  /** The units are those of the scripts, in order. */
  ghost predicate AreLoaded(cache: map<nat, Unit>, parsed: map<nat, Parsed>, roots: seq<nat>,
                            scripts: seq<seq<Event>>, isUri: string -> bool) {
    && |roots| == |scripts| && AreDistinct(roots) && cache.Keys == Elements(roots)
    && forall i :: 0 <= i < |roots| ==>
         roots[i] in parsed && parsed[roots[i]].outline == UnitOutline(scripts[i], isUri)
  }

  function Scripts(locations: seq<Location>): seq<seq<Event>> {
    if locations == [] then
      []
    else
      Scripts(locations[..|locations| - 1])
      + match locations[|locations| - 1] { case Readable(script) => [script] case Unreadable(_, _) => [] }
  }

  lemma ScriptsSnoc(locations: seq<Location>, l: Location)
    ensures l.Readable? ==> Scripts(locations + [l]) == Scripts(locations) + [l.script]
    ensures l.Unreadable? ==> Scripts(locations + [l]) == Scripts(locations)
    ensures Scripts([]) == []
  {
    assert (locations + [l])[..|locations|] == locations;
  }

  /** Whether a file that cannot be read is reported at a span of the locs file. */
  ghost predicate AreLocated(locations: seq<Location>, o: Outline, isUri: string -> bool) {
    forall l :: l in locations ==> if l.Readable? then IsUnit(l.script, isUri) else l.span < |o.spans|
  }

  /** What loading a file reports: what its parse reports, or that it cannot be read. */
  ghost function EntriesOf(l: Location, o: Outline, isUri: string -> bool): seq<Entry>
    requires IsOutline(o)
  {
    match l
    case Readable(script) => UnitOutline(script, isUri).emits
    case Unreadable(span, d) => if span < |o.spans| then [Entry(o.files[o.spans[span].file].uri, d)] else []
  }

  ghost function Logged(locations: seq<Location>, o: Outline, isUri: string -> bool): seq<Entry>
    requires IsOutline(o)
  {
    if locations == [] then
      []
    else
      Logged(locations[..|locations| - 1], o, isUri) + EntriesOf(locations[|locations| - 1], o, isUri)
  }

  /** The ids of the reports that a file cannot be read, when loading starts at `base`. */
  ghost function UnreadableIds(base: nat, locations: seq<Location>, o: Outline, isUri: string -> bool): set<nat>
    requires IsOutline(o)
  {
    if locations == [] then
      {}
    else
      var init := locations[..|locations| - 1];
      UnreadableIds(base, init, o, isUri)
      + if locations[|locations| - 1].Unreadable? then {base + |Logged(init, o, isUri)|} else {}
  }

  lemma LoggedSnoc(base: nat, locations: seq<Location>, l: Location, o: Outline, isUri: string -> bool)
    requires IsOutline(o)
    ensures Logged(locations + [l], o, isUri) == Logged(locations, o, isUri) + EntriesOf(l, o, isUri)
    ensures UnreadableIds(base, locations + [l], o, isUri)
         == UnreadableIds(base, locations, o, isUri) + if l.Unreadable? then {base + |Logged(locations, o, isUri)|} else {}
    ensures Logged([], o, isUri) == [] && UnreadableIds(base, [], o, isUri) == {}
  {
    hide EntriesOf, IsOutline;
    assert (locations + [l])[..|locations|] == locations;
  }

  lemma {:induction false} NoneUnreadable(base: nat, locations: seq<Location>, o: Outline, isUri: string -> bool)
    requires IsOutline(o) && forall l :: l in locations ==> l.Readable?
    ensures UnreadableIds(base, locations, o, isUri) == {}
  {
    hide IsOutline;
    if locations != [] {
      assert locations[|locations| - 1] in locations;
      NoneUnreadable(base, locations[..|locations| - 1], o, isUri);
    }
  }

  lemma LogGrows(log: seq<Entry>, before: seq<Entry>, more: seq<Entry>)
    ensures log + before + more == log + (before + more) && log + [] == log
  {
  }

  /** Parses the files that can be read, and reports the others at their locations. */
  method LoadAll(context: CompilerContext, emitter: Emitter, locations: seq<Location>, known: Names, ghost o: Outline,
                 ghost others: GcSet, ghost analysis: set<nat>, ghost untracked: set<nat>)
    returns (units: map<nat, Unit>, ghost made: map<nat, Parsed>, ghost roots: seq<nat>, ghost reported: set<nat>)
    requires IsConsistent(context, emitter, map[], map[], others, analysis, untracked) && analysis !! emitter.alive
    requires Realizes(o, known, context.View()) && IsOutline(o)
    requires forall i :: 0 <= i < |o.files| ==> emitter.isUri(o.files[i].uri)
    requires AreLocated(locations, o, emitter.isUri)
    modifies context.Repr(), emitter
    ensures IsConsistent(context, emitter, units, made, others, analysis, reported) && analysis !! emitter.alive
    ensures AreLoaded(units, made, roots, Scripts(locations), emitter.isUri)
    ensures emitter.log == old(emitter.log) + Logged(locations, o, emitter.isUri)
    ensures reported == untracked + UnreadableIds(|old(emitter.log)|, locations, o, emitter.isUri)
  {
    hide Logged, UnreadableIds, EntriesOf, Ids.Valid, Emitter.Valid, AreIsolated, AreCovered, AreApart, AreAccounted, Made, IsUnit, Scripts,
         AreLoaded, UnitOutline, Realizes, IsOutline, IsConsistent;
    units, made, roots, reported := map[], map[], [], untracked;
    ScriptsSnoc([], Unreadable(0, Diagnostic(0, 0, 0, "")));
    NoneLoaded(emitter.isUri);
    ghost var log := emitter.log;
    LoggedSnoc(|log|, [], Unreadable(0, Diagnostic(0, 0, 0, "")), o, emitter.isUri);
    LogGrows(log, [], []);
    assert locations[..0] == [] && untracked + {} == untracked;
    for i := 0 to |locations|
      invariant IsConsistent(context, emitter, units, made, others, analysis, reported) && analysis !! emitter.alive
      invariant Realizes(o, known, context.View())
      invariant AreLoaded(units, made, roots, Scripts(locations[..i]), emitter.isUri)
      invariant emitter.log == log + Logged(locations[..i], o, emitter.isUri)
      invariant reported == untracked + UnreadableIds(|log|, locations[..i], o, emitter.isUri)
    {
      ghost var before := context.View();
      LoggedSnoc(|log|, locations[..i], locations[i], o, emitter.isUri);
      LogGrows(log, Logged(locations[..i], o, emitter.isUri), EntriesOf(locations[i], o, emitter.isUri));
      OneEntry(locations[i], o, emitter.isUri);
      assert locations[i] in locations && locations[..i + 1] == locations[..i] + [locations[i]];
      ScriptsSnoc(locations[..i], locations[i]);
      match locations[i] {
        case Readable(script) =>
          var u;
          ghost var p;
          u, p := AddUnit(context, emitter, script, units, made, others, analysis, reported);
          MadeGrows(before, context.View(), p.names);
          RealizedGrows(o, known, before, context.View());
          LoadedMore(units, made, roots, Scripts(locations[..i]), emitter.isUri, u, p, script);
          units, made, roots := units[u.file := u], made[u.file := p], roots + [u.file];
        case Unreadable(span, d) =>
          reported := ReportUntracked(context, emitter, span, d, known, o, units, made, others, analysis, reported);
      }
    }
    assert locations[..|locations|] == locations;
  }

  lemma OneEntry(l: Location, o: Outline, isUri: string -> bool)
    requires IsOutline(o)
    ensures l.Readable? ==> EntriesOf(l, o, isUri) == UnitOutline(l.script, isUri).emits
    ensures l.Unreadable? && l.span < |o.spans| ==>
        EntriesOf(l, o, isUri) == [Entry(o.files[o.spans[l.span].file].uri, l.diagnostic)]
  {
    hide UnitOutline;
  }

  /** Reports a diagnostic that no unit and no analysis owns. */
  method ReportUntracked(context: CompilerContext, emitter: Emitter, span: nat, d: Diagnostic, known: Names,
                         ghost o: Outline, ghost cache: map<nat, Unit>, ghost parsed: map<nat, Parsed>,
                         ghost others: GcSet, ghost analysis: set<nat>, ghost untracked: set<nat>)
    returns (ghost reported: set<nat>)
    requires IsConsistent(context, emitter, cache, parsed, others, analysis, untracked) && analysis !! emitter.alive
    requires Realizes(o, known, context.View()) && IsOutline(o) && span < |o.spans|
    requires forall i :: 0 <= i < |o.files| ==> emitter.isUri(o.files[i].uri)
    modifies emitter
    ensures IsConsistent(context, emitter, cache, parsed, others, analysis, reported) && analysis !! emitter.alive
    ensures emitter.log == old(emitter.log) + [Entry(o.files[o.spans[span].file].uri, d)]
    ensures reported == untracked + {|old(emitter.log)|}
  {
    hide Ids.Valid, Emitter.Valid, AreIsolated, AreCovered, AreApart, AreAccounted, Interval;
    ghost var log, alive := emitter.log, emitter.alive;
    assert SpanIs(o, known, context.View(), span);
    assert FileIs(o, known, context.View(), o.spans[span].file);
    var uri := context.files.store[context.spans.store[known.spans[span]].file].uri;
    emitter.Emit(uri, d);
    EmittedNothing(log, alive, None);
    EmittedMore(log, alive, None, [], log, alive, None, Entry(uri, d));
    assert [] + [Entry(uri, d)] == [Entry(uri, d)];
    AccountedUntracked(cache, parsed, log, alive, analysis, untracked, [Entry(uri, d)], emitter.log, emitter.alive);
    reported := untracked + Interval(|log|, |emitter.log|);
    OneId(|log|);
  }

  lemma OneId(n: nat)
    ensures Interval(n, n + 1) == {n}
  {
  }

  /** The ids of what loading a locs file reports for no unit: the reports of its own parse, and that
      files cannot be read. */
  ghost function UntrackedIds(base: nat, locations: seq<Location>, o: Outline, isUri: string -> bool): set<nat>
    requires IsOutline(o)
  {
    Interval(base, base + |o.emits|) + UnreadableIds(base + |o.emits|, locations, o, isUri)
  }

  method IndexFiles(emitter: Emitter, locations: seq<Location>, ghost stale: set<nat>)
    returns (context: CompilerContext, units: map<nat, Unit>, ghost made: map<nat, Parsed>, ghost roots: seq<nat>)
    requires emitter.Valid() && emitter.garbageCollectionSet == None && emitter.alive == {}
    requires forall id :: id in stale ==> id < |emitter.log|
    requires forall l :: l in locations ==> l.Readable? && IsUnit(l.script, emitter.isUri)
    modifies emitter
    ensures fresh(context) && fresh(context.Repr())
    ensures IsConsistent(context, emitter, units, made, NOTHING, stale, {})
    ensures AreLoaded(units, made, roots, Scripts(locations), emitter.isUri)
    ensures emitter.alive == UnitIds(units)
    ensures IsOutline(BLANK) && emitter.log == old(emitter.log) + Logged(locations, BLANK, emitter.isUri)
  {
    hide Logged, UnreadableIds, Ids.Valid, Emitter.Valid, AreIsolated, AreCovered, AreApart, AreAccounted, IsUnit, UnitIds, AreLoaded, UnitOutline,
         Scripts, Realizes, IsOutline;
    context := new CompilerContext();
    NothingLoaded(context, emitter, stale);
    NothingRealized(context.View());
    BlankOutline();
    ghost var reported;
    units, made, roots, reported := LoadAll(context, emitter, locations, NO_NAMES, BLANK, NOTHING, stale, {});
    NoneUnreadable(|old(emitter.log)|, locations, BLANK, emitter.isUri);
    assert reported == {};
    LoadedIds(context, emitter, units, made, NOTHING, stale, reported);
    assert UnitIds(units) + {} == UnitIds(units);
  }

  lemma BlankOutline()
    ensures IsOutline(BLANK)
  {
  }

  method IndexLocs(emitter: Emitter, locs: seq<Event>, locations: seq<Location>, ghost stale: set<nat>)
    returns (context: CompilerContext, units: map<nat, Unit>, ghost made: map<nat, Parsed>, ghost roots: seq<nat>,
             ghost reported: set<nat>)
    requires emitter.Valid() && emitter.garbageCollectionSet == None && emitter.alive == {}
    requires forall id :: id in stale ==> id < |emitter.log|
    requires IsScript(BLANK, locs, emitter.isUri) && AreLocated(locations, OutlineOf(BLANK, locs, emitter.isUri), emitter.isUri)
    modifies emitter
    ensures fresh(context) && fresh(context.Repr())
    ensures IsConsistent(context, emitter, units, made, NOTHING, stale, reported)
    ensures AreLoaded(units, made, roots, Scripts(locations), emitter.isUri)
    ensures emitter.alive == UnitIds(units) + reported
    ensures var o := OutlineOf(BLANK, locs, emitter.isUri);
            && emitter.log == old(emitter.log) + o.emits + Logged(locations, o, emitter.isUri)
            && reported == UntrackedIds(|old(emitter.log)|, locations, o, emitter.isUri)
  {
    hide Logged, UnreadableIds, Ids.Valid, Emitter.Valid, AreIsolated, AreCovered, AreApart, AreAccounted, IsUnit, UnitIds, AreLoaded, UnitOutline,
         Scripts, Realizes, IsOutline, OutlineOf, IsScript, Emitted, Elements, Interval, AreLocated, Made, CleanedUp;
    ghost var log := emitter.log;
    var names, locsGc;
    ghost var o;
    context, names, locsGc, o := ParseLocs(emitter, locs, stale);
    units, made, roots, reported :=
      LoadAll(context, emitter, locations, names, o, locsGc, stale, Interval(|log|, |emitter.log|));
    ghost var before := context.View();
    context.GarbageCollectionCleanup(locsGc);
    CleanedUpGc(before, context.View(), locsGc);
    LocsDropped(context, emitter, before, units, made, locsGc, stale, reported);
    LoadedIds(context, emitter, units, made, NOTHING, stale, reported);
  }

  /** Parses the locs file in a new context. */
  method ParseLocs(emitter: Emitter, locs: seq<Event>, ghost stale: set<nat>)
    returns (context: CompilerContext, names: Names, locsGc: GcSet, ghost o: Outline)
    requires emitter.Valid() && emitter.garbageCollectionSet == None && emitter.alive == {}
    requires forall id :: id in stale ==> id < |emitter.log|
    requires IsScript(BLANK, locs, emitter.isUri)
    modifies emitter
    ensures fresh(context) && fresh(context.Repr())
    ensures emitter.log == old(emitter.log) + o.emits
    ensures o == OutlineOf(BLANK, locs, emitter.isUri) && Realizes(o, names, context.View())
    ensures forall i :: 0 <= i < |o.files| ==> emitter.isUri(o.files[i].uri)
    ensures IsConsistent(context, emitter, map[], map[], locsGc, stale, Interval(|old(emitter.log)|, |emitter.log|))
    ensures stale !! emitter.alive
  {
    hide Ids.Valid, Emitter.Valid, AreIsolated, AreCovered, AreApart, AreAccounted, Realizes, OutlineOf, IsScript, Emitted,
         Elements, Interval, Made, IsOutline;
    context := new CompilerContext();
    context.GarbageCollectionStart();
    NothingRealized(context.View());
    BlankOutline();
    ghost var before, log := context.View(), emitter.log;
    names, o := RunScript(context, emitter, locs, BLANK, NO_NAMES);
    ghost var after := context.View();
    MadeGrows(before, after, names);
    locsGc := context.GarbageCollectionFinish();
    EmittedLog(log, {}, None, o.emits, emitter.log, emitter.alive, emitter.garbageCollectionSet);
    LocsParsed(context, emitter, before, after, names, o, log, stale);
  }

  lemma NoneLoaded(isUri: string -> bool)
    ensures AreLoaded(map[], map[], [], [], isUri)
  {
  }

  lemma NothingLoaded(context: CompilerContext, emitter: Emitter, stale: set<nat>)
    requires context.Valid() && emitter.Valid() && emitter !in context.Repr()
    requires context.View() == Context(Ids(map[], 0, []), Ids(map[], 0, []), Ids(map[], 0, []), None)
    requires emitter.garbageCollectionSet == None && emitter.alive == {}
    requires forall id :: id in stale ==> id < |emitter.log|
    ensures IsConsistent(context, emitter, map[], map[], NOTHING, stale, {})
  {
    AccountedNothing(emitter.log, stale);
  }

  lemma LoadedIds(context: CompilerContext, emitter: Emitter, cache: map<nat, Unit>, parsed: map<nat, Parsed>,
                  others: GcSet, analysis: set<nat>, untracked: set<nat>)
    requires IsConsistent(context, emitter, cache, parsed, others, analysis, untracked) && analysis !! emitter.alive
    ensures emitter.alive == UnitIds(cache) + untracked
  {
    AccountedAlive(cache, parsed, emitter.log, emitter.alive, analysis, untracked);
  }

  /** After the locs file has been parsed there are no units yet, and its handles are set apart. */
  lemma LocsParsed(context: CompilerContext, emitter: Emitter, before: Context, after: Context, names: Names,
                   o: Outline, log: seq<Entry>, stale: set<nat>)
    requires context.Valid() && emitter.Valid() && emitter !in context.Repr()
    requires before == Context(Ids(map[], 0, []), Ids(map[], 0, []), Ids(map[], 0, []), Some(NOTHING))
    requires Made(before, after, names) && context.View() == after.(gc := None)
    requires Emitted(log, {}, None, o.emits, emitter.log, emitter.alive, emitter.garbageCollectionSet)
    requires Realizes(o, Then(NO_NAMES, names), after)
    requires forall id :: id in stale ==> id < |log|
    ensures after.gc.Some? && Realizes(o, names, context.View())
    ensures IsConsistent(context, emitter, map[], map[], after.gc.value, stale, Interval(|log|, |emitter.log|))
    ensures stale !! emitter.alive
  {
    hide Ids.Valid, Emitter.Valid, Made, Realizes, AreAccounted, Emitted, Interval, AreCovered, AreApart;
    ThenNothing(names);
    RealizedWithoutGc(o, names, after);
    LocsApart(before, after, names);
    EmittedLog(log, {}, None, o.emits, emitter.log, emitter.alive, emitter.garbageCollectionSet);
    AccountedNothing(log, stale);
    AccountedUntracked(map[], map[], log, {}, stale, {}, o.emits, emitter.log, emitter.alive);
    assert {} + Interval(|log|, |emitter.log|) == Interval(|log|, |emitter.log|);
  }

  lemma LocsApart(before: Context, after: Context, names: Names)
    requires before == Context(Ids(map[], 0, []), Ids(map[], 0, []), Ids(map[], 0, []), Some(NOTHING))
    requires Made(before, after, names)
    ensures after.gc == Some(SetOf(names))
    ensures AreCovered(map[], after.(gc := None), SetOf(names).files) && AreApart(map[], after.(gc := None), SetOf(names))
  {
    hide Ids.Valid, Elements;
    assert before.Live() == NOTHING && Plus(NOTHING, SetOf(names)) == SetOf(names);
  }

  /** Dropping the locs file leaves the units as they are. */
  lemma LocsDropped(context: CompilerContext, emitter: Emitter, before: Context, cache: map<nat, Unit>,
                    parsed: map<nat, Parsed>, locsGc: GcSet, analysis: set<nat>, untracked: set<nat>)
    requires context.Valid() && emitter.Valid() && emitter !in context.Repr()
    requires before.gc == None && emitter.garbageCollectionSet == None && parsed.Keys == cache.Keys
    requires AreIsolated(cache, parsed, before) && AreCovered(cache, before, locsGc.files)
    requires AreApart(cache, before, locsGc) && CleanedUp(before, context.View(), locsGc)
    requires AreAccounted(cache, parsed, emitter.log, emitter.alive, analysis, untracked)
    ensures IsConsistent(context, emitter, cache, parsed, NOTHING, analysis, untracked)
  {
    hide Ids.Valid, Emitter.Valid, AreIsolated, AreCovered, AreAccounted;
    IsolatedCleanup(cache, parsed, before, context.View(), locsGc);
    CoveredCleanup(cache, before, context.View(), locsGc);
    ApartFromNothing(cache, context.View());
  }

  lemma LoadedMore(cache: map<nat, Unit>, parsed: map<nat, Parsed>, roots: seq<nat>, scripts: seq<seq<Event>>,
                   isUri: string -> bool, u: Unit, p: Parsed, script: seq<Event>)
    requires AreLoaded(cache, parsed, roots, scripts, isUri) && u.file !in cache
    requires p.outline == UnitOutline(script, isUri)
    ensures AreLoaded(cache[u.file := u], parsed[u.file := p], roots + [u.file], scripts + [script], isUri)
  {
    hide UnitOutline;
    ElementsConcat(roots, [u.file]);
    OneElement(u.file);
    assert u.file !in roots;
    forall i | 0 <= i < |roots|
      ensures roots[i] != u.file
    {
      assert roots[i] in roots;
    }
  }

  lemma AccountedIds(cache: map<nat, Unit>, parsed: map<nat, Parsed>, log: seq<Entry>, alive: set<nat>,
                     analysis: set<nat>, untracked: set<nat>)
    requires parsed.Keys == cache.Keys && AreAccounted(cache, parsed, log, alive, analysis, untracked)
    ensures forall id :: id in analysis ==> id < |log|
  {
  }

  /** Once everything has been cleared, nothing is left of the last analysis. */
  lemma AccountedAlive(cache: map<nat, Unit>, parsed: map<nat, Parsed>, log: seq<Entry>, alive: set<nat>,
                       analysis: set<nat>, untracked: set<nat>)
    requires parsed.Keys == cache.Keys && AreAccounted(cache, parsed, log, alive, analysis, untracked)
    ensures alive == UnitIds(cache) + untracked + (alive * analysis)
  {
  }

  // ---- The tasks ------------------------------------------------------------------------

  class GlobalState {
    const diagnostics: Emitter
    var context: CompilerContext
    var cache: map<nat, Unit>
    var files: map<string, seq<nat>>
    var workspace: Workspace
    var analysisDiagnostics: set<nat>
    var analysisDirty: bool
    var publishedUris: set<string>
    var sent: seq<Notification>
    /** How each cached unit came about, and the diagnostics that nothing tracks. */
    ghost var parsed: map<nat, Parsed>
    ghost var untracked: set<nat>

    ghost predicate Valid()
      reads this, context, context.Repr(), diagnostics
    {
      && this !in context.Repr()
      && IsConsistent(context, diagnostics, cache, parsed, NOTHING, analysisDiagnostics, untracked)
      && (forall uri :: Shown(sent, uri) != [] ==> uri in publishedUris)
    }

    constructor (isUri: string -> bool)
      ensures Valid() && diagnostics.isUri == isUri
    {
      hide IsConsistent, Emitter.Valid, Ids.Valid;
      diagnostics := new Emitter(isUri);
      context := new CompilerContext();
      cache, files, workspace := map[], map[], NoWorkspace;
      analysisDiagnostics, analysisDirty, publishedUris, sent := {}, false, {}, [];
      parsed, untracked := map[], {};
      new;
      NothingLoaded(context, diagnostics, {});
    }

    method Send(uri: string, ds: seq<Diagnostic>)
      modifies `sent
      ensures Shown(sent, uri) == ds
      ensures forall u :: u != uri ==> Shown(sent, u) == Shown(old(sent), u)
    {
      ShownSnoc(sent, Notification(uri, ds));
      sent := sent + [Notification(uri, ds)];
    }

    /** Afterwards the client shows, for every URI, exactly what the store holds. */
    method PublishDiagnostics()
      requires diagnostics.Valid()
      requires forall uri :: Shown(sent, uri) != [] ==> uri in publishedUris
      modifies `sent, `publishedUris
      ensures forall uri :: Shown(sent, uri) == Payloads(Kept(diagnostics.log, diagnostics.alive, uri))
      ensures forall uri :: Shown(sent, uri) != [] ==> uri in publishedUris
    {
      hide Kept, Shown, Emitter.Valid;
      var current := diagnostics.All();
      ghost var store := current;
      var cleared := publishedUris;
      while cleared != {}
        invariant forall uri :: Shown(sent, uri) != [] ==> uri in cleared || uri in store
        decreases cleared
      {
        var uri :| uri in cleared;
        cleared := cleared - {uri};
        if uri !in current {
          Send(uri, []);
        }
      }
      var published: set<string> := {};
      var unsent := current.Keys;
      while unsent != {}
        invariant unsent <= store.Keys && published == store.Keys - unsent
        invariant forall uri :: uri in published ==> Shown(sent, uri) == store[uri]
        invariant forall uri :: uri !in store ==> Shown(sent, uri) == []
        decreases unsent
      {
        var uri :| uri in unsent;
        unsent := unsent - {uri};
        Send(uri, current[uri]);
        published := published + {uri};
      }
      publishedUris := published;
      forall uri
        ensures Shown(sent, uri) == Payloads(Kept(diagnostics.log, diagnostics.alive, uri))
      {
        assert (if uri in store then store[uri] else []) == Payloads(Kept(diagnostics.log, diagnostics.alive, uri));
      }
    }

    /** The root of the unit that a file in use belongs to. */
    method ParentFile(file: nat) returns (root: nat)
      requires Valid() && file in context.files.store
      ensures root in cache && file in cache[root].gc.files
    {
      hide Owns, AreAccounted, Ids.Valid, Emitter.Valid;
      ghost var f :| f in cache && file in cache[f].gc.files;
      ghost var p, c := parsed[f], context.View();
      ghost var i := PositionOf(cache[f], p, c, file);
      root := file;
      while context.files.store[root].parent.Some?
        invariant 0 <= i < |p.names.files| && p.names.files[i] == root && root in context.files.store
        decreases i
      {
        i := ParentPosition(cache[f], p, c, i);
        root := context.files.store[root].parent.value;
      }
      RootPosition(cache[f], p, c, i);
    }

    /**
     A file changed. It names the units that hold it, according to the last analysis, and
     panics if and only if one of the files it was held as is no longer in use.
     */
    method Update(uri: string) returns (ok: bool, tasks: set<Task>)
      requires Valid()
      ensures ok <==> workspace == LocsFile(uri) || uri !in files
                      || forall h :: h in files[uri] ==> h in context.files.store
      ensures ok && workspace == LocsFile(uri) ==> tasks == {ReloadWorkspace}
      ensures ok && workspace != LocsFile(uri) ==>
          tasks == set f | f in Affected(cache, if uri in files then files[uri] else []) :: Task.Reprocess(f)
    {
      hide AreIsolated, AreCovered, AreAccounted, Emitter.Valid, Ids.Valid, Affected;
      if workspace == LocsFile(uri) {
        return true, {ReloadWorkspace};
      }
      AffectedBy(cache, []);
      if uri !in files {
        return true, {};
      }
      var handles := files[uri];
      var updateSet: set<nat> := {};
      for i := 0 to |handles|
        invariant forall k :: 0 <= k < i ==> handles[k] in context.files.store
        invariant updateSet == Affected(cache, handles[..i])
      {
        if handles[i] !in context.files.store {
          return false, {};
        }
        var root := ParentFile(handles[i]);
        UnitsAreIsolated();
        AffectedSnoc(cache, parsed, context.View(), handles[..i], handles[i], root);
        assert handles[..i + 1] == handles[..i] + [handles[i]];
        updateSet := updateSet + {root};
      }
      assert handles[..|handles|] == handles;
      ok, tasks := true, set f | f in updateSet :: Task.Reprocess(f);
    }

    /** Gives up a unit's diagnostics and handles. */
    method Forget(file: nat)
      requires Valid() && file in cache
      modifies this, context.Repr(), diagnostics
      ensures Valid() && cache == old(cache) - {file} && parsed == old(parsed) - {file}
      ensures context == old(context) && files == old(files) && sent == old(sent) && workspace == old(workspace)
      ensures CleanedUp(old(context.View()), context.View(), old(cache)[file].gc)
      ensures diagnostics.log == old(diagnostics.log)
    {
      hide Ids.Valid, Emitter.Valid, Owns, AreIsolated, AreCovered, AreApart, AreAccounted, CleanedUp, Shown;
      var oldCache := cache[file];
      ghost var before := context.View();
      AccountedRemove(cache, parsed, diagnostics.log, diagnostics.alive, analysisDiagnostics, untracked, file);
      diagnostics.CleanupGarbageCollection(oldCache.diagnostics);
      context.GarbageCollectionCleanup(oldCache.gc);
      IsolatedRemove(cache, parsed, before, context.View(), file);
      CoveredRemove(cache, before, context.View(), file);
      ApartFromNothing(cache - {file}, context.View());
      CleanedUpGc(before, context.View(), oldCache.gc);
      cache, parsed := cache - {file}, parsed - {file};
    }

    /**
     Parses a changed unit again. It panics if and only if the unit is no longer known under
     this root. Otherwise exactly the unit's own handles and diagnostics are given up, and the
     new root gets one of those handles, though not always the old root's.
     */
    method Reprocess(file: nat, script: seq<Event>) returns (ok: bool, ghost root: nat)
      requires Valid() && IsUnit(script, diagnostics.isUri)
      requires file in cache ==> file in context.files.store && script[0].uri == context.files.store[file].uri
      modifies this, context.Repr(), diagnostics
      ensures Valid()
      ensures ok <==> file in old(cache)
      ensures context == old(context) && files == old(files) && sent == old(sent) && workspace == old(workspace)
      ensures !ok ==> cache == old(cache) && parsed == old(parsed) && context.View() == old(context.View())
                      && diagnostics.log == old(diagnostics.log) && diagnostics.alive == old(diagnostics.alive)
      ensures ok ==>
          && IsReparsed(old(cache), old(parsed), old(context.View()), cache, parsed, context.View(), file, root)
          && parsed[root].outline == UnitOutline(script, diagnostics.isUri)
          && diagnostics.log == old(diagnostics.log) + parsed[root].outline.emits
          && analysisDirty
    {
      hide Ids.Valid, Emitter.Valid, Owns, AreIsolated, AreCovered, AreApart, AreAccounted, IsUnit, Made, CleanedUp,
           SparesAllBut, IsConsistent, IsReparsed;
      if file !in cache {
        return false, 0;
      }
      ghost var before, cache0, parsed0 := context.View(), cache, parsed;
      ghost var oldCache := cache[file];
      RootIsLive(file);
      assert context.files.store[file].parent == None && cache[file].file == file;
      Forget(file);
      ghost var mid := context.View();
      var u;
      ghost var p;
      u, p := AddUnit(context, diagnostics, script, cache, parsed, NOTHING, analysisDiagnostics, untracked);
      ReusedRoot(oldCache, before, mid);
      Replaced(before, mid, context.View(), oldCache.gc, p.names);
      ReparsedWhen(cache0, parsed0, before, context.View(), file, u, p);
      cache, parsed := cache[u.file := u], parsed[u.file := p];
      analysisDirty := true;
      ok, root := true, u.file;
    }

    lemma RootIsLive(f: nat)
      requires Valid() && f in cache
      ensures cache[f].file == f && f in context.files.store && context.files.store[f].parent == None
      ensures Within(cache[f].gc, context.View().Live()) && f in cache[f].gc.files
      ensures cache[f].includes == [] ==> cache[f].gc.files == {f}
    {
      IsolatedUnit(cache, parsed, context.View(), f);
    }

    /**
     Analyzes all units anew. Afterwards every file in use is found by its URI, the store holds
     the diagnostics of the units as they were last parsed, those of this analysis and the
     untracked ones, and the client shows exactly what the store holds.
     */
    method Analyze(script: seq<Event>, known: Names, ghost o0: Outline) returns (ghost o: Outline)
      requires Valid() && IsOutline(o0) && Realizes(o0, known, context.View()) && o0.emits == []
      requires forall i :: 0 <= i < |o0.files| ==> diagnostics.isUri(o0.files[i].uri)
      requires IsScript(o0, script, diagnostics.isUri) && forall i :: 0 <= i < |script| ==> !script[i].NewFile?
      modifies this, context.Repr(), diagnostics
      ensures Valid() && cache == old(cache) && parsed == old(parsed) && untracked == old(untracked)
      ensures context == old(context) && workspace == old(workspace)
      ensures Grows(old(context.View()), context.View())
      ensures Lists(files, context.View(), context.View().files.store.Keys)
      ensures o == OutlineOf(o0, script, diagnostics.isUri) && diagnostics.log == old(diagnostics.log) + o.emits
      ensures analysisDiagnostics == Interval(|old(diagnostics.log)|, |diagnostics.log|)
      ensures diagnostics.alive == UnitIds(cache) + untracked + analysisDiagnostics
      ensures forall f :: f in cache ==> f in parsed && Reports(cache[f], parsed[f], diagnostics.log)
      ensures forall uri :: Shown(sent, uri) == Payloads(Kept(diagnostics.log, diagnostics.alive, uri))
    {
      hide Ids.Valid, Emitter.Valid, AreIsolated, AreCovered, AreApart, AreAccounted, Lists, Realizes, OutlineOf,
           IsScript, Made, Kept, Shown, Reports, UnitIds, IsOutline, Interval, Emitted;
      ghost var log, alive, before := diagnostics.log, diagnostics.alive, context.View();
      ghost var stale := analysisDiagnostics;
      diagnostics.CleanupGarbageCollection(analysisDiagnostics);
      diagnostics.StartGarbageCollection();
      var table := FilesByUri(context, cache, parsed);
      var made;
      made, o := RunScript(context, diagnostics, script, o0, known);
      ghost var after := context.View();
      EmittedLog(log, alive - stale, Some({}), o.emits, diagnostics.log, diagnostics.alive,
                 diagnostics.garbageCollectionSet);
      analysisDiagnostics := diagnostics.FinishGarbageCollection();
      AccountedAnalysis(cache, parsed, log, alive, stale, untracked, o.emits, diagnostics.log, diagnostics.alive,
                        analysisDiagnostics);
      MadeGrows(before, after, made);
      IsolatedGrows(cache, parsed, before, after);
      SameFiles(cache, before, after, made, table);
      ApartFromNothing(cache, after);
      AccountedReports(cache, parsed, diagnostics.log, diagnostics.alive, analysisDiagnostics, untracked);
      files := table;
      PublishDiagnostics();
    }

    /** Indexes every file of the workspace that can be read, in a new context. */
    method LoadFullWorkspace(locations: seq<Location>) returns (ghost roots: seq<nat>)
      requires Valid() && forall l :: l in locations ==> l.Readable? && IsUnit(l.script, diagnostics.isUri)
      modifies this, diagnostics
      ensures Valid() && fresh(context) && fresh(context.Repr())
      ensures AreLoaded(cache, parsed, roots, Scripts(locations), diagnostics.isUri)
      ensures diagnostics.alive == UnitIds(cache) && untracked == {}
      ensures IsOutline(BLANK) && diagnostics.log == old(diagnostics.log) + Logged(locations, BLANK, diagnostics.isUri)
      ensures files == map[] && workspace == Full && sent == old(sent)
    {
      hide Ids.Valid, Emitter.Valid, AreIsolated, AreCovered, AreApart, AreAccounted, Shown, IsUnit, UnitIds, AreLoaded,
           UnitOutline, Scripts, Logged;
      ClearsAll();
      diagnostics.Clear();
      files, workspace := map[], Full;
      var ctx, units;
      ghost var made;
      ctx, units, made, roots := IndexFiles(diagnostics, locations, analysisDiagnostics);
      context, cache, parsed, untracked := ctx, units, made, {};
    }

    /**
     Indexes the files that the locs file names, in a new context, which does not keep the
     locs file itself.
     */
    method LoadLocsFile(uri: string, locs: seq<Event>, locations: seq<Location>) returns (ghost roots: seq<nat>)
      requires Valid() && IsScript(BLANK, locs, diagnostics.isUri)
      requires AreLocated(locations, OutlineOf(BLANK, locs, diagnostics.isUri), diagnostics.isUri)
      modifies this, diagnostics
      ensures Valid() && fresh(context) && fresh(context.Repr())
      ensures AreLoaded(cache, parsed, roots, Scripts(locations), diagnostics.isUri)
      ensures diagnostics.alive == UnitIds(cache) + untracked
      ensures var o := OutlineOf(BLANK, locs, diagnostics.isUri);
              && diagnostics.log == old(diagnostics.log) + o.emits + Logged(locations, o, diagnostics.isUri)
              && untracked == UntrackedIds(|old(diagnostics.log)|, locations, o, diagnostics.isUri)
      ensures files == map[] && workspace == LocsFile(uri) && sent == old(sent)
    {
      hide Ids.Valid, Emitter.Valid, AreIsolated, AreCovered, AreApart, AreAccounted, Shown, AreLocated, UnitIds, AreLoaded,
           UnitOutline, Scripts, OutlineOf, IsScript, Logged, UntrackedIds;
      ClearsAll();
      diagnostics.Clear();
      files, workspace := map[], LocsFile(uri);
      var ctx, units;
      ghost var made, reported;
      ctx, units, made, roots, reported := IndexLocs(diagnostics, locs, locations, analysisDiagnostics);
      context, cache, parsed, untracked := ctx, units, made, reported;
    }

    lemma ClearsAll()
      requires Valid()
      ensures forall id :: id in analysisDiagnostics ==> id < |diagnostics.log|
    {
      AccountedIds(cache, parsed, diagnostics.log, diagnostics.alive, analysisDiagnostics, untracked);
    }

    lemma UnitsAreIsolated()
      requires Valid()
      ensures AreIsolated(cache, parsed, context.View())
    {
    }
  }

  lemma PositionOf(u: Unit, p: Parsed, c: Context, file: nat) returns (i: nat)
    requires Owns(u, p, c) && file in u.gc.files
    ensures i < |p.names.files| && p.names.files[i] == file && file in c.files.store
  {
    i :| 0 <= i < |p.names.files| && p.names.files[i] == file;
    assert FileIs(p.outline, p.names, c, i);
  }

  /** The parent of a file of a unit is one of the files before it. */
  lemma ParentPosition(u: Unit, p: Parsed, c: Context, i: nat) returns (j: nat)
    requires Owns(u, p, c) && i < |p.names.files| && p.names.files[i] in c.files.store
    requires c.files.store[p.names.files[i]].parent.Some?
    ensures j < i && p.names.files[j] == c.files.store[p.names.files[i]].parent.value
    ensures p.names.files[j] in c.files.store
  {
    assert FileIs(p.outline, p.names, c, i);
    j := p.outline.files[i].parent.value;
    assert FileIs(p.outline, p.names, c, j);
  }

  lemma RootPosition(u: Unit, p: Parsed, c: Context, i: nat)
    requires Owns(u, p, c) && i < |p.names.files| && p.names.files[i] in c.files.store
    requires c.files.store[p.names.files[i]].parent.None?
    ensures p.names.files[i] == u.file
  {
    assert FileIs(p.outline, p.names, c, i);
  }

  ghost predicate HoldsAny(u: Unit, handles: seq<nat>) {
    exists h :: h in handles && h in u.gc.files
  }

  /** The units that hold one of the files. */
  ghost function Affected(cache: map<nat, Unit>, handles: seq<nat>): set<nat> {
    set f | f in cache && HoldsAny(cache[f], handles)
  }

  lemma AffectedBy(cache: map<nat, Unit>, handles: seq<nat>)
    ensures handles == [] ==> Affected(cache, handles) == {}
  {
  }

  /** A file in use belongs to one unit. */
  lemma AffectedSnoc(cache: map<nat, Unit>, parsed: map<nat, Parsed>, c: Context, handles: seq<nat>, h: nat, root: nat)
    requires AreIsolated(cache, parsed, c) && root in cache && h in cache[root].gc.files
    ensures Affected(cache, handles + [h]) == Affected(cache, handles) + {root}
  {
    hide Owns;
    assert h in handles + [h];
    forall f | f in cache
      ensures HoldsAny(cache[f], handles + [h]) <==> HoldsAny(cache[f], handles) || f == root
    {
      assert f != root ==> Disjoint(cache[f].gc, cache[root].gc);
      forall g | g in handles && g in cache[f].gc.files
        ensures g in handles + [h]
      {
      }
    }
  }

  /** A cached unit's root is in use and is not included. */
  lemma IsolatedUnit(cache: map<nat, Unit>, parsed: map<nat, Parsed>, c: Context, f: nat)
    requires AreIsolated(cache, parsed, c) && f in cache
    ensures cache[f].file == f && f in c.files.store && c.files.store[f].parent == None
    ensures Within(cache[f].gc, c.Live()) && f in cache[f].gc.files
    ensures cache[f].includes == [] ==> cache[f].gc.files == {f}
  {
    OwnsWithin(cache[f], parsed[f], c);
    if cache[f].includes == [] {
      assert parsed[f].names.files == [f];
    }
  }

  /** The next file takes a handle that the unit gave up, which is the root's if it had no other. */
  lemma ReusedRoot(u: Unit, before: Context, after: Context)
    requires CleanedUp(before, after, u.gc) && Within(u.gc, before.Live()) && u.file in u.gc.files
    ensures after.files.NextKey() in u.gc.files
    ensures u.gc.files == {u.file} ==> after.files.NextKey() == u.file
  {
    assert u.file in u.gc.files * before.files.store.Keys;
    DroppedIsNext(before.files, after.files, u.gc.files);
  }

  lemma CleanedUpGc(before: Context, after: Context, gc: GcSet)
    requires CleanedUp(before, after, gc)
    ensures after.gc == before.gc
  {
  }

  /** One unit has been replaced by another; all that is not the old unit's is as it was. */
  ghost predicate IsReparsed(cache0: map<nat, Unit>, parsed0: map<nat, Parsed>, before: Context,
                             cache: map<nat, Unit>, parsed: map<nat, Parsed>, after: Context, file: nat, root: nat) {
    && file in cache0 && root in cache && root in parsed
    && root in cache0[file].gc.files && root !in cache0 - {file}
    && (cache0[file].includes == [] ==> root == file)
    && cache == (cache0 - {file})[root := cache[root]]
    && parsed == (parsed0 - {file})[root := parsed[root]]
    && SparesAllBut(before, after, cache0[file].gc)
    && after.Live() == Plus(Minus(before.Live(), cache0[file].gc), cache[root].gc)
  }

  lemma ReparsedWhen(cache0: map<nat, Unit>, parsed0: map<nat, Parsed>, before: Context, after: Context,
                     file: nat, u: Unit, p: Parsed)
    requires file in cache0 && u.file in cache0[file].gc.files && u.file !in cache0 - {file}
    requires cache0[file].includes == [] ==> u.file == file
    requires SparesAllBut(before, after, cache0[file].gc)
    requires after.Live() == Plus(Minus(before.Live(), cache0[file].gc), u.gc)
    ensures IsReparsed(cache0, parsed0, before, (cache0 - {file})[u.file := u], (parsed0 - {file})[u.file := p],
                       after, file, u.file)
  {
    hide SparesAllBut;
  }

  lemma {:induction false} OrderOf(s: set<nat>) returns (order: seq<nat>)
    ensures AreDistinct(order) && forall k :: k in order <==> k in s
  {
    if s == {} {
      order := [];
    } else {
      var x :| x in s;
      var rest := OrderOf(s - {x});
      order := rest + [x];
    }
  }

  lemma SomeLoss<V>(before: Ids<V>, keys: set<nat>) returns (after: Ids<V>)
    ensures Loses(before, after, keys)
  {
    var order := OrderOf(keys * before.store.Keys);
    after := before.Drop(order);
    LosesWhen(before, after, keys, order);
  }

  /** Handles may be dropped in any order, so one of them can be made the last. */
  lemma LossEndingIn<V>(before: Ids<V>, keys: set<nat>, last: nat) returns (after: Ids<V>)
    requires last in keys && last in before.store
    ensures Loses(before, after, keys) && after.NextKey() == last
  {
    var rest := OrderOf(keys * before.store.Keys - {last});
    var order := rest + [last];
    after := before.Drop(order);
    LosesWhen(before, after, keys, order);
  }

  /** The root keeps its handle whatever the order in which handles are dropped, if and only if
      it is the unit's only file. Tasks queued under the old root do not survive otherwise. */
  lemma RootKeepsItsHandle(u: Unit, before: Context)
    requires Within(u.gc, before.Live()) && u.file in u.gc.files
    ensures (forall after :: CleanedUp(before, after, u.gc) ==> after.files.NextKey() == u.file)
        <==> u.gc.files == {u.file}
  {
    forall after | CleanedUp(before, after, u.gc) && u.gc.files == {u.file}
      ensures after.files.NextKey() == u.file
    {
      ReusedRoot(u, before, after);
    }
    if u.gc.files != {u.file} {
      var other :| other in u.gc.files && other != u.file;
      var files := LossEndingIn(before.files, u.gc.files, other);
      var spans := SomeLoss(before.spans, u.gc.spans);
      var nodes := SomeLoss(before.nodes, u.gc.nodes);
      var after := Context(files, spans, nodes, before.gc);
      assert CleanedUp(before, after, u.gc) && after.files.NextKey() != u.file;
    }
  }

  function Minus(a: GcSet, b: GcSet): GcSet {
    GcSet(a.files - b.files, a.spans - b.spans, a.nodes - b.nodes)
  }

  /** Everything but these items is still held, with the same data. */
  ghost predicate SparesAllBut(before: Context, after: Context, gc: GcSet) {
    && Spares(before.files, after.files, before.files.store.Keys - gc.files)
    && Spares(before.spans, after.spans, before.spans.store.Keys - gc.spans)
    && Spares(before.nodes, after.nodes, before.nodes.store.Keys - gc.nodes)
  }

  lemma Replaced(before: Context, mid: Context, after: Context, gc: GcSet, made: Names)
    requires CleanedUp(before, mid, gc) && Made(mid, after, made)
    ensures SparesAllBut(before, after, gc)
    ensures after.Live() == Plus(Minus(before.Live(), gc), SetOf(made))
  {
    hide Ids.Valid, Elements;
    assert mid.Live() == Minus(before.Live(), gc);
  }
}
