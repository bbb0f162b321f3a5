/**
 What reading and parsing a translation unit does to the compiler context and to the
 diagnostics (fpp_lsp_server/src/analysis.rs:58-93).

 The parser is any sequence of events. An event names the files and spans it refers to by
 their positions among those made so far, so that the same events can run in any context.
 */
module Units {
  import opened Wrappers
  import opened Handles
  import opened Contexts
  import opened Diagnostics

  datatype Event =
    | NewFile(uri: string, content: string, parent: Option<nat>)
    | NewSpan(file: nat, start: nat, length: nat, includeSpan: Option<nat>, expandSpan: Option<nat>)
    | NewNode(span: nat)
    | Emit(span: nat, diagnostic: Diagnostic)

  /** A file, its text, and the file that it is included from; files and spans are named by position. */
  datatype FileShape = FileShape(uri: string, content: string, parent: Option<nat>)

  /** A place in a file, and the spans that it is included and expanded from. */
  datatype SpanShape = SpanShape(file: nat, start: nat, length: nat, including: Option<nat>, expanding: Option<nat>)

  /** What the events made, by position. */
  datatype Outline = Outline(files: seq<FileShape>, spans: seq<SpanShape>, nodeSpans: seq<nat>, emits: seq<Entry>)

  const BLANK := Outline([], [], [], [])

  predicate IsBefore(position: Option<nat>, i: nat) {
    position.Some? ==> position.value < i
  }

  ghost predicate IsOutline(o: Outline) {
    && (forall i :: 0 <= i < |o.files| ==> IsBefore(o.files[i].parent, i))
    && (forall i :: 0 <= i < |o.spans| ==>
          o.spans[i].file < |o.files| && IsBefore(o.spans[i].including, i) && IsBefore(o.spans[i].expanding, i))
    && (forall i :: 0 <= i < |o.nodeSpans| ==> o.nodeSpans[i] < |o.spans|)
  }

  ghost predicate IsNext(o: Outline, e: Event, isUri: string -> bool) {
    match e
    case NewFile(uri, _, parent) => isUri(uri) && IsBefore(parent, |o.files|)
    case NewSpan(file, _, _, including, expanding) =>
      file < |o.files| && IsBefore(including, |o.spans|) && IsBefore(expanding, |o.spans|)
    case NewNode(span) => span < |o.spans|
    case Emit(span, _) => span < |o.spans|
  }

  ghost function Step(o: Outline, e: Event, isUri: string -> bool): (r: Outline)
    requires IsOutline(o) && IsNext(o, e, isUri)
    ensures IsOutline(r)
  {
    match e
    case NewFile(uri, content, parent) => o.(files := o.files + [FileShape(uri, content, parent)])
    case NewSpan(file, start, length, including, expanding) =>
      o.(spans := o.spans + [SpanShape(file, start, length, including, expanding)])
    case NewNode(span) => o.(nodeSpans := o.nodeSpans + [span])
    case Emit(span, d) => o.(emits := o.emits + [Entry(o.files[o.spans[span].file].uri, d)])
  }

  ghost predicate IsScript(o: Outline, script: seq<Event>, isUri: string -> bool)
    requires IsOutline(o)
    decreases |script|
  {
    script != [] ==> IsNext(o, script[0], isUri) && IsScript(Step(o, script[0], isUri), script[1..], isUri)
  }

  ghost function OutlineOf(o: Outline, script: seq<Event>, isUri: string -> bool): (r: Outline)
    requires IsOutline(o) && IsScript(o, script, isUri)
    ensures IsOutline(r)
    decreases |script|
  {
    if script == [] then o else OutlineOf(Step(o, script[0], isUri), script[1..], isUri)
  }

  /** A unit is a file that nothing includes, and the files that are included from it. */
  ghost predicate IsUnit(script: seq<Event>, isUri: string -> bool) {
    && IsScript(BLANK, script, isUri)
    && script != [] && script[0].NewFile? && script[0].parent == None
    && forall i :: 0 < i < |script| && script[i].NewFile? ==> script[i].parent.Some?
  }

  /** What a unit's events make. */
  ghost function UnitOutline(script: seq<Event>, isUri: string -> bool): Outline {
    if IsScript(BLANK, script, isUri) then OutlineOf(BLANK, script, isUri) else BLANK
  }

  // ---- Handles by position --------------------------------------------------------------

  datatype Names = Names(files: seq<nat>, spans: seq<nat>, nodes: seq<nat>)

  const NO_NAMES := Names([], [], [])

  function SetOf(n: Names): GcSet {
    GcSet(Elements(n.files), Elements(n.spans), Elements(n.nodes))
  }

  function Then(a: Names, b: Names): Names {
    Names(a.files + b.files, a.spans + b.spans, a.nodes + b.nodes)
  }

  /** Whether the context holds what the outline says, under these handles. */
  ghost predicate Realizes(o: Outline, n: Names, c: Context) {
    && IsOutline(o)
    && |n.files| == |o.files| && |n.spans| == |o.spans| && |n.nodes| == |o.nodeSpans|
    && (forall i :: 0 <= i < |n.files| ==> FileIs(o, n, c, i))
    && (forall i :: 0 <= i < |n.spans| ==> SpanIs(o, n, c, i))
    && (forall i :: 0 <= i < |n.nodes| ==>
          n.nodes[i] in c.nodes.store && c.nodes.store[n.nodes[i]].span == n.spans[o.nodeSpans[i]])
  }

  ghost predicate FileIs(o: Outline, n: Names, c: Context, i: nat)
    requires IsOutline(o) && |n.files| == |o.files| && i < |n.files|
  {
    && n.files[i] in c.files.store
    && var data := c.files.store[n.files[i]];
       && data.uri == o.files[i].uri && data.content == o.files[i].content
       && data.parent == if o.files[i].parent.None? then None else Some(n.files[o.files[i].parent.value])
  }

  ghost predicate SpanIs(o: Outline, n: Names, c: Context, i: nat)
    requires IsOutline(o) && |n.files| == |o.files| && |n.spans| == |o.spans| && i < |n.spans|
  {
    && n.spans[i] in c.spans.store
    && var data, shape := c.spans.store[n.spans[i]], o.spans[i];
       && data.file == n.files[shape.file] && data.start == shape.start && data.length == shape.length
       && IsCopy(data.includeSpan, n, c, shape.including) && IsCopy(data.expandSpan, n, c, shape.expanding)
  }

  /** Whether this is a copy of the span at a position. */
  ghost predicate IsCopy(data: Option<SpanData>, n: Names, c: Context, position: Option<nat>)
    requires IsBefore(position, |n.spans|)
  {
    if position.None? then data == None
    else n.spans[position.value] in c.spans.store && data == Some(c.spans.store[n.spans[position.value]])
  }

  lemma RealizedGrows(o: Outline, n: Names, before: Context, after: Context)
    requires Realizes(o, n, before) && Grows(before, after)
    ensures Realizes(o, n, after)
  {
    forall i | 0 <= i < |n.files|
      ensures FileIs(o, n, after, i)
    {
      assert FileIs(o, n, before, i);
    }
    forall i | 0 <= i < |n.spans|
      ensures SpanIs(o, n, after, i)
    {
      assert SpanIs(o, n, before, i);
    }
  }

  /** Exactly these handles, none of which was in use, were added. */
  ghost predicate Made(before: Context, after: Context, made: Names) {
    && before.Valid() && after.Valid()
    && Grows(before, after)
    && Disjoint(SetOf(made), before.Live())
    && after.Live() == Plus(before.Live(), SetOf(made))
    && after.gc == Tracked(before.gc, SetOf(made))
  }

  lemma ElementsConcat(a: seq<nat>, b: seq<nat>)
    ensures Elements(a + b) == Elements(a) + Elements(b)
  {
  }

  lemma OneElement(k: nat)
    ensures Elements([k]) == {k} && Elements([]) == {}
  {
  }

  lemma PlusNothing(a: GcSet, b: GcSet)
    requires b == GcSet({}, {}, {})
    ensures Plus(a, b) == a
  {
  }

  lemma MadeNothing(c: Context)
    requires c.Valid()
    ensures Made(c, c, NO_NAMES)
  {
    hide Ids.Valid, Elements, Plus;
    OneElement(0);
    if c.gc.Some? {
      PlusNothing(c.gc.value, SetOf(NO_NAMES));
    }
    PlusNothing(c.Live(), SetOf(NO_NAMES));
  }

  /** Pushing adds one key. */
  lemma PushKeeps<V>(ids: Ids<V>, v: V)
    requires ids.Valid()
    ensures ids.Push(v).Valid() && ids.NextKey() !in ids.store
    ensures Keeps(ids, ids.Push(v)) && ids.Push(v).store.Keys == ids.store.Keys + {ids.NextKey()}
    ensures ids.Push(v).store[ids.NextKey()] == v
  {
    hide Ids.Valid;
    PushIsFresh(ids, v);
  }

  lemma MadeThen(a: Context, b: Context, c: Context, m: Names, n: Names)
    requires Made(a, b, m) && Made(b, c, n)
    ensures Made(a, c, Then(m, n))
  {
    hide Ids.Valid, Elements;
    ElementsConcat(m.files, n.files);
    ElementsConcat(m.spans, n.spans);
    ElementsConcat(m.nodes, n.nodes);
    PlusThen(a.Live(), SetOf(m), SetOf(n));
    if a.gc.Some? {
      PlusThen(a.gc.value, SetOf(m), SetOf(n));
    }
  }

  lemma PlusThen(a: GcSet, m: GcSet, n: GcSet)
    ensures Plus(Plus(a, m), n) == Plus(a, Plus(m, n))
  {
  }

  lemma MadeFile(before: Context, after: Context, data: FileData)
    requires before.Valid()
    requires after == before.(files := before.files.Push(data),
                              gc := Tracked(before.gc, GcSet({before.files.NextKey()}, {}, {})))
    ensures Made(before, after, Names([before.files.NextKey()], [], []))
  {
    hide Ids.Valid, Ids.Push, Ids.NextKey, Elements;
    PushKeeps(before.files, data);
    OneElement(before.files.NextKey());
  }

  lemma MadeSpan(before: Context, after: Context, data: SpanData)
    requires before.Valid()
    requires after == before.(spans := before.spans.Push(data),
                              gc := Tracked(before.gc, GcSet({}, {before.spans.NextKey()}, {})))
    ensures Made(before, after, Names([], [before.spans.NextKey()], []))
  {
    hide Ids.Valid, Ids.Push, Ids.NextKey, Elements;
    PushKeeps(before.spans, data);
    OneElement(before.spans.NextKey());
  }

  lemma MadeNode(before: Context, after: Context, data: NodeData)
    requires before.Valid()
    requires after == before.(nodes := before.nodes.Push(data),
                              gc := Tracked(before.gc, GcSet({}, {}, {before.nodes.NextKey()})))
    ensures Made(before, after, Names([], [], [before.nodes.NextKey()]))
  {
    hide Ids.Valid, Ids.Push, Ids.NextKey, Elements;
    PushKeeps(before.nodes, data);
    OneElement(before.nodes.NextKey());
  }

  // ---- Running the events ---------------------------------------------------------------

  function Interval(lo: nat, hi: nat): (s: set<nat>)
    ensures forall i :: i in s <==> lo <= i < hi
  {
    if lo < hi then Interval(lo, hi - 1) + {hi - 1} else {}
  }

  /** What was emitted is at the end of the log, alive, and tracked if anything is. */
  ghost predicate Emitted(log: seq<Entry>, alive: set<nat>, gc: Option<set<nat>>, emits: seq<Entry>,
                          log': seq<Entry>, alive': set<nat>, gc': Option<set<nat>>) {
    && log' == log + emits
    && alive' == alive + Interval(|log|, |log'|)
    && gc' == (if gc.None? then None else Some(gc.value + Interval(|log|, |log'|)))
  }

  lemma EmittedMore(log: seq<Entry>, alive: set<nat>, gc: Option<set<nat>>, emits: seq<Entry>,
                    log': seq<Entry>, alive': set<nat>, gc': Option<set<nat>>, e: Entry)
    requires Emitted(log, alive, gc, emits, log', alive', gc')
    ensures Emitted(log, alive, gc, emits + [e], log' + [e], alive' + {|log'|},
                    if gc'.None? then None else Some(gc'.value + {|log'|}))
  {
    assert Interval(|log|, |log'| + 1) == Interval(|log|, |log'|) + {|log'|};
    assert log + (emits + [e]) == log' + [e];
    assert alive' + {|log'|} == alive + (Interval(|log|, |log'|) + {|log'|});
    if gc.Some? {
      assert gc'.value + {|log'|} == gc.value + (Interval(|log|, |log'|) + {|log'|});
    }
  }

  lemma EmittedNothing(log: seq<Entry>, alive: set<nat>, gc: Option<set<nat>>)
    ensures Emitted(log, alive, gc, [], log, alive, gc)
  {
    assert Interval(|log|, |log|) == {};
    assert log + [] == log && alive + {} == alive;
    if gc.Some? {
      assert gc.value + {} == gc.value;
    }
  }

  /** One event. */
  method RunEvent(context: CompilerContext, emitter: Emitter, e: Event, ghost o: Outline, names: Names)
    returns (made: Names)
    requires context.Valid() && emitter.Valid() && emitter !in context.Repr()
    requires Realizes(o, names, context.View()) && IsNext(o, e, emitter.isUri)
    requires forall i :: 0 <= i < |o.files| ==> emitter.isUri(o.files[i].uri)
    modifies context.Repr(), emitter
    ensures context.Valid() && emitter.Valid()
    ensures Made(old(context.View()), context.View(), made)
    ensures Realizes(Step(o, e, emitter.isUri), Then(names, made), context.View())
    ensures e.NewFile? ==> made.files == [old(context.View()).files.NextKey()]
    ensures !e.NewFile? ==> made.files == []
    ensures !e.Emit? ==> emitter.log == old(emitter.log) && emitter.alive == old(emitter.alive)
                         && emitter.garbageCollectionSet == old(emitter.garbageCollectionSet)
    ensures e.Emit? ==>
        && |Step(o, e, emitter.isUri).emits| == |o.emits| + 1
        && emitter.log == old(emitter.log) + [Step(o, e, emitter.isUri).emits[|o.emits|]]
        && emitter.alive == old(emitter.alive) + {|old(emitter.log)|}
        && emitter.garbageCollectionSet == if old(emitter.garbageCollectionSet).None? then None
                                           else Some(old(emitter.garbageCollectionSet).value + {|old(emitter.log)|})
  {
    hide Ids.Valid, Emitter.Valid;
    ghost var before := context.View();
    match e {
      case NewFile(uri, content, parent) =>
        if parent.Some? {
          assert FileIs(o, names, before, parent.value);
        }
        var parentFile := if parent.Some? then Some(names.files[parent.value]) else None;
        var file := context.FileNew(uri, content, parentFile);
        made := Names([file], [], []);
        MadeFile(before, context.View(), FileData(file, uri, content, parentFile));
        RealizedFile(o, e, names, file, before, context.View(), emitter.isUri);
      case NewSpan(file, start, length, including, expanding) =>
        assert FileIs(o, names, before, file);
        RealizedSpans(o, names, before);
        var span := context.SpanAdd(names.files[file], start, length,
          if including.Some? then Some(names.spans[including.value]) else None,
          if expanding.Some? then Some(names.spans[expanding.value]) else None);
        made := Names([], [span], []);
        MadeSpan(before, context.View(), context.View().spans.store[span]);
        RealizedSpan(o, e, names, span, before, context.View(), emitter.isUri);
      case NewNode(span) =>
        var node := context.NodeAdd(names.spans[span]);
        made := Names([], [], [node]);
        MadeNode(before, context.View(), NodeData(names.spans[span]));
        RealizedNode(o, e, names, node, before, context.View(), emitter.isUri);
      case Emit(span, d) =>
        assert SpanIs(o, names, before, span);
        var file := context.spans.store[names.spans[span]].file;
        assert FileIs(o, names, before, o.spans[span].file);
        emitter.Emit(context.files.store[file].uri, d);
        made := NO_NAMES;
        MadeNothing(before);
        assert Then(names, NO_NAMES) == names;
        RealizedEmit(o, e, names, before, emitter.isUri);
    }
  }

  lemma RealizedSpans(o: Outline, n: Names, c: Context)
    requires Realizes(o, n, c)
    ensures forall i :: 0 <= i < |n.spans| ==> n.spans[i] in c.spans.store
  {
    forall i | 0 <= i < |n.spans|
      ensures n.spans[i] in c.spans.store
    {
      assert SpanIs(o, n, c, i);
    }
  }

  lemma RealizedFile(o: Outline, e: Event, n: Names, file: nat, before: Context, after: Context, isUri: string -> bool)
    requires e.NewFile? && Realizes(o, n, before) && IsNext(o, e, isUri) && Grows(before, after)
    requires file in after.files.store && after.files.store[file].uri == e.uri && after.files.store[file].content == e.content
    requires after.files.store[file].parent == if e.parent.Some? then Some(n.files[e.parent.value]) else None
    ensures Realizes(Step(o, e, isUri), Then(n, Names([file], [], [])), after)
  {
    var o', n' := Step(o, e, isUri), Then(n, Names([file], [], []));
    assert n'.spans == n.spans && n'.nodes == n.nodes;
    forall i | 0 <= i < |n'.files|
      ensures FileIs(o', n', after, i)
    {
      if i < |n.files| {
        assert FileIs(o, n, before, i);
      }
    }
    forall i | 0 <= i < |n'.spans|
      ensures SpanIs(o', n', after, i)
    {
      assert SpanIs(o, n, before, i);
    }
  }

  lemma RealizedSpan(o: Outline, e: Event, n: Names, span: nat, before: Context, after: Context, isUri: string -> bool)
    requires e.NewSpan? && Realizes(o, n, before) && IsNext(o, e, isUri) && Grows(before, after)
    requires span in after.spans.store && after.spans.store[span].file == n.files[e.file]
    requires after.spans.store[span].start == e.start && after.spans.store[span].length == e.length
    requires IsCopy(after.spans.store[span].includeSpan, n, before, e.includeSpan)
    requires IsCopy(after.spans.store[span].expandSpan, n, before, e.expandSpan)
    ensures Realizes(Step(o, e, isUri), Then(n, Names([], [span], [])), after)
  {
    var o', n' := Step(o, e, isUri), Then(n, Names([], [span], []));
    assert n'.files == n.files && n'.nodes == n.nodes;
    forall i | 0 <= i < |n'.files|
      ensures FileIs(o', n', after, i)
    {
      assert FileIs(o, n, before, i);
    }
    forall i | 0 <= i < |n'.spans|
      ensures SpanIs(o', n', after, i)
    {
      if i < |n.spans| {
        assert SpanIs(o, n, before, i);
      }
    }
  }

  lemma RealizedNode(o: Outline, e: Event, n: Names, node: nat, before: Context, after: Context, isUri: string -> bool)
    requires e.NewNode? && Realizes(o, n, before) && IsNext(o, e, isUri) && Grows(before, after)
    requires node in after.nodes.store && after.nodes.store[node].span == n.spans[e.span]
    ensures Realizes(Step(o, e, isUri), Then(n, Names([], [], [node])), after)
  {
    var o', n' := Step(o, e, isUri), Then(n, Names([], [], [node]));
    assert n'.files == n.files && n'.spans == n.spans;
    forall i | 0 <= i < |n'.files|
      ensures FileIs(o', n', after, i)
    {
      assert FileIs(o, n, before, i);
    }
    forall i | 0 <= i < |n'.spans|
      ensures SpanIs(o', n', after, i)
    {
      assert SpanIs(o, n, before, i);
    }
  }

  lemma RealizedEmit(o: Outline, e: Event, n: Names, c: Context, isUri: string -> bool)
    requires e.Emit? && Realizes(o, n, c) && IsNext(o, e, isUri)
    ensures Realizes(Step(o, e, isUri), n, c)
  {
    var o' := Step(o, e, isUri);
    forall i | 0 <= i < |n.files|
      ensures FileIs(o', n, c, i)
    {
      assert FileIs(o, n, c, i);
    }
    forall i | 0 <= i < |n.spans|
      ensures SpanIs(o', n, c, i)
    {
      assert SpanIs(o, n, c, i);
    }
  }

  /** All the events, in order. */
  method RunScript(context: CompilerContext, emitter: Emitter, script: seq<Event>, ghost o0: Outline, known: Names)
    returns (made: Names, ghost o: Outline)
    requires context.Valid() && emitter.Valid() && emitter !in context.Repr()
    requires IsOutline(o0) && IsScript(o0, script, emitter.isUri) && o0.emits == []
    requires Realizes(o0, known, context.View())
    requires forall i :: 0 <= i < |o0.files| ==> emitter.isUri(o0.files[i].uri)
    modifies context.Repr(), emitter
    ensures context.Valid() && emitter.Valid()
    ensures o == OutlineOf(o0, script, emitter.isUri) && Realizes(o, Then(known, made), context.View())
    ensures forall i :: 0 <= i < |o.files| ==> emitter.isUri(o.files[i].uri)
    ensures Made(old(context.View()), context.View(), made)
    ensures Emitted(old(emitter.log), old(emitter.alive), old(emitter.garbageCollectionSet), o.emits,
                    emitter.log, emitter.alive, emitter.garbageCollectionSet)
    ensures script != [] && script[0].NewFile? ==>
        made.files != [] && made.files[0] == old(context.View()).files.NextKey()
    ensures (forall i :: 0 <= i < |script| ==> !script[i].NewFile?) ==> made.files == []
  {
    hide Ids.Valid, Emitter.Valid, Realizes, Made, Emitted, IsNext, IsOutline;
    ghost var before := context.View();
    ghost var log, alive, gc := emitter.log, emitter.alive, emitter.garbageCollectionSet;
    made := NO_NAMES;
    o := o0;
    MadeNothing(before);
    EmittedNothing(log, alive, gc);
    ThenNothing(known);
    ContextIsValid(context);
    assert script[0..] == script;
    var i := 0;
    while i < |script|
      invariant 0 <= i <= |script|
      invariant context.Valid() && emitter.Valid()
      invariant IsOutline(o) && IsScript(o, script[i..], emitter.isUri)
      invariant OutlineOf(o, script[i..], emitter.isUri) == OutlineOf(o0, script, emitter.isUri)
      invariant Realizes(o, Then(known, made), context.View())
      invariant forall k :: 0 <= k < |o.files| ==> emitter.isUri(o.files[k].uri)
      invariant Made(before, context.View(), made)
      invariant Emitted(log, alive, gc, o.emits, emitter.log, emitter.alive, emitter.garbageCollectionSet)
      invariant 0 < i && script[0].NewFile? ==> made.files != [] && made.files[0] == before.files.NextKey()
      invariant i == 0 ==> context.View() == before && made == NO_NAMES
      invariant (forall k :: 0 <= k < i ==> !script[k].NewFile?) ==> made.files == []
    {
      var e := script[i];
      ghost var mid := context.View();
      ghost var log', alive', gc' := emitter.log, emitter.alive, emitter.garbageCollectionSet;
      assert script[i..][0] == e && script[i..][1..] == script[i + 1..];
      var more := RunEvent(context, emitter, e, o, Then(known, made));
      MadeThen(before, mid, context.View(), made, more);
      ThenIsAssociative(known, made, more);
      StepFacts(o, e, emitter.isUri);
      if e.Emit? {
        EmittedMore(log, alive, gc, o.emits, log', alive', gc', Step(o, e, emitter.isUri).emits[|o.emits|]);
      }
      made := Then(made, more);
      o := Step(o, e, emitter.isUri);
      i := i + 1;
    }
    assert script[i..] == [];
  }

  lemma ContextIsValid(context: CompilerContext)
    requires context.Valid()
    ensures context.View().Valid()
  {
  }

  lemma ThenNothing(n: Names)
    ensures Then(n, NO_NAMES) == n && Then(NO_NAMES, n) == n
  {
  }

  lemma ThenIsAssociative(a: Names, b: Names, c: Names)
    ensures Then(Then(a, b), c) == Then(a, Then(b, c))
  {
  }

  lemma StepFacts(o: Outline, e: Event, isUri: string -> bool)
    requires IsOutline(o) && IsNext(o, e, isUri)
    requires forall k :: 0 <= k < |o.files| ==> isUri(o.files[k].uri)
    ensures var o' := Step(o, e, isUri);
            && (forall k :: 0 <= k < |o'.files| ==> isUri(o'.files[k].uri))
            && (!e.Emit? ==> o'.emits == o.emits)
            && (e.Emit? ==> |o'.emits| == |o.emits| + 1 && o'.emits == o.emits + [o'.emits[|o.emits|]])
  {
  }

  // ---- Translation units -----------------------------------------------------------------

  /** What is kept of a translation unit. */
  datatype Unit = Unit(file: nat, includes: seq<nat>, gc: GcSet, diagnostics: set<nat>)

  /** How a unit came about: what was made, under which handles, and its first diagnostic. */
  datatype Parsed = Parsed(outline: Outline, names: Names, first: nat)

  /** The first file is the root, and every other file is included from an earlier one. */
  ghost predicate IsTree(o: Outline) {
    && IsOutline(o)
    && o.files != [] && o.files[0].parent == None
    && forall i :: 0 < i < |o.files| ==> o.files[i].parent.Some?
  }

  lemma {:induction false} IncludedFiles(o: Outline, script: seq<Event>, isUri: string -> bool)
    requires IsTree(o) && IsScript(o, script, isUri)
    requires forall i :: 0 <= i < |script| && script[i].NewFile? ==> script[i].parent.Some?
    ensures IsTree(OutlineOf(o, script, isUri))
    decreases |script|
  {
    if script != [] {
      IncludedFiles(Step(o, script[0], isUri), script[1..], isUri);
    }
  }

  lemma UnitIsTree(script: seq<Event>, isUri: string -> bool)
    requires IsUnit(script, isUri)
    ensures IsTree(OutlineOf(BLANK, script, isUri))
  {
    IncludedFiles(Step(BLANK, script[0], isUri), script[1..], isUri);
  }

  /** A unit's handles are in use, and they hold what was parsed. */
  ghost predicate Owns(u: Unit, p: Parsed, c: Context) {
    && Realizes(p.outline, p.names, c) && IsTree(p.outline)
    && p.names.files == [u.file] + u.includes
    && u.gc == SetOf(p.names)
  }

  /** Parses a file, collecting what that makes and reports. */
  method NewTranslationUnitCache(context: CompilerContext, emitter: Emitter, script: seq<Event>)
    returns (u: Unit, ghost p: Parsed)
    requires context.Valid() && emitter.Valid() && emitter !in context.Repr()
    requires context.gc == None && emitter.garbageCollectionSet == None
    requires IsUnit(script, emitter.isUri)
    modifies context.Repr(), emitter
    ensures context.Valid() && emitter.Valid()
    ensures context.gc == None && emitter.garbageCollectionSet == None
    ensures Owns(u, p, context.View()) && Made(old(context.View()), context.View(), p.names)
    ensures u.file == old(context.View()).files.NextKey()
    ensures p.outline == UnitOutline(script, emitter.isUri) && p.first == |old(emitter.log)|
    ensures u.diagnostics == Interval(|old(emitter.log)|, |emitter.log|)
    ensures Emitted(old(emitter.log), old(emitter.alive), None, p.outline.emits, emitter.log, emitter.alive, None)
  {
    hide Ids.Valid, Emitter.Valid, Elements, IsScript, OutlineOf, IsTree, Interval;
    ghost var before, first := context.View(), |emitter.log|;
    context.GarbageCollectionStart();
    emitter.StartGarbageCollection();
    NothingRealized(context.View());
    UnitIsTree(script, emitter.isUri);
    var names;
    ghost var o;
    names, o := RunScript(context, emitter, script, BLANK, NO_NAMES);
    ThenNothing(names);
    ghost var after := context.View();
    var gc := context.GarbageCollectionFinish();
    var ids := emitter.FinishGarbageCollection();
    u := Unit(names.files[0], names.files[1..], gc, ids);
    p := Parsed(o, names, first);
    FinishedUnit(before, after, names);
    RealizedWithoutGc(o, names, after);
  }

  lemma NothingRealized(c: Context)
    ensures Realizes(BLANK, NO_NAMES, c)
  {
  }

  lemma RealizedWithoutGc(o: Outline, n: Names, c: Context)
    requires Realizes(o, n, c)
    ensures Realizes(o, n, c.(gc := None))
  {
    RealizedGrows(o, n, c, c.(gc := None));
  }

  /** What a unit collects is all that it made. */
  lemma FinishedUnit(before: Context, after: Context, made: Names)
    requires before.gc == None && Made(before.(gc := Some(NOTHING)), after, made)
    ensures Made(before, after.(gc := None), made) && after.gc == Some(SetOf(made))
  {
    hide Ids.Valid, Elements;
    assert Plus(NOTHING, SetOf(made)) == SetOf(made);
  }
}
