/** What the compiler holds for its files, spans and nodes (fpp_core/src/context.rs). */
module Contexts {
  import opened Wrappers
  import opened Handles

  datatype FileData = FileData(handle: nat, uri: string, content: string, parent: Option<nat>)

  datatype SpanData = SpanData(handle: nat, file: nat, start: nat, length: nat,
                               includeSpan: Option<SpanData>, expandSpan: Option<SpanData>)

  datatype NodeData = NodeData(span: nat)

  /** The handles made while a garbage collection context is set. */
  datatype GcSet = GcSet(files: set<nat>, spans: set<nat>, nodes: set<nat>)

  const NOTHING := GcSet({}, {}, {})

  datatype Context = Context(files: Ids<FileData>, spans: Ids<SpanData>, nodes: Ids<NodeData>, gc: Option<GcSet>) {
    ghost predicate Valid() {
      files.Valid() && spans.Valid() && nodes.Valid()
    }

    /** Every handle in use. */
    function Live(): GcSet {
      GcSet(files.store.Keys, spans.store.Keys, nodes.store.Keys)
    }
  }

  ghost predicate Within(a: GcSet, b: GcSet) {
    a.files <= b.files && a.spans <= b.spans && a.nodes <= b.nodes
  }

  ghost predicate Disjoint(a: GcSet, b: GcSet) {
    a.files !! b.files && a.spans !! b.spans && a.nodes !! b.nodes
  }

  function Plus(a: GcSet, b: GcSet): GcSet {
    GcSet(a.files + b.files, a.spans + b.spans, a.nodes + b.nodes)
  }

  /** Everything that was held is still held, with the same data. */
  ghost predicate Keeps<V>(before: Ids<V>, after: Ids<V>) {
    forall k :: k in before.store ==> k in after.store && after.store[k] == before.store[k]
  }

  ghost predicate Grows(before: Context, after: Context) {
    Keeps(before.files, after.files) && Keeps(before.spans, after.spans) && Keeps(before.nodes, after.nodes)
  }

  /** Exactly the items with these keys are gone. The order in which keys are dropped is not known. */
  ghost predicate Loses<V>(before: Ids<V>, after: Ids<V>, keys: set<nat>) {
    && after.store == before.store - keys
    && after.current == before.current
    && exists order :: after.dropped == before.dropped + order && AreDistinct(order)
                       && Elements(order) == keys * before.store.Keys
  }

  ghost predicate CleanedUp(before: Context, after: Context, gc: GcSet) {
    && Loses(before.files, after.files, gc.files)
    && Loses(before.spans, after.spans, gc.spans)
    && Loses(before.nodes, after.nodes, gc.nodes)
    && after.gc == before.gc
  }

  /** After a clean-up that dropped anything, the next key is one that was dropped. */
  lemma DroppedIsNext<V>(before: Ids<V>, after: Ids<V>, keys: set<nat>)
    requires Loses(before, after, keys) && keys * before.store.Keys != {}
    ensures after.NextKey() in keys
  {
    var order :| after.dropped == before.dropped + order && AreDistinct(order)
                 && Elements(order) == keys * before.store.Keys;
    var k :| k in keys * before.store.Keys;
    assert k in order;
    assert after.dropped[|after.dropped| - 1] == order[|order| - 1] && order[|order| - 1] in Elements(order);
  }

  class CompilerContext {
    const files: IdMap<FileData>
    const spans: IdMap<SpanData>
    const nodes: IdMap<NodeData>
    var gc: Option<GcSet>

    ghost function Repr(): set<object> {
      {this, files, spans, nodes}
    }

    ghost function View(): Context
      reads Repr()
    {
      Context(files.View(), spans.View(), nodes.View(), gc)
    }

    ghost predicate Valid()
      reads Repr()
    {
      && (files as object) != spans && (files as object) != nodes && (spans as object) != nodes
      && View().Valid()
    }

    constructor ()
      ensures Valid() && fresh(Repr())
      ensures View() == Context(Ids(map[], 0, []), Ids(map[], 0, []), Ids(map[], 0, []), None)
    {
      files := new IdMap();
      spans := new IdMap();
      nodes := new IdMap();
      gc := None;
    }

    method FileNew(uri: string, content: string, parent: Option<nat>) returns (file: nat)
      requires Valid()
      modifies Repr()
      ensures Valid()
      ensures var before := old(View());
              && file == before.files.NextKey() && file !in before.files.store
              && View() == before.(files := before.files.Push(FileData(file, uri, content, parent)),
                                   gc := Tracked(before.gc, GcSet({file}, {}, {})))
    {
      file := files.PushWith((handle: nat) => FileData(handle, uri, content, parent));
      gc := Tracked(gc, GcSet({file}, {}, {}));
    }

    method NodeAdd(span: nat) returns (node: nat)
      requires Valid()
      modifies Repr()
      ensures Valid()
      ensures var before := old(View());
              && node == before.nodes.NextKey() && node !in before.nodes.store
              && View() == before.(nodes := before.nodes.Push(NodeData(span)),
                                   gc := Tracked(before.gc, GcSet({}, {}, {node})))
    {
      node := nodes.Push(NodeData(span));
      gc := Tracked(gc, GcSet({}, {}, {node}));
    }

    /** The file and the spans that are referred to must be held. */
    method SpanAdd(file: nat, start: nat, length: nat, includeSpan: Option<nat>, expandSpan: Option<nat>)
      returns (span: nat)
      requires Valid() && file in files.store
      requires includeSpan.Some? ==> includeSpan.value in spans.store
      requires expandSpan.Some? ==> expandSpan.value in spans.store
      modifies Repr()
      ensures Valid()
      ensures var before := old(View());
              && span == before.spans.NextKey() && span !in before.spans.store
              && View() == before.(spans := before.spans.Push(
                                     SpanData(span, file, start, length,
                                              CopyOf(before.spans, includeSpan), CopyOf(before.spans, expandSpan))),
                                   gc := Tracked(before.gc, GcSet({}, {span}, {})))
    {
      var including := if includeSpan.Some? then Some(spans.store[includeSpan.value]) else None;
      var expanding := if expandSpan.Some? then Some(spans.store[expandSpan.value]) else None;
      span := spans.PushWith((handle: nat) => SpanData(handle, file, start, length, including, expanding));
      gc := Tracked(gc, GcSet({}, {span}, {}));
    }

    method GarbageCollectionStart()
      requires Valid() && gc == None
      modifies this
      ensures Valid() && View() == old(View()).(gc := Some(NOTHING))
    {
      gc := Some(NOTHING);
    }

    method GarbageCollectionFinish() returns (collected: GcSet)
      requires Valid() && gc.Some?
      modifies this
      ensures Valid() && View() == old(View()).(gc := None) && Some(collected) == old(gc)
    {
      collected := gc.value;
      gc := None;
    }

    method GarbageCollectionCleanup(collected: GcSet)
      requires Valid()
      modifies Repr()
      ensures Valid() && CleanedUp(old(View()), View(), collected)
    {
      ghost var before := View();
      var f := files.ExtractIf((k, _) => k in collected.files);
      LosesWhen(before.files, files.View(), collected.files, f);
      var s := spans.ExtractIf((k, _) => k in collected.spans);
      LosesWhen(before.spans, spans.View(), collected.spans, s);
      var n := nodes.ExtractIf((k, _) => k in collected.nodes);
      LosesWhen(before.nodes, nodes.View(), collected.nodes, n);
    }
  }

  lemma LosesWhen<V>(before: Ids<V>, after: Ids<V>, keys: set<nat>, order: seq<nat>)
    requires after == before.Drop(order)
    requires AreDistinct(order) && forall k :: k in order <==> k in before.store && k in keys
    ensures Loses(before, after, keys)
  {
    assert Elements(order) == keys * before.store.Keys;
    assert before.store - Elements(order) == before.store - keys;
  }

  function Tracked(gc: Option<GcSet>, made: GcSet): Option<GcSet> {
    match gc
    case None => None
    case Some(g) => Some(Plus(g, made))
  }

  function CopyOf(spans: Ids<SpanData>, span: Option<nat>): Option<SpanData> {
    if span.Some? && span.value in spans.store then Some(spans.store[span.value]) else None
  }
}
