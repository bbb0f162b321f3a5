/** The store of diagnostics that is pushed to the client (fpp_lsp_server/src/diagnostics.rs). */
module Diagnostics {
  import opened Wrappers

  datatype Diagnostic = Diagnostic(start: nat, end: nat, severity: nat, message: string)

  datatype LspDiagnostic = LspDiagnostic(id: nat, diagnostic: Diagnostic)

  /** A diagnostic as it was emitted. Its id is its position among all that were ever emitted. */
  datatype Entry = Entry(uri: string, diagnostic: Diagnostic)

  /** The diagnostics for a URI that are still there, in the order in which they were emitted. */
  function Kept(log: seq<Entry>, alive: set<nat>, uri: string): seq<LspDiagnostic> {
    if log == [] then
      []
    else
      var id := |log| - 1;
      Kept(log[..id], alive, uri)
      + if id in alive && log[id].uri == uri then [LspDiagnostic(id, log[id].diagnostic)] else []
  }

  function Payloads(ds: seq<LspDiagnostic>): (r: seq<Diagnostic>)
    ensures |r| == |ds| && forall i :: 0 <= i < |ds| ==> r[i] == ds[i].diagnostic
  {
    seq(|ds|, i requires 0 <= i < |ds| => ds[i].diagnostic)
  }

  /** `retain` */
  function Retain(ds: seq<LspDiagnostic>, dropped: set<nat>): seq<LspDiagnostic> {
    if ds == [] then
      []
    else
      var last := ds[|ds| - 1];
      Retain(ds[..|ds| - 1], dropped) + if last.id in dropped then [] else [last]
  }

  lemma RetainSnoc(ds: seq<LspDiagnostic>, d: LspDiagnostic, dropped: set<nat>)
    ensures Retain(ds + [d], dropped) == Retain(ds, dropped) + if d.id in dropped then [] else [d]
  {
    assert (ds + [d])[..|ds|] == ds;
  }

  lemma KeptSnoc(log: seq<Entry>, e: Entry, alive: set<nat>, uri: string)
    ensures Kept(log + [e], alive, uri)
         == Kept(log, alive, uri) + if |log| in alive && e.uri == uri then [LspDiagnostic(|log|, e.diagnostic)] else []
  {
    assert (log + [e])[..|log|] == log;
  }

  lemma {:induction false} RetainKept(log: seq<Entry>, alive: set<nat>, dropped: set<nat>, uri: string)
    ensures Retain(Kept(log, alive, uri), dropped) == Kept(log, alive - dropped, uri)
  {
    hide Retain;
    if log == [] {
      RetainNothing(dropped);
    } else {
      var id := |log| - 1;
      RetainKept(log[..id], alive, dropped, uri);
      assert Kept(log[..id], alive, uri) + [] == Kept(log[..id], alive, uri);
      assert Kept(log[..id], alive - dropped, uri) + [] == Kept(log[..id], alive - dropped, uri);
      RetainSnoc(Kept(log[..id], alive, uri), LspDiagnostic(id, log[id].diagnostic), dropped);
    }
  }

  lemma RetainNothing(dropped: set<nat>)
    ensures Retain([], dropped) == []
  {
  }

  /** An id that was never given out makes no difference. */
  lemma {:induction false} KeptIgnores(log: seq<Entry>, alive: set<nat>, alive': set<nat>, uri: string)
    requires forall id :: 0 <= id < |log| ==> (id in alive <==> id in alive')
    ensures Kept(log, alive, uri) == Kept(log, alive', uri)
  {
    if log != [] {
      KeptIgnores(log[..|log| - 1], alive, alive', uri);
    }
  }

  lemma {:induction false} NothingKept(log: seq<Entry>, uri: string)
    ensures Kept(log, {}, uri) == []
  {
    if log != [] {
      NothingKept(log[..|log| - 1], uri);
    }
  }

  /** One more diagnostic is at the end of those for its URI. */
  lemma EmitKept(log: seq<Entry>, alive: set<nat>, e: Entry)
    ensures Kept(log + [e], alive + {|log|}, e.uri) == Kept(log, alive, e.uri) + [LspDiagnostic(|log|, e.diagnostic)]
    ensures forall uri :: uri != e.uri ==> Kept(log + [e], alive + {|log|}, uri) == Kept(log, alive, uri)
  {
    forall uri
      ensures Kept(log + [e], alive + {|log|}, uri)
           == Kept(log, alive, uri) + if e.uri == uri then [LspDiagnostic(|log|, e.diagnostic)] else []
    {
      KeptSnoc(log, e, alive + {|log|}, uri);
      KeptIgnores(log, alive, alive + {|log|}, uri);
    }
  }

  class Emitter {
    /** Whether a string is a URI. */
    const isUri: string -> bool
    var nextId: nat
    var diagnostics: map<string, seq<LspDiagnostic>>
    var garbageCollectionSet: Option<set<nat>>
    /** All that was emitted, and the ids of what has been neither cleared nor cleaned up. */
    ghost var log: seq<Entry>
    ghost var alive: set<nat>

    ghost function Stored(uri: string): seq<LspDiagnostic>
      reads `diagnostics
    {
      if uri in diagnostics then diagnostics[uri] else []
    }

    ghost predicate Valid()
      reads this
    {
      && nextId == |log|
      && (forall id :: id in alive ==> id < |log|)
      && (forall uri :: Stored(uri) == Kept(log, alive, uri))
      && (forall uri :: uri in diagnostics ==> diagnostics[uri] != [] && isUri(uri))
      && (garbageCollectionSet.Some? ==> forall id :: id in garbageCollectionSet.value ==> id < |log|)
    }

    constructor (isUri: string -> bool)
      ensures Valid() && log == [] && alive == {} && garbageCollectionSet == None && this.isUri == isUri
    {
      this.isUri := isUri;
      nextId := 0;
      diagnostics := map[];
      garbageCollectionSet := None;
      log, alive := [], {};
    }

    method Clear()
      requires Valid()
      modifies this
      ensures Valid() && log == old(log) && alive == {}
      ensures garbageCollectionSet == old(garbageCollectionSet)
    {
      forall uri
        ensures Kept(log, {}, uri) == []
      {
        NothingKept(log, uri);
      }
      diagnostics := map[];
      alive := {};
    }

    /** The diagnostics for each URI that has any. */
    method All() returns (all: map<string, seq<Diagnostic>>)
      requires Valid()
      ensures forall uri :: (if uri in all then all[uri] else []) == Payloads(Kept(log, alive, uri))
      ensures forall uri :: uri in all ==> all[uri] != [] && isUri(uri)
    {
      all := map uri | uri in diagnostics :: Payloads(diagnostics[uri]);
      forall uri
        ensures (if uri in all then all[uri] else []) == Payloads(Kept(log, alive, uri))
      {
        assert Stored(uri) == Kept(log, alive, uri);
      }
    }

    method StartGarbageCollection()
      requires Valid() && garbageCollectionSet == None
      modifies this
      ensures Valid() && log == old(log) && alive == old(alive) && garbageCollectionSet == Some({})
    {
      garbageCollectionSet := Some({});
      assert forall uri :: Stored(uri) == old(Stored(uri));
    }

    method FinishGarbageCollection() returns (ids: set<nat>)
      requires Valid() && garbageCollectionSet.Some?
      modifies this
      ensures Valid() && log == old(log) && alive == old(alive)
      ensures garbageCollectionSet == None && Some(ids) == old(garbageCollectionSet)
    {
      ids := garbageCollectionSet.value;
      garbageCollectionSet := None;
      assert forall uri :: Stored(uri) == old(Stored(uri));
    }

    method CleanupGarbageCollection(ids: set<nat>)
      requires Valid()
      modifies this
      ensures Valid() && log == old(log) && alive == old(alive) - ids
      ensures garbageCollectionSet == old(garbageCollectionSet)
    {
      forall uri
        ensures Retain(Stored(uri), ids) == Kept(log, alive - ids, uri)
      {
        RetainKept(log, alive, ids, uri);
      }
      ghost var before := diagnostics;
      diagnostics := map uri | uri in diagnostics && Retain(diagnostics[uri], ids) != [] :: Retain(diagnostics[uri], ids);
      alive := alive - ids;
      forall uri
        ensures Stored(uri) == Kept(log, alive, uri)
      {
        if uri !in before {
          RetainNothing(ids);
        }
      }
    }

    method Append(uri: string, d: LspDiagnostic)
      modifies `diagnostics
      ensures Stored(uri) == old(Stored(uri)) + [d] && uri in diagnostics
      ensures forall u :: u != uri ==> Stored(u) == old(Stored(u))
      ensures forall u :: u in diagnostics ==> diagnostics[u] == Stored(u) && (u == uri || u in old(diagnostics))
    {
      if uri in diagnostics {
        diagnostics := diagnostics[uri := diagnostics[uri] + [d]];
      } else {
        diagnostics := diagnostics[uri := [d]];
      }
    }

    /** The file of the diagnostic is named by a URI. */
    method Emit(uri: string, diagnostic: Diagnostic)
      requires Valid() && isUri(uri)
      modifies this
      ensures Valid()
      ensures log == old(log) + [Entry(uri, diagnostic)] && alive == old(alive) + {|old(log)|}
      ensures garbageCollectionSet == if old(garbageCollectionSet).None? then None
                                      else Some(old(garbageCollectionSet).value + {|old(log)|})
    {
      hide Kept;
      var id := nextId;
      if garbageCollectionSet.Some? {
        garbageCollectionSet := Some(garbageCollectionSet.value + {id});
      }
      nextId := nextId + 1;
      EmitKept(log, alive, Entry(uri, diagnostic));
      log, alive := log + [Entry(uri, diagnostic)], alive + {id};
      Append(uri, LspDiagnostic(id, diagnostic));
    }
  }
}
