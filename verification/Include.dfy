/** Formatting a file and all that it includes (fpp_format/src/include.rs). */
module Includes {
  import opened Wrappers
  import opened LogicalText

  /** The entry point with which a text is parsed. */
  datatype Entry = Module | Component | Topology | TlmPacket | TlmPacketSet | StateMachine | State

  datatype NodeKind = SpecInclude | MemberList(entry: Entry) | OtherNode

  datatype Node = Node(kind: NodeKind, children: seq<Node>) | StringToken(text: string) | OtherToken

  /** An include specifier, and the kinds of the nodes around it, the root first. */
  datatype Spec = Spec(children: seq<Node>, ancestors: seq<NodeKind>)

  // ---- Includes in a tree ---------------------------------------------------------------

  /** The include specifiers of a tree, in pre-order. */
  function Specs(n: Node, ancestors: seq<NodeKind>): seq<Spec>
    decreases n, 0
  {
    match n
    case Node(kind, children) =>
      (if kind.SpecInclude? then [Spec(children, ancestors)] else []) + SpecsAll(children, ancestors + [kind])
    case _ => []
  }

  function SpecsAll(ns: seq<Node>, ancestors: seq<NodeKind>): seq<Spec>
    decreases ns
  {
    if ns == [] then [] else Specs(ns[0], ancestors) + SpecsAll(ns[1..], ancestors)
  }

  /** The node at the end of a path of child positions. */
  function NodeAt(n: Node, path: seq<nat>): Option<Node>
    decreases |path|
  {
    if path == [] then Some(n)
    else if !n.Node? || |n.children| <= path[0] then None
    else NodeAt(n.children[path[0]], path[1..])
  }

  /** The kinds of the nodes on the way there. */
  function KindsAlong(n: Node, path: seq<nat>): seq<NodeKind>
    decreases |path|
  {
    if path == [] || !n.Node? || |n.children| <= path[0] then []
    else [n.kind] + KindsAlong(n.children[path[0]], path[1..])
  }

  /** The include specifier at the end of a path, if there is one. */
  function FoundAt(n: Node, path: seq<nat>, ancestors: seq<NodeKind>): Option<Spec> {
    var end := NodeAt(n, path);
    if end.Some? && end.value.Node? && end.value.kind.SpecInclude? then
      Some(Spec(end.value.children, ancestors + KindsAlong(n, path)))
    else
      None
  }

  /** The same below nodes in a row. */
  function FoundIn(ns: seq<Node>, path: seq<nat>, ancestors: seq<NodeKind>): Option<Spec> {
    if path == [] || |ns| <= path[0] then None else FoundAt(ns[path[0]], path[1..], ancestors)
  }

  lemma FoundBelow(n: Node, path: seq<nat>, ancestors: seq<NodeKind>)
    requires path != []
    ensures FoundAt(n, path, ancestors) == if n.Node? then FoundIn(n.children, path, ancestors + [n.kind]) else None
  {
    if n.Node? && path[0] < |n.children| {
      var below := KindsAlong(n.children[path[0]], path[1..]);
      assert ancestors + ([n.kind] + below) == ancestors + [n.kind] + below;
    }
  }

  lemma FoundHere(n: Node, ancestors: seq<NodeKind>)
    ensures FoundAt(n, [], ancestors)
         == if n.Node? && n.kind.SpecInclude? then Some(Spec(n.children, ancestors)) else None
  {
    assert ancestors + [] == ancestors;
  }

  /** Whether a path comes first in pre-order. */
  predicate Precedes(p: seq<nat>, q: seq<nat>)
    decreases |q|
  {
    q != [] && (p == [] || p[0] < q[0] || (p[0] == q[0] && Precedes(p[1..], q[1..])))
  }

  ghost predicate AreOrdered(paths: seq<seq<nat>>) {
    forall j, k :: 0 <= j < k < |paths| ==> Precedes(paths[j], paths[k])
  }

  /** Whether these are the specifiers of a tree with their paths, every one, in pre-order. */
  ghost predicate IsListing(n: Node, ancestors: seq<NodeKind>, specs: seq<Spec>, paths: seq<seq<nat>>) {
    && |specs| == |paths| && AreOrdered(paths)
    && (forall k :: 0 <= k < |paths| ==> FoundAt(n, paths[k], ancestors) == Some(specs[k]))
    && forall path :: FoundAt(n, path, ancestors).Some? ==> path in paths
  }

  ghost predicate IsListingIn(ns: seq<Node>, ancestors: seq<NodeKind>, specs: seq<Spec>, paths: seq<seq<nat>>) {
    && |specs| == |paths| && AreOrdered(paths)
    && (forall k :: 0 <= k < |paths| ==> FoundIn(ns, paths[k], ancestors) == Some(specs[k]))
    && forall path :: FoundIn(ns, path, ancestors).Some? ==> path in paths
  }

  /** The include specifiers that are found are all that there are, in pre-order. */
  lemma {:induction false} SpecsAreAll(n: Node, ancestors: seq<NodeKind>) returns (paths: seq<seq<nat>>)
    ensures IsListing(n, ancestors, Specs(n, ancestors), paths)
    decreases n, 0
  {
    hide FoundAt, FoundIn;
    FoundHere(n, ancestors);
    forall path: seq<nat> | path != []
      ensures FoundAt(n, path, ancestors) == if n.Node? then FoundIn(n.children, path, ancestors + [n.kind]) else None
    {
      FoundBelow(n, path, ancestors);
    }
    if n.Node? {
      var below := SpecsAreAllIn(n.children, ancestors + [n.kind]);
      PathsGoDown(n.children, ancestors + [n.kind], SpecsAll(n.children, ancestors + [n.kind]), below);
      paths := (if n.kind.SpecInclude? then [[]] else []) + below;
      forall path | FoundAt(n, path, ancestors).Some?
        ensures path in paths
      {
        assert path != [] ==> path in below;
      }
    } else {
      paths := [];
    }
  }

  lemma PathsGoDown(ns: seq<Node>, ancestors: seq<NodeKind>, specs: seq<Spec>, paths: seq<seq<nat>>)
    requires IsListingIn(ns, ancestors, specs, paths)
    ensures forall k :: 0 <= k < |paths| ==> paths[k] != []
  {
  }

  /** The path with its first position moved by one. */
  function NextPath(path: seq<nat>): seq<nat> {
    if path == [] then [] else [path[0] + 1] + path[1..]
  }

  lemma NextPathIs(ns: seq<Node>, ancestors: seq<NodeKind>, path: seq<nat>)
    requires ns != []
    ensures path != [] ==> FoundIn(ns, NextPath(path), ancestors) == FoundIn(ns[1..], path, ancestors)
    ensures path != [] ==> NextPath(path) != [] && NextPath(path)[0] == path[0] + 1 && NextPath(path)[1..] == path[1..]
  {
  }

  lemma {:induction false} SpecsAreAllIn(ns: seq<Node>, ancestors: seq<NodeKind>) returns (paths: seq<seq<nat>>)
    ensures IsListingIn(ns, ancestors, SpecsAll(ns, ancestors), paths)
    decreases ns
  {
    hide FoundAt, Specs;
    if ns == [] {
      paths := [];
    } else {
      var first := SpecsAreAll(ns[0], ancestors);
      var more := SpecsAreAllIn(ns[1..], ancestors);
      PathsGoDown(ns[1..], ancestors, SpecsAll(ns[1..], ancestors), more);
      var here := seq(|first|, k requires 0 <= k < |first| => [0] + first[k]);
      var later := seq(|more|, k requires 0 <= k < |more| => NextPath(more[k]));
      paths := here + later;
      ListingJoins(ns, ancestors, Specs(ns[0], ancestors), first, here, SpecsAll(ns[1..], ancestors), more, later);
    }
  }

  /** The paths of the first node, and then those of the others moved by one. */
  ghost predicate ArePaths(paths: seq<seq<nat>>, first: seq<seq<nat>>, more: seq<seq<nat>>) {
    && |paths| == |first| + |more|
    && (forall k :: 0 <= k < |first| ==> paths[k] != [] && paths[k][0] == 0 && paths[k][1..] == first[k])
    && forall k :: 0 <= k < |more| ==> more[k] != [] && paths[|first| + k] == NextPath(more[k])
  }

  lemma ListingJoins(ns: seq<Node>, ancestors: seq<NodeKind>, s: seq<Spec>, first: seq<seq<nat>>, here: seq<seq<nat>>, s': seq<Spec>,
                     more: seq<seq<nat>>, later: seq<seq<nat>>)
    requires ns != [] && IsListing(ns[0], ancestors, s, first) && IsListingIn(ns[1..], ancestors, s', more)
    requires forall k :: 0 <= k < |more| ==> more[k] != []
    requires |here| == |first| && forall k :: 0 <= k < |first| ==> here[k] == [0] + first[k]
    requires |later| == |more| && forall k :: 0 <= k < |more| ==> later[k] == NextPath(more[k])
    ensures IsListingIn(ns, ancestors, s + s', here + later)
  {
    hide FoundAt, FoundIn, NextPath, Precedes;
    var paths := here + later;
    forall k | 0 <= k < |first|
      ensures paths[k] != [] && paths[k][0] == 0 && paths[k][1..] == first[k]
    {
      assert paths[k] == [0] + first[k];
    }
    PathsFind(ns, ancestors, s, first, s', more, paths);
    PathsAscend(first, more, paths);
    PathsReach(ns, ancestors, s, first, s', more, paths);
  }

  lemma PathsFind(ns: seq<Node>, ancestors: seq<NodeKind>, s: seq<Spec>, first: seq<seq<nat>>, s': seq<Spec>, more: seq<seq<nat>>,
                  paths: seq<seq<nat>>)
    requires ns != [] && IsListing(ns[0], ancestors, s, first) && IsListingIn(ns[1..], ancestors, s', more)
    requires ArePaths(paths, first, more)
    ensures forall k :: 0 <= k < |paths| ==> FoundIn(ns, paths[k], ancestors) == Some((s + s')[k])
  {
    hide FoundAt, AreOrdered, NextPath;
    forall k | 0 <= k < |paths|
      ensures FoundIn(ns, paths[k], ancestors) == Some((s + s')[k])
    {
      if |first| <= k {
        assert paths[|first| + (k - |first|)] == NextPath(more[k - |first|]);
        NextPathIs(ns, ancestors, more[k - |first|]);
      }
    }
  }

  lemma PathsAscend(first: seq<seq<nat>>, more: seq<seq<nat>>, paths: seq<seq<nat>>)
    requires AreOrdered(first) && AreOrdered(more) && ArePaths(paths, first, more)
    ensures AreOrdered(paths)
  {
    forall j, k | 0 <= j < k < |paths|
      ensures Precedes(paths[j], paths[k])
    {
      if k < |first| {
        assert Precedes(first[j], first[k]);
      } else {
        assert paths[|first| + (k - |first|)] == NextPath(more[k - |first|]);
        if |first| <= j {
          assert paths[|first| + (j - |first|)] == NextPath(more[j - |first|]);
          Ascends(more[j - |first|], more[k - |first|]);
        }
      }
    }
  }

  lemma Ascends(p: seq<nat>, q: seq<nat>)
    requires Precedes(p, q) && p != []
    ensures Precedes(NextPath(p), NextPath(q))
  {
    assert NextPath(p)[1..] == p[1..] && NextPath(q)[1..] == q[1..];
  }

  lemma PathsReach(ns: seq<Node>, ancestors: seq<NodeKind>, s: seq<Spec>, first: seq<seq<nat>>, s': seq<Spec>, more: seq<seq<nat>>,
                   paths: seq<seq<nat>>)
    requires ns != [] && IsListing(ns[0], ancestors, s, first) && IsListingIn(ns[1..], ancestors, s', more)
    requires ArePaths(paths, first, more)
    ensures forall path :: FoundIn(ns, path, ancestors).Some? ==> path in paths
  {
    hide FoundAt, AreOrdered;
    forall path | FoundIn(ns, path, ancestors).Some?
      ensures path in paths
    {
      if path[0] == 0 {
        var k :| 0 <= k < |first| && first[k] == path[1..];
        SamePath(paths[k], path);
      } else {
        var before := [path[0] - 1] + path[1..];
        NextPathIs(ns, ancestors, before);
        SamePath(NextPath(before), path);
        var k :| 0 <= k < |more| && more[k] == before;
        assert paths[|first| + k] == path;
      }
    }
  }

  lemma SamePath(p: seq<nat>, q: seq<nat>)
    requires p != [] && q != [] && p[0] == q[0] && p[1..] == q[1..]
    ensures p == q
  {
    assert p == [p[0]] + p[1..];
    assert q == [q[0]] + q[1..];
  }

  /** The entry point in force inside these nodes: each member list sets its own. */
  function EntryInside(ancestors: seq<NodeKind>, fileEntry: Entry): Entry {
    if ancestors == [] then
      fileEntry
    else
      EntryInside(ancestors[1..], if ancestors[0].MemberList? then ancestors[0].entry else fileEntry)
  }

  lemma {:induction false} EntryInsideSnoc(ancestors: seq<NodeKind>, kind: NodeKind, fileEntry: Entry)
    ensures EntryInside(ancestors + [kind], fileEntry)
         == if kind.MemberList? then kind.entry else EntryInside(ancestors, fileEntry)
  {
    if ancestors != [] {
      assert (ancestors + [kind])[1..] == ancestors[1..] + [kind];
      EntryInsideSnoc(ancestors[1..], kind, if ancestors[0].MemberList? then ancestors[0].entry else fileEntry);
    }
  }

  /** Walking up from an include finds the entry point that is in force around it. */
  method ContextEntry(ancestors: seq<NodeKind>, fileEntry: Entry) returns (entry: Entry)
    ensures entry == EntryInside(ancestors, fileEntry)
  {
    var n := |ancestors|;
    assert ancestors[..n] == ancestors;
    while 0 < n
      invariant n <= |ancestors|
      invariant EntryInside(ancestors, fileEntry) == EntryInside(ancestors[..n], fileEntry)
    {
      EntryInsideSnoc(ancestors[..n - 1], ancestors[n - 1], fileEntry);
      assert ancestors[..n] == ancestors[..n - 1] + [ancestors[n - 1]];
      if ancestors[n - 1].MemberList? {
        return ancestors[n - 1].entry;
      }
      n := n - 1;
    }
    return fileEntry;
  }

  function FirstString(ns: seq<Node>): Option<string> {
    if ns == [] then None else if ns[0].StringToken? then Some(ns[0].text) else FirstString(ns[1..])
  }

  /** What an include names: a text and the entry point for it. */
  datatype Target = Target(text: string, entry: Entry)

  method IncludeTarget(spec: Spec, fileEntry: Entry) returns (target: Option<Target>)
    ensures target == match FirstString(spec.children)
                      case None => None
                      case Some(text) => Some(Target(text, EntryInside(spec.ancestors, fileEntry)))
  {
    var entry := ContextEntry(spec.ancestors, fileEntry);
    var text := FirstString(spec.children);
    target := if text.Some? then Some(Target(text.value, entry)) else None;
  }

  // ---- Line ends ------------------------------------------------------------------------

  function Find(s: string, c: char): Option<nat> {
    if s == "" then None
    else if s[0] == c then Some(0)
    else match Find(s[1..], c)
         case Some(i) => Some(i + 1)
         case None => None
  }

  lemma {:induction false} FindIsFirst(s: string, c: char)
    ensures Find(s, c).None? ==> c !in s
    ensures Find(s, c).Some? ==>
        var i := Find(s, c).value;
        i < |s| && s[i] == c && c !in s[..i]
  {
    if s != "" && s[0] != c {
      FindIsFirst(s[1..], c);
      if Find(s, c).Some? {
        var i := Find(s, c).value;
        assert s[..i][1..] == s[1..][..i - 1];
      }
    }
  }

  /** Whether the first line ends with CR LF. */
  predicate BeginsWithCrLf(s: string) {
    var i := Find(s, LF);
    i.Some? && 0 < i.value <= |s| && s[i.value - 1] == CR
  }

  /** The formatter writes LF; a text whose first line ends with CR LF gets such ends on all lines. */
  function RestoreLineEndings(original: string, formatted: string): string {
    if BeginsWithCrLf(original) then ToCrLf(Logical(formatted)) else formatted
  }

  /** Whether every LF stands behind a CR. */
  ghost predicate HasOnlyCrLf(s: string) {
    forall i :: 0 <= i < |s| && s[i] == LF ==> 0 < i && s[i - 1] == CR
  }

  lemma {:induction false} ConvertedHasOnlyCrLf(s: string)
    ensures HasOnlyCrLf(ToCrLf(s))
  {
    if s != "" {
      ConvertedHasOnlyCrLf(s[1..]);
      var first, rest := if s[0] == LF then [CR, LF] else [s[0]], ToCrLf(s[1..]);
      forall i | 0 <= i < |ToCrLf(s)| && ToCrLf(s)[i] == LF
        ensures 0 < i && ToCrLf(s)[i - 1] == CR
      {
        if |first| <= i {
          assert rest[i - |first|] == LF;
        }
      }
    }
  }

  /**
   Restoring the line ends changes nothing that the lexer reads; the line ends are those of the first
   line of the original, if it has one, and what the formatter wrote otherwise.
   */
  lemma RestoredReadsTheSame(original: string, formatted: string)
    ensures Logical(RestoreLineEndings(original, formatted)) == Logical(formatted)
    ensures (exists i :: 0 < i < |original| && original[i] == LF && original[i - 1] == CR && LF !in original[..i]) ==>
        HasOnlyCrLf(RestoreLineEndings(original, formatted))
    ensures !(exists i :: 0 < i < |original| && original[i] == LF && original[i - 1] == CR && LF !in original[..i]) ==>
        RestoreLineEndings(original, formatted) == formatted
  {
    hide Logical, ToCrLf, HasOnlyCrLf;
    FindIsFirst(original, LF);
    LogicalUndoesCrLf(Logical(formatted));
    ConvertedHasOnlyCrLf(Logical(formatted));
    if i :| 0 < i < |original| && original[i] == LF && original[i - 1] == CR && LF !in original[..i] {
      var j := Find(original, LF).value;
      NotBefore(original, i, LF);
      NotBefore(original, j, LF);
    }
  }

  lemma NotBefore(s: string, i: nat, c: char)
    requires i <= |s| && c !in s[..i]
    ensures forall k :: 0 <= k < i ==> s[k] != c
  {
    forall k | 0 <= k < i
      ensures s[k] != c
    {
      assert s[..i][k] == s[k];
    }
  }

  // ---- The files ------------------------------------------------------------------------

  datatype Parse = Parse(root: Node, errors: seq<string>)

  /**
   The file system, the parser and the formatter. `relative` strips the quotes and joins;
   `directory` is the directory in which the includes of a path are looked up, with its links
   resolved.
   */
  datatype World = World(
    files: set<string>,
    canonicalize: string -> Option<string>,
    directory: string -> string,
    read: string -> Option<string>,
    parse: (string, Entry) -> Parse,
    format: Node -> string,
    relative: (string, string) -> string)

  /** Canonical paths are paths of files, of which there are finitely many. */
  ghost predicate IsFinite(w: World) {
    forall path :: w.canonicalize(path).Some? ==> w.canonicalize(path).value in w.files
  }

  /** A file has one text, and a name leads to one file from one directory. */
  ghost predicate IsFileSystem(w: World) {
    && (forall p, q :: w.canonicalize(p).Some? && w.canonicalize(p) == w.canonicalize(q) ==> w.read(p) == w.read(q))
    && (forall p, q, text :: w.directory(p) == w.directory(q) ==>
          w.canonicalize(w.relative(p, text)) == w.canonicalize(w.relative(q, text)))
  }

  /** What these specifiers name, in order; one without a path names nothing. */
  function Named(specs: seq<Spec>): seq<string> {
    if specs == [] then
      []
    else
      Named(specs[..|specs| - 1])
      + match FirstString(specs[|specs| - 1].children)
        case None => []
        case Some(text) => [text]
  }

  /** Whether a text has the same includes under all entry points with which it parses: only an
      include specifier takes the keyword. */
  ghost predicate NamesAreFixed(w: World) {
    forall text, e, f :: w.parse(text, e).errors == [] && w.parse(text, f).errors == [] ==>
      Named(Specs(w.parse(text, e).root, [])) == Named(Specs(w.parse(text, f).root, []))
  }

  /** A file, as it was reached. */
  datatype Place = Place(path: string, entry: Entry)

  /** Whether a file can be read and parsed. */
  predicate IsReadable(w: World, p: Place) {
    && w.canonicalize(p.path).Some? && w.read(p.path).Some?
    && w.parse(w.read(p.path).value, p.entry).errors == []
  }

  function RootOf(w: World, p: Place): Node
    requires IsReadable(w, p)
  {
    w.parse(w.read(p.path).value, p.entry).root
  }

  /** The files that these specifiers name, in order; one without a path names none. */
  function PlacesOf(w: World, p: Place, specs: seq<Spec>): seq<Place> {
    if specs == [] then
      []
    else
      var last := specs[|specs| - 1];
      PlacesOf(w, p, specs[..|specs| - 1])
      + match FirstString(last.children)
        case None => []
        case Some(text) => [Place(w.relative(p.path, text), EntryInside(last.ancestors, p.entry))]
  }

  /** What a file includes, in order. */
  function IncludesOf(w: World, p: Place): seq<Place>
    requires IsReadable(w, p)
  {
    PlacesOf(w, p, Specs(RootOf(w, p), []))
  }

  lemma PlacesSnoc(w: World, p: Place, specs: seq<Spec>, spec: Spec)
    ensures FirstString(spec.children).None? ==> PlacesOf(w, p, specs + [spec]) == PlacesOf(w, p, specs)
    ensures FirstString(spec.children).Some? ==>
        PlacesOf(w, p, specs + [spec])
        == PlacesOf(w, p, specs)
           + [Place(w.relative(p.path, FirstString(spec.children).value), EntryInside(spec.ancestors, p.entry))]
    ensures PlacesOf(w, p, []) == []
  {
    assert (specs + [spec])[..|specs|] == specs;
  }

  lemma {:induction false} PlacesPrefix(w: World, p: Place, specs: seq<Spec>, n: nat)
    requires n <= |specs|
    ensures PlacesOf(w, p, specs[..n]) <= PlacesOf(w, p, specs)
    decreases |specs| - n
  {
    if n < |specs| {
      PlacesSnoc(w, p, specs[..n], specs[n]);
      assert specs[..n + 1] == specs[..n] + [specs[n]];
      PlacesPrefix(w, p, specs, n + 1);
    } else {
      assert specs[..n] == specs;
    }
  }

  datatype FormattedUnit = FormattedUnit(path: string, original: string, formatted: string, entry: Entry)

  function UnitOf(w: World, p: Place): FormattedUnit
    requires IsReadable(w, p)
  {
    FormattedUnit(p.path, w.read(p.path).value, RestoreLineEndings(w.read(p.path).value, w.format(RootOf(w, p))), p.entry)
  }

  datatype FormatError =
    | Io(path: string)
    | ParseError(errors: seq<string>)
    | IncludeCycle(chain: seq<string>)

  // ---- Visits ---------------------------------------------------------------------------

  /** A file that was formatted, with what became of its includes, or one that was skipped. */
  datatype Visit = Formatted(place: Place, canon: string, formatted: FormattedUnit, steps: seq<Visit>) | Skipped(canon: string)

  function Units(v: Visit): seq<FormattedUnit>
    decreases v, 0
  {
    match v
    case Formatted(_, _, u, steps) => [u] + UnitsAll(steps)
    case Skipped(_) => []
  }

  function UnitsAll(steps: seq<Visit>): seq<FormattedUnit>
    decreases steps
  {
    if steps == [] then [] else UnitsAll(steps[..|steps| - 1]) + Units(steps[|steps| - 1])
  }

  /** The canonical paths of the formatted files. */
  function Canons(v: Visit): set<string>
    decreases v, 0
  {
    match v
    case Formatted(_, c, _, steps) => {c} + CanonsAll(steps)
    case Skipped(_) => {}
  }

  function CanonsAll(steps: seq<Visit>): set<string>
    decreases steps
  {
    if steps == [] then {} else CanonsAll(steps[..|steps| - 1]) + Canons(steps[|steps| - 1])
  }

  /**
   Whether a visit of `place` is depth-first: `chain` are the files around it, and `before` those
   that were met before it. A file is skipped only if it is not around its own include.
   */
  ghost predicate IsTrace(w: World, v: Visit, place: Place, chain: seq<string>, before: set<string>)
    decreases v, 0
  {
    match v
    case Skipped(c) => w.canonicalize(place.path) == Some(c) && c !in chain && c in before
    case Formatted(p, c, u, steps) =>
      && p == place && IsReadable(w, place) && w.canonicalize(place.path) == Some(c)
      && c !in chain && c !in before
      && u == UnitOf(w, place)
      && AreTraces(w, steps, IncludesOf(w, place), chain + [c], before + {c})
  }

  ghost predicate AreTraces(w: World, steps: seq<Visit>, places: seq<Place>, chain: seq<string>, before: set<string>)
    decreases steps
  {
    && |steps| == |places|
    && (steps != [] ==>
          var n := |steps| - 1;
          && AreTraces(w, steps[..n], places[..n], chain, before)
          && IsTrace(w, steps[n], places[n], chain, before + CanonsAll(steps[..n])))
  }

  lemma StepSnoc(w: World, steps: seq<Visit>, v: Visit, places: seq<Place>, place: Place, chain: seq<string>, before: set<string>)
    ensures UnitsAll(steps + [v]) == UnitsAll(steps) + Units(v)
    ensures CanonsAll(steps + [v]) == CanonsAll(steps) + Canons(v)
    ensures AreTraces(w, steps, places, chain, before) && IsTrace(w, v, place, chain, before + CanonsAll(steps))
        ==> AreTraces(w, steps + [v], places + [place], chain, before)
  {
    hide IsTrace, Units, Canons;
    assert (steps + [v])[..|steps|] == steps;
    assert (places + [place])[..|places|] == places;
  }

  lemma NoSteps(w: World, chain: seq<string>, before: set<string>)
    ensures AreTraces(w, [], [], chain, before) && UnitsAll([]) == [] && CanonsAll([]) == {}
  {
  }

  /** There is at most one depth-first visit of a place. */
  lemma {:induction false} TraceIsUnique(w: World, u: Visit, v: Visit, place: Place, chain: seq<string>, before: set<string>)
    requires IsTrace(w, u, place, chain, before) && IsTrace(w, v, place, chain, before)
    ensures u == v
    decreases u, 0
  {
    hide IncludesOf, UnitOf, IsReadable;
    if u.Formatted? && v.Formatted? {
      TracesAreUnique(w, u.steps, v.steps, IncludesOf(w, place), chain + [u.canon], before + {u.canon});
    }
  }

  lemma {:induction false} TracesAreUnique(w: World, us: seq<Visit>, vs: seq<Visit>, places: seq<Place>, chain: seq<string>,
                                           before: set<string>)
    requires AreTraces(w, us, places, chain, before) && AreTraces(w, vs, places, chain, before)
    ensures us == vs
    decreases us
  {
    hide IsTrace, CanonsAll;
    if us != [] {
      var n := |us| - 1;
      TracesAreUnique(w, us[..n], vs[..n], places[..n], chain, before);
      TraceIsUnique(w, us[n], vs[n], places[n], chain, before + CanonsAll(us[..n]));
      assert us == us[..n] + [us[n]] && vs == vs[..n] + [vs[n]];
    }
  }

  lemma {:induction false} TracesPrefix(w: World, steps: seq<Visit>, places: seq<Place>, chain: seq<string>,
                                        before: set<string>, k: nat)
    requires AreTraces(w, steps, places, chain, before) && k < |places| == |steps|
    ensures AreTraces(w, steps[..k], places[..k], chain, before)
    ensures IsTrace(w, steps[k], places[k], chain, before + CanonsAll(steps[..k]))
    decreases |steps|
  {
    hide IsTrace, CanonsAll;
    var n := |steps| - 1;
    if k < n {
      TracesPrefix(w, steps[..n], places[..n], chain, before, k);
      assert steps[..n][..k] == steps[..k] && places[..n][..k] == places[..k];
    }
  }

  lemma OneStepEach(w: World, steps: seq<Visit>, places: seq<Place>, chain: seq<string>, before: set<string>)
    requires AreTraces(w, steps, places, chain, before)
    ensures |steps| == |places|
  {
  }

  /** When an include cannot be visited, neither can the file. */
  lemma NoTraceBeyond(w: World, place: Place, c: string, chain: seq<string>, before: set<string>, steps: seq<Visit>, k: nat)
    requires IsReadable(w, place) && w.canonicalize(place.path) == Some(c) && c !in before
    requires k < |IncludesOf(w, place)|
    requires AreTraces(w, steps, IncludesOf(w, place)[..k], chain + [c], before + {c})
    requires forall u :: !IsTrace(w, u, IncludesOf(w, place)[k], chain + [c], before + {c} + CanonsAll(steps))
    ensures forall v :: !IsTrace(w, v, place, chain, before)
  {
    forall v
      ensures !IsTrace(w, v, place, chain, before)
    {
      if IsTrace(w, v, place, chain, before) {
        NoStepBeyond(w, v.steps, IncludesOf(w, place), chain + [c], before + {c}, steps, k);
      }
    }
  }

  lemma NoStepBeyond(w: World, all: seq<Visit>, places: seq<Place>, chain: seq<string>, before: set<string>,
                     steps: seq<Visit>, k: nat)
    requires k < |places| && AreTraces(w, steps, places[..k], chain, before)
    requires forall u :: !IsTrace(w, u, places[k], chain, before + CanonsAll(steps))
    ensures !AreTraces(w, all, places, chain, before)
  {
    hide IsTrace, CanonsAll, AreTraces;
    if AreTraces(w, all, places, chain, before) {
      OneStepEach(w, all, places, chain, before);
      TracesPrefix(w, all, places, chain, before, k);
      TracesAreUnique(w, all[..k], steps, places[..k], chain, before);
    }
  }

  // ---- Routes ---------------------------------------------------------------------------

  /** Each file of the route is included by the one before it. */
  ghost predicate IsRoute(w: World, route: seq<Place>, start: Place) {
    && route != [] && route[0] == start
    && forall i :: 0 <= i < |route| - 1 ==> IsReadable(w, route[i]) && route[i + 1] in IncludesOf(w, route[i])
  }

  /** Whether these are the canonical paths of the places. */
  ghost predicate AreCanons(w: World, canons: seq<string>, places: seq<Place>) {
    |canons| == |places| && forall i :: 0 <= i < |places| ==> w.canonicalize(places[i].path) == Some(canons[i])
  }

  /** The error is what one meets at the end of the route: it cannot be read, or parsed, or it is
      a file that the route has met before, or that is in `chain`, around its start. */
  ghost predicate IsFault(w: World, route: seq<Place>, chain: seq<string>, e: FormatError) {
    && route != []
    && var last := route[|route| - 1];
       match e
       case Io(path) => path == last.path && (w.canonicalize(path).None? || w.read(path).None?)
       case ParseError(errors) =>
         && w.canonicalize(last.path).Some? && w.read(last.path).Some?
         && errors != [] && errors == w.parse(w.read(last.path).value, last.entry).errors
       case IncludeCycle(cycle) =>
         && |cycle| == |chain| + |route| && cycle[..|chain|] == chain && AreCanons(w, cycle[|chain|..], route)
         && cycle[|cycle| - 1] in cycle[..|cycle| - 1]
  }

  lemma LongerRoute(w: World, place: Place, c: string, next: Place, route: seq<Place>, chain: seq<string>, e: FormatError)
    requires IsReadable(w, place) && w.canonicalize(place.path) == Some(c) && next in IncludesOf(w, place)
    requires IsRoute(w, route, next) && IsFault(w, route, chain + [c], e)
    ensures IsRoute(w, [place] + route, place) && IsFault(w, [place] + route, chain, e)
  {
    var all := [place] + route;
    assert all[|all| - 1] == route[|route| - 1];
    forall i | 0 <= i < |all| - 1
      ensures IsReadable(w, all[i]) && all[i + 1] in IncludesOf(w, all[i])
    {
      if 0 < i {
        assert all[i] == route[i - 1] && all[i + 1] == route[i];
      }
    }
    if e.IncludeCycle? {
      var cycle, n := e.chain, |chain|;
      assert cycle[..n + 1][..n] == cycle[..n] == chain && cycle[n] == cycle[..n + 1][n] == c;
      assert cycle[n..] == [c] + cycle[n + 1..];
      forall i | 0 <= i < |all|
        ensures w.canonicalize(all[i].path) == Some(cycle[n..][i])
      {
        if 0 < i {
          assert cycle[n..][i] == cycle[n + 1..][i - 1];
        }
      }
    }
  }

  /** When the i-th include specifier cannot be visited, neither can the file, for the same reason. */
  lemma StepFails(w: World, place: Place, c: string, i: nat, next: Place, route: seq<Place>, chain: seq<string>,
                  before: set<string>, steps: seq<Visit>, e: FormatError)
    requires IsReadable(w, place) && w.canonicalize(place.path) == Some(c) && c !in before
    requires i < |Specs(RootOf(w, place), [])|
    requires var specs := Specs(RootOf(w, place), []);
             && PlacesOf(w, place, specs[..i + 1]) == PlacesOf(w, place, specs[..i]) + [next]
             && AreTraces(w, steps, PlacesOf(w, place, specs[..i]), chain + [c], before + {c})
    requires IsRoute(w, route, next) && IsFault(w, route, chain + [c], e)
    requires forall u :: !IsTrace(w, u, next, chain + [c], before + {c} + CanonsAll(steps))
    ensures IsRoute(w, [place] + route, place) && IsFault(w, [place] + route, chain, e)
    ensures forall v :: !IsTrace(w, v, place, chain, before)
  {
    hide IsTrace, AreTraces, IsFault, IsRoute, PlacesOf, Specs, CanonsAll;
    var specs := Specs(RootOf(w, place), []);
    PlacesPrefix(w, place, specs, i + 1);
    var k := |PlacesOf(w, place, specs[..i])|;
    assert IncludesOf(w, place)[..k] == PlacesOf(w, place, specs[..i]);
    assert IncludesOf(w, place)[k] == next;
    NoTraceBeyond(w, place, c, chain, before, steps, k);
    LongerRoute(w, place, c, next, route, chain, e);
  }

  // ---- Formatting -----------------------------------------------------------------------

  class Walk {
    const world: World
    var results: seq<FormattedUnit>
    var chain: seq<string>
    var visited: set<string>

    constructor (world: World)
      ensures this.world == world && results == [] && chain == [] && visited == {}
    {
      this.world := world;
      results, chain, visited := [], [], {};
    }

    /** On success the walk was depth-first; on failure there is a route to the fault. */
    method FormatInner(path: string, entry: Entry)
      returns (failure: Option<FormatError>, ghost v: Visit, ghost route: seq<Place>)
      requires IsFinite(world) && visited <= world.files && forall c :: c in chain ==> c in visited
      modifies this
      ensures old(visited) <= visited <= world.files
      ensures failure.None? ==>
          && IsTrace(world, v, Place(path, entry), old(chain), old(visited))
          && chain == old(chain) && visited == old(visited) + Canons(v) && results == old(results) + Units(v)
      ensures failure.Some? ==>
          && IsRoute(world, route, Place(path, entry)) && IsFault(world, route, old(chain), failure.value)
          && forall u :: !IsTrace(world, u, Place(path, entry), old(chain), old(visited))
      decreases world.files - visited
    {
      hide IsTrace, AreTraces, IsFault, IsRoute, PlacesOf, Specs, Units, UnitsAll, Canons, CanonsAll, FirstString;
      ghost var place, chain0, before, results0 := Place(path, entry), chain, visited, results;
      v, route := Skipped(""), [place];
      OneStep(world, place);
      OnlyIfReadable(world, place, chain, visited);
      var canon := world.canonicalize(path);
      if canon.None? {
        FirstFault(world, place, chain);
        return Some(Io(path)), v, route;
      }
      var c := canon.value;
      if c in chain {
        OneStepCycle(world, place, chain, c);
        return Some(IncludeCycle(chain + [c])), v, route;
      }
      if c in visited {
        SkippedTrace(world, place, c, chain, visited);
        assert results + [] == results;
        return None, Skipped(c), route;
      }
      visited := visited + {c};
      FirstFault(world, place, chain);
      var original := world.read(path);
      if original.None? {
        return Some(Io(path)), v, route;
      }
      var parse := world.parse(original.value, entry);
      if parse.errors != [] {
        return Some(ParseError(parse.errors)), v, route;
      }
      var formatted := RestoreLineEndings(original.value, world.format(parse.root));
      var unit := FormattedUnit(path, original.value, formatted, entry);
      results := results + [unit];
      chain := chain + [c];
      ghost var steps: seq<Visit> := [];
      var specs := Specs(parse.root, []);
      assert IsReadable(world, place) && unit == UnitOf(world, place);
      assert PlacesOf(world, place, specs) == IncludesOf(world, place) && specs == Specs(RootOf(world, place), []);
      hide IsReadable, UnitOf, IncludesOf, RootOf;
      NoSteps(world, chain, visited);
      assert specs[..0] == [] && [unit] + [] == [unit];
      PlacesSnoc(world, place, [], Spec([], []));
      for i := 0 to |specs|
        invariant before + {c} <= visited <= world.files && chain == chain0 + [c]
        invariant AreTraces(world, steps, PlacesOf(world, place, specs[..i]), chain, before + {c})
        invariant visited == before + {c} + CanonsAll(steps)
        invariant results == results0 + ([unit] + UnitsAll(steps))
      {
        var target := IncludeTarget(specs[i], entry);
        PlacesSnoc(world, place, specs[..i], specs[i]);
        OneMore(specs, i);
        if target.None? {
          continue;
        }
        var resolved := world.relative(path, target.value.text);
        ghost var next := Place(resolved, target.value.entry);
        ghost var w, r;
        failure, w, r := FormatInner(resolved, target.value.entry);
        if failure.Some? {
          StepFails(world, place, c, i, next, r, chain0, before, steps, failure.value);
          return failure, v, [place] + r;
        }
        StepSnoc(world, steps, w, PlacesOf(world, place, specs[..i]), next, chain, before + {c});
        Regroup(results0, [unit], UnitsAll(steps), Units(w));
        steps := steps + [w];
      }
      assert specs[..|specs|] == specs;
      chain := chain[..|chain| - 1];
      assert chain == chain0;
      v := Formatted(place, c, unit, steps);
      FormattedTrace(world, place, c, unit, steps, chain0, before);
      return None, v, route;
    }
  }

  lemma Regroup<T>(a: seq<T>, b: seq<T>, c: seq<T>, d: seq<T>)
    ensures a + (b + c) + d == a + (b + (c + d))
  {
  }

  lemma OneMore<T>(s: seq<T>, i: nat)
    requires i < |s|
    ensures s[..i + 1] == s[..i] + [s[i]]
  {
  }

  lemma OneStep(w: World, place: Place)
    ensures IsRoute(w, [place], place)
  {
  }

  /** A file can be visited only if it is not around itself, and is read unless it was met before. */
  lemma OnlyIfReadable(w: World, place: Place, chain: seq<string>, before: set<string>)
    ensures var c := w.canonicalize(place.path);
            c.None? || c.value in chain || (c.value !in before && !IsReadable(w, place)) ==>
              forall v :: !IsTrace(w, v, place, chain, before)
  {
  }

  /** A file that cannot be read or parsed is a fault on the spot. */
  lemma FirstFault(w: World, place: Place, chain: seq<string>)
    ensures w.canonicalize(place.path).None? || w.read(place.path).None? ==> IsFault(w, [place], chain, Io(place.path))
    ensures w.canonicalize(place.path).Some? && w.read(place.path).Some? ==>
        var errors := w.parse(w.read(place.path).value, place.entry).errors;
        errors != [] ==> IsFault(w, [place], chain, ParseError(errors))
  {
  }

  lemma SkippedTrace(w: World, place: Place, c: string, chain: seq<string>, before: set<string>)
    requires w.canonicalize(place.path) == Some(c) && c !in chain && c in before
    ensures IsTrace(w, Skipped(c), place, chain, before) && Units(Skipped(c)) == [] && Canons(Skipped(c)) == {}
  {
  }

  lemma FormattedTrace(w: World, place: Place, c: string, u: FormattedUnit, steps: seq<Visit>, chain: seq<string>,
                       before: set<string>)
    requires IsReadable(w, place) && w.canonicalize(place.path) == Some(c) && c !in chain && c !in before
    requires u == UnitOf(w, place)
    requires AreTraces(w, steps, IncludesOf(w, place), chain + [c], before + {c})
    ensures var v := Formatted(place, c, u, steps);
            && IsTrace(w, v, place, chain, before)
            && Units(v) == [u] + UnitsAll(steps) && Canons(v) == {c} + CanonsAll(steps)
  {
  }

  lemma OneStepCycle(w: World, place: Place, chain: seq<string>, c: string)
    requires w.canonicalize(place.path) == Some(c) && c in chain
    ensures IsFault(w, [place], chain, IncludeCycle(chain + [c]))
  {
    assert (chain + [c])[..|chain|] == chain && (chain + [c])[|chain|..] == [c];
  }
}
