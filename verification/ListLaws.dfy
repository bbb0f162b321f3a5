/** How the members of a list are set apart (fpp_format/src/formatter.rs:187-269, 458-482). */
module ListLaws {
  import opened Wrappers
  import opened Docs
  import opened Flows
  import opened Lowering
  import opened TreeFlows

  // ---- Members --------------------------------------------------------------------------------

  /** The children that are printed. */
  function Kept(ts: seq<Tree>): seq<Tree> {
    if ts == [] then [] else Kept(ts[..|ts| - 1]) + if IsKept(ts[|ts| - 1]) then [ts[|ts| - 1]] else []
  }

  /** The members of a list: each is a child with the comments and annotations behind it. */
  function Groups(ts: seq<Tree>): seq<seq<Tree>> {
    if ts == [] then
      []
    else
      var groups, t := Groups(ts[..|ts| - 1]), ts[|ts| - 1];
      if !IsKept(t) then groups
      else if StartsMember(ts[..|ts| - 1], t) || groups == [] then groups + [[t]]
      else groups[..|groups| - 1] + [groups[|groups| - 1] + [t]]
  }

  /** Whether a blank line is kept before each member. */
  function Blanks(ts: seq<Tree>): seq<bool> {
    if ts == [] then
      []
    else
      var blanks, t := Blanks(ts[..|ts| - 1]), ts[|ts| - 1];
      if IsKept(t) && StartsMember(ts[..|ts| - 1], t) then blanks + [HasBlank(ts[..|ts| - 1])] else blanks
  }

  function Flatten(groups: seq<seq<Tree>>): seq<Tree> {
    if groups == [] then [] else Flatten(groups[..|groups| - 1]) + groups[|groups| - 1]
  }

  function MemberFlow(style: Style, group: seq<Tree>): seq<Bit> {
    if group == [] then
      []
    else
      var init, t := group[..|group| - 1], group[|group| - 1];
      if init == [] || t.Node? then PlainFlow(style, t) else MemberFlow(style, init) + AttachedFlow(Some(init[|init| - 1]), t)
  }

  /** Members one after the other, with what sets them apart. */
  function Joined(style: Style, block: bool, groups: seq<seq<Tree>>, blanks: seq<bool>): seq<Bit>
    requires |blanks| == |groups|
  {
    if groups == [] then
      []
    else
      var n := |groups| - 1;
      Joined(style, block, groups[..n], blanks[..n])
      + ((if n == 0 then [] else MemberSep(block, blanks[n])) + MemberFlow(style, groups[n]))
  }

  lemma JoinedSnoc(style: Style, block: bool, groups: seq<seq<Tree>>, blanks: seq<bool>, g: seq<Tree>, blank: bool)
    requires |blanks| == |groups|
    ensures Joined(style, block, groups + [g], blanks + [blank])
         == Joined(style, block, groups, blanks)
            + ((if groups == [] then [] else MemberSep(block, blank)) + MemberFlow(style, g))
  {
    hide MemberFlow, MemberSep;
    assert (groups + [g])[..|groups|] == groups && (blanks + [blank])[..|groups|] == blanks;
  }

  lemma FlattenSnoc(groups: seq<seq<Tree>>, g: seq<Tree>)
    ensures Flatten(groups + [g]) == Flatten(groups) + g
  {
    assert (groups + [g])[..|groups|] == groups;
  }

  lemma MemberSnoc(style: Style, g: seq<Tree>, t: Tree)
    ensures MemberFlow(style, [t]) == PlainFlow(style, t)
    ensures g != [] && t.Token? ==> MemberFlow(style, g + [t]) == MemberFlow(style, g) + AttachedFlow(Some(g[|g| - 1]), t)
  {
    hide PlainFlow, AttachedFlow;
    assert [t][..0] == [] && (g + [t])[..|g|] == g;
  }

  function LastOf(groups: seq<seq<Tree>>): Option<Tree> {
    if groups == [] || groups[|groups| - 1] == [] then None else Some(groups[|groups| - 1][|groups[|groups| - 1]| - 1])
  }

  lemma GroupsSnoc(ts: seq<Tree>, t: Tree)
    ensures Groups(ts + [t])
         == (var groups := Groups(ts);
             if !IsKept(t) then groups
             else if StartsMember(ts, t) || groups == [] then groups + [[t]]
             else groups[..|groups| - 1] + [groups[|groups| - 1] + [t]])
    ensures Blanks(ts + [t]) == Blanks(ts) + if IsKept(t) && StartsMember(ts, t) then [HasBlank(ts)] else []
    ensures Kept(ts + [t]) == Kept(ts) + if IsKept(t) then [t] else []
    ensures LastKept(ts + [t]) == if IsKept(t) then Some(t) else LastKept(ts)
  {
    hide IsKept, StartsMember, HasBlank;
    assert (ts + [t])[..|ts|] == ts;
    assert Blanks(ts) + [] == Blanks(ts);
  }

  /** Whether these are members, none of them empty, up to a last child. */
  ghost predicate AreGroups(groups: seq<seq<Tree>>, blanks: seq<bool>, last: Option<Tree>) {
    && |blanks| == |groups| && (forall k :: 0 <= k < |groups| ==> groups[k] != [])
    && last == LastOf(groups)
  }

  lemma GroupsGrow(groups: seq<seq<Tree>>, blanks: seq<bool>, last: Option<Tree>, t: Tree, blank: bool)
    requires AreGroups(groups, blanks, last)
    ensures AreGroups(groups + [[t]], blanks + [blank], Some(t))
    ensures groups != [] ==> AreGroups(groups[..|groups| - 1] + [groups[|groups| - 1] + [t]], blanks, Some(t))
  {
  }

  /** The members hold the kept children in order. */
  lemma {:induction false} GroupsHoldKept(ts: seq<Tree>)
    ensures AreGroups(Groups(ts), Blanks(ts), LastKept(ts)) && Flatten(Groups(ts)) == Kept(ts)
    decreases ts
  {
    hide HasBlank, IsKept, StartsMember, Flatten, Groups, Blanks, Kept, LastKept, AreGroups;
    if ts == [] {
      NoGroups();
      return;
    }
    var init, t := ts[..|ts| - 1], ts[|ts| - 1];
    assert ts == init + [t];
    GroupsHoldKept(init);
    GroupsSnoc(init, t);
    MustStart(init, t);
    GroupsGrow(Groups(init), Blanks(init), LastKept(init), t, HasBlank(init));
    LastMeansGroups(Groups(init), Blanks(init), LastKept(init));
    FlattenSnoc(Groups(init), [t]);
    assert Kept(init) + [] == Kept(init) && Blanks(init) + [] == Blanks(init);
    if IsKept(t) && !StartsMember(init, t) {
      var groups := Groups(init);
      var n := |groups| - 1;
      assert groups == groups[..n] + [groups[n]];
      FlattenSnoc(groups[..n], groups[n]);
      FlattenSnoc(groups[..n], groups[n] + [t]);
      Regroup(Flatten(groups[..n]), groups[n], [t]);
    }
  }

  lemma NoGroups()
    ensures AreGroups(Groups([]), Blanks([]), LastKept([])) && Flatten(Groups([])) == Kept([])
  {
  }

  lemma LastMeansGroups(groups: seq<seq<Tree>>, blanks: seq<bool>, last: Option<Tree>)
    requires AreGroups(groups, blanks, last)
    ensures groups == [] <==> last.None?
    ensures |blanks| == |groups|
    ensures groups != [] ==> groups[|groups| - 1] != [] && last == Some(groups[|groups| - 1][|groups[|groups| - 1]| - 1])
  {
  }

  /** The members are printed one after the other. */
  lemma {:induction false} MembersAreJoined(style: Style, block: bool, ts: seq<Tree>)
    ensures |Blanks(ts)| == |Groups(ts)| && (Groups(ts) == [] <==> LastKept(ts).None?)
    ensures MembersFlow(style, block, ts) == Joined(style, block, Groups(ts), Blanks(ts))
    decreases ts
  {
    hide PlainFlow, AttachedFlow, MemberSep, HasBlank, IsKept, StartsMember, Joined, MemberFlow, Groups, Blanks, LastKept, Flatten,
         AreGroups, MembersFlow, LeadsWithBlank, LastOf;
    GroupsHoldKept(ts);
    LastMeansGroups(Groups(ts), Blanks(ts), LastKept(ts));
    if ts == [] {
      NoMembers(style, block);
      return;
    }
    var init, t := ts[..|ts| - 1], ts[|ts| - 1];
    SplitLast(ts);
    MembersAreJoined(style, block, init);
    GroupsHoldKept(init);
    LastMeansGroups(Groups(init), Blanks(init), LastKept(init));
    GroupsSnoc(init, t);
    MembersSnoc(style, block, init, t);
    MustStart(init, t);
    var groups, blanks, before := Groups(init), Blanks(init), MembersFlow(style, block, init);
    NothingMore(before);
    NothingMore(blanks);
    if IsKept(t) {
      if StartsMember(init, t) {
        JoinedStarts(style, block, groups, blanks, t, HasBlank(init), LastKept(init));
      } else {
        var n := |groups| - 1;
        SplitLast(groups);
        SplitLast(blanks);
        JoinedGrows(style, block, groups[..n], blanks[..n], groups[n], blanks[n], t);
      }
    }
  }

  /** A child that starts a member is printed behind what sets it apart. */
  lemma JoinedStarts(style: Style, block: bool, groups: seq<seq<Tree>>, blanks: seq<bool>, t: Tree, blank: bool, last: Option<Tree>)
    requires |blanks| == |groups| && (groups == [] <==> last.None?)
    ensures Joined(style, block, groups + [[t]], blanks + [blank])
         == Joined(style, block, groups, blanks) + ((if last.None? then [] else MemberSep(block, blank)) + PlainFlow(style, t))
  {
    hide PlainFlow, MemberSep, Joined, MemberFlow;
    JoinedSnoc(style, block, groups, blanks, [t], blank);
    MemberSnoc(style, [t], t);
  }

  /** Behind a member, a blank line is one exactly if there are at least two newlines. */
  lemma {:induction false} BlankMeansNewlines(ts: seq<Tree>)
    requires LastKept(ts).Some?
    ensures HasBlank(ts) <==> 2 <= NewlinesSince(ts)
  {
    var init, t := ts[..|ts| - 1], ts[|ts| - 1];
    if !IsKept(t) {
      BlankMeansNewlines(init);
      KeptMeansStarted(init);
    }
  }

  lemma {:induction false} KeptMeansStarted(ts: seq<Tree>)
    requires LastKept(ts).Some?
    ensures HasStarted(ts)
  {
    hide IsKept;
    var init, t := ts[..|ts| - 1], ts[|ts| - 1];
    if !IsKept(t) {
      KeptMeansStarted(init);
      var i :| 0 <= i < |init| && (IsKept(init[i]) || (init[i].Token? && IsOpening(init[i].tokenKind)));
      assert ts[i] == init[i];
    } else {
      assert IsKept(ts[|ts| - 1]);
    }
  }

  /** A comment behind the last member is printed behind it. */
  lemma JoinedGrows(style: Style, block: bool, groups: seq<seq<Tree>>, blanks: seq<bool>, g: seq<Tree>, blank: bool, t: Tree)
    requires |blanks| == |groups| && g != [] && t.Token?
    ensures Joined(style, block, groups + [g + [t]], blanks + [blank])
         == Joined(style, block, groups + [g], blanks + [blank]) + AttachedFlow(Some(g[|g| - 1]), t)
  {
    hide AttachedFlow, MemberSep, Joined, MemberFlow;
    JoinedSnoc(style, block, groups, blanks, g, blank);
    JoinedSnoc(style, block, groups, blanks, g + [t], blank);
    MemberSnoc(style, g, t);
    RegroupFour(Joined(style, block, groups, blanks), if groups == [] then [] else MemberSep(block, blank), MemberFlow(style, g),
                AttachedFlow(Some(g[|g| - 1]), t));
  }

  lemma SplitLast<T>(s: seq<T>)
    requires s != []
    ensures s == s[..|s| - 1] + [s[|s| - 1]]
  {
  }

  lemma RegroupFour<T>(a: seq<T>, b: seq<T>, c: seq<T>, d: seq<T>)
    ensures a + (b + (c + d)) == a + (b + c) + d
  {
  }

  lemma NothingMore<T>(s: seq<T>)
    ensures s + [] == s
  {
  }

  lemma NoMembers(style: Style, block: bool)
    ensures Groups([]) == [] && Blanks([]) == [] && MembersFlow(style, block, []) == Joined(style, block, [], []) == []
  {
  }

  lemma MustStart(ts: seq<Tree>, t: Tree)
    ensures IsKept(t) && (LastKept(ts).None? || t.Node?) ==> StartsMember(ts, t)
  {
  }

  // ---- Balanced bits -----------------------------------------------------------------------------

  /** Whether all groups that are entered are left again. */
  ghost predicate IsBalanced(bits: seq<Bit>) {
    forall outer, modes :: |modes| == |bits| ==> OpenGroups(bits, outer, modes) == outer
  }

  lemma BalancedAt(bits: seq<Bit>, outer: seq<Mode>, modes: seq<Mode>)
    requires IsBalanced(bits) && |modes| == |bits|
    ensures OpenGroups(bits, outer, modes) == outer
  {
  }

  lemma BalancedConcat(a: seq<Bit>, b: seq<Bit>)
    requires IsBalanced(a) && IsBalanced(b)
    ensures IsBalanced(a + b)
  {
    hide OpenGroups, IsBalanced;
    forall outer: seq<Mode>, modes: seq<Mode> | |modes| == |a + b|
      ensures OpenGroups(a + b, outer, modes) == outer
    {
      var ma, mb := modes[..|a|], modes[|a|..];
      assert modes == ma + mb;
      PrintedConcat(a, b, outer, ma, mb, 0);
      BalancedAt(a, outer, ma);
      BalancedAt(b, outer, mb);
    }
    MeansBalanced(a + b);
  }

  lemma MeansBalanced(bits: seq<Bit>)
    requires forall outer, modes :: |modes| == |bits| ==> OpenGroups(bits, outer, modes) == outer
    ensures IsBalanced(bits)
  {
  }

  lemma BalancedOne(b: Bit)
    requires !b.Enter? && !b.Leave?
    ensures IsBalanced([b]) && IsBalanced([])
  {
    hide OpenGroups;
    forall outer: seq<Mode>, modes: seq<Mode> | |modes| == 1
      ensures OpenGroups([b], outer, modes) == outer
    {
      PrintedOne(b, outer, modes[0], 0);
      assert modes == [modes[0]];
    }
    forall outer: seq<Mode>, modes: seq<Mode> | |modes| == 0
      ensures OpenGroups([], outer, modes) == outer
    {
      PrintedOne(b, outer, Break, 0);
      assert modes == [];
    }
  }

  lemma BalancedGroup(bits: seq<Bit>)
    requires IsBalanced(bits)
    ensures IsBalanced([Enter] + bits + [Leave])
  {
    hide OpenGroups, IsBalanced;
    forall outer: seq<Mode>, modes: seq<Mode> | |modes| == |[Enter] + bits + [Leave]|
      ensures OpenGroups([Enter] + bits + [Leave], outer, modes) == outer
    {
      var m, inner, l := modes[0], modes[1..|bits| + 1], modes[|bits| + 1];
      Ends(modes);
      BalancedAt(bits, outer + [m], inner);
      GroupOpens(bits, outer, m, inner, l);
    }
    MeansBalanced([Enter] + bits + [Leave]);
  }

  lemma Ends<T>(s: seq<T>)
    requires 2 <= |s|
    ensures s == [s[0]] + s[1..|s| - 1] + [s[|s| - 1]]
  {
  }

  lemma GroupOpens(bits: seq<Bit>, outer: seq<Mode>, m: Mode, inner: seq<Mode>, l: Mode)
    requires |inner| == |bits| && OpenGroups(bits, outer + [m], inner) == outer + [m]
    ensures OpenGroups([Enter] + bits + [Leave], outer, [m] + inner + [l]) == outer
  {
    hide OpenGroups;
    PrintedOne(Enter, outer, m, 0);
    PrintedOne(Leave, outer + [m], l, 0);
    PrintedConcat([Enter], bits, outer, [m], inner, 0);
    PrintedConcat([Enter] + bits, [Leave], outer, [m] + inner, [l], 0);
    assert (outer + [m])[..|outer|] == outer;
  }

  lemma {:induction false} OpenShift(bits: seq<Bit>, n: int, outer: seq<Mode>, modes: seq<Mode>)
    requires |modes| == |bits|
    ensures OpenGroups(Shift(bits, n), outer, modes) == OpenGroups(bits, outer, modes)
  {
    if bits != [] {
      var k := |bits| - 1;
      OpenShift(bits[..k], n, outer, modes[..k]);
      assert Shift(bits, n)[..k] == Shift(bits[..k], n);
    }
  }

  lemma BalancedShift(bits: seq<Bit>, n: int)
    requires IsBalanced(bits)
    ensures IsBalanced(Shift(bits, n))
  {
    hide OpenGroups;
    forall outer: seq<Mode>, modes: seq<Mode> | |modes| == |bits|
      ensures OpenGroups(Shift(bits, n), outer, modes) == outer
    {
      OpenShift(bits, n, outer, modes);
      BalancedAt(bits, outer, modes);
    }
  }

  lemma BalancedPlain(style: Style, parent: nat, t: Tree, prev: Option<Tree>, first: Option<Tree>)
    ensures t.Token? ==> IsBalanced(TokenFlow(style, parent, t)) && IsBalanced([Word(t.text)])
    ensures IsBalanced(SepFlow(style, prev, first)) && IsBalanced(CommaFlow(style, t))
  {
    hide IsBalanced;
    BalancedOne(BREAK);
    BalancedOne(Word(","));
    if t.Token? {
      BalancedOne(Word(t.text));
      var anchor := style.anchor(parent, t.tokenKind);
      if anchor.Some? {
        BalancedOne(Mark(anchor.value, 0));
        BalancedConcat([Mark(anchor.value, 0)], [Word(t.text)]);
      } else {
        assert [] + [Word(t.text)] == [Word(t.text)];
      }
    }
    if prev.Some? && first.Some? {
      BalancedOne(Word(style.flatSep(prev.value, first.value)));
    }
  }

  lemma BalancedAttached(last: Option<Tree>, t: Tree, block: bool, blank: bool)
    ensures t.Token? ==> IsBalanced(AttachedFlow(last, t))
    ensures IsBalanced(MemberSep(block, blank)) && IsBalanced(Breaks(blank))
  {
    hide IsBalanced;
    BalancedOne(BREAK);
    BalancedConcat([BREAK], [BREAK]);
    assert [BREAK] + [BREAK] == [BREAK, BREAK];
    BalancedOne(Gap(Some(", "), false, 0));
    if t.Token? {
      var gap := if t.tokenKind.PostAnnotation? then "  " else " ";
      var sep := if last.Some? && IsSwallowing(last.value) then BREAK else Word(gap);
      var note := if t.tokenKind.PostAnnotation? then [Mark(AnchorKind.PostAnnotation, 0)] else [];
      BalancedOne(sep);
      BalancedOne(Mark(AnchorKind.PostAnnotation, 0));
      BalancedOne(Word(t.text));
      BalancedConcat([sep], note);
      BalancedConcat([sep] + note, [Word(t.text)]);
    }
  }

  /** What is printed of a tree enters and leaves its groups in pairs. */
  lemma {:induction false} NodeIsBalanced(style: Style, n: Tree)
    requires n.Node?
    ensures IsBalanced(FlowOf(style, n))
    decreases n, 0
  {
    hide IsBalanced, ListFlow, ChoiceFlow, SpecFlow, RowFlow;
    if style.isMemberList(n.kind) {
      ListIsBalanced(style, n.kind, n.children);
    } else if style.isChoice(n.kind) {
      ChoiceIsBalanced(style, n.children);
    } else if style.isExplodable(n.kind) {
      SpecIsBalanced(style, n.kind, n.children);
    } else {
      RowIsBalanced(style, n.kind, n.children);
    }
  }

  lemma {:induction false} ChildIsBalanced(style: Style, parent: nat, t: Tree)
    ensures IsBalanced(ChildFlow(style, parent, t)) && IsBalanced(PlainFlow(style, t))
    decreases t, 1
  {
    hide IsBalanced, TokenFlow, FlowOf;
    BalancedPlain(style, parent, t, None, None);
    if t.Node? {
      NodeIsBalanced(style, t);
    }
  }

  lemma {:induction false} RowIsBalanced(style: Style, kind: nat, ts: seq<Tree>)
    ensures IsBalanced(RowFlow(style, kind, ts))
    decreases ts, 0
  {
    hide IsBalanced, ChildFlow, SepFlow, CommaFlow, LastTokenIn, FirstToken;
    BalancedOne(BREAK);
    if ts != [] {
      var init, t := ts[..|ts| - 1], ts[|ts| - 1];
      RowIsBalanced(style, kind, init);
      var sep, child := SepFlow(style, LastTokenIn(init), FirstToken(t)), ChildFlow(style, kind, t);
      ChildIsBalanced(style, kind, t);
      BalancedPlain(style, kind, t, LastTokenIn(init), FirstToken(t));
      BalancedConcat(sep, child);
      BalancedConcat(sep + child, CommaFlow(style, t));
      BalancedConcat(RowFlow(style, kind, init), sep + child + CommaFlow(style, t));
      assert RowFlow(style, kind, init) + [] == RowFlow(style, kind, init);
    }
  }

  lemma {:induction false} SpecRowIsBalanced(style: Style, kind: nat, ts: seq<Tree>)
    ensures IsBalanced(SpecRow(style, kind, ts))
    decreases ts, 0
  {
    hide IsBalanced, ChildFlow, SepFlow, LastTokenIn, FirstToken, Shift, StartsClause, HasClause;
    BalancedOne(Gap(Some(" "), true, 0));
    if ts != [] {
      var init, t := ts[..|ts| - 1], ts[|ts| - 1];
      SpecRowIsBalanced(style, kind, init);
      var sep, child := SepFlow(style, LastTokenIn(init), FirstToken(t)), ChildFlow(style, kind, t);
      var n := if HasClause(style, kind, init) then 1 else 0;
      ChildIsBalanced(style, kind, t);
      BalancedPlain(style, kind, t, LastTokenIn(init), FirstToken(t));
      BalancedConcat([Gap(Some(" "), true, 0)], child);
      BalancedShift([Gap(Some(" "), true, 0)] + child, 1);
      BalancedConcat(SpecRow(style, kind, init), Shift([Gap(Some(" "), true, 0)] + child, 1));
      BalancedConcat(sep, child);
      BalancedShift(sep + child, n);
      BalancedConcat(SpecRow(style, kind, init), Shift(sep + child, n));
      assert SpecRow(style, kind, init) + [] == SpecRow(style, kind, init);
    }
  }

  lemma {:induction false} SpecIsBalanced(style: Style, kind: nat, ts: seq<Tree>)
    ensures IsBalanced(SpecFlow(style, kind, ts))
    decreases ts, 1
  {
    hide IsBalanced, SpecRow, HasClause;
    SpecRowIsBalanced(style, kind, ts);
    BalancedGroup(SpecRow(style, kind, ts));
  }

  lemma {:induction false} PartIsBalanced(style: Style, ts: seq<Tree>, inBody: bool)
    ensures IsBalanced(ChoicePart(style, ts, inBody))
    decreases ts, 0
  {
    hide IsBalanced, PlainFlow, SepFlow, PrevInChoice, FirstToken, HasLeftCurly;
    BalancedOne(BREAK);
    if ts != [] {
      var init, t := ts[..|ts| - 1], ts[|ts| - 1];
      PartIsBalanced(style, init, inBody);
      ChildIsBalanced(style, 0, t);
      BalancedPlain(style, 0, t, PrevInChoice(init), FirstToken(t));
      BalancedConcat(SepFlow(style, PrevInChoice(init), FirstToken(t)), PlainFlow(style, t));
      BalancedConcat(ChoicePart(style, init, inBody), SepFlow(style, PrevInChoice(init), FirstToken(t)) + PlainFlow(style, t));
      assert ChoicePart(style, init, inBody) + [] == ChoicePart(style, init, inBody);
    }
  }

  lemma {:induction false} ChoiceIsBalanced(style: Style, ts: seq<Tree>)
    ensures IsBalanced(ChoiceFlow(style, ts))
    decreases ts, 1
  {
    hide IsBalanced, ChoicePart, Shift;
    var head, body := ChoicePart(style, ts, false), ChoicePart(style, ts, true);
    PartIsBalanced(style, ts, false);
    PartIsBalanced(style, ts, true);
    BalancedOne(Word(" {"));
    BalancedOne(BREAK);
    BalancedOne(Word("}"));
    BalancedGroup(body);
    BalancedConcat([BREAK], [Enter] + body + [Leave]);
    BalancedShift([BREAK] + ([Enter] + body + [Leave]), 1);
    BalancedConcat(head, [Word(" {")]);
    BalancedConcat(head + [Word(" {")], Shift([BREAK] + ([Enter] + body + [Leave]), 1));
    BalancedConcat(head + [Word(" {")] + Shift([BREAK] + ([Enter] + body + [Leave]), 1), [BREAK]);
    BalancedConcat(head + [Word(" {")] + Shift([BREAK] + ([Enter] + body + [Leave]), 1) + [BREAK], [Word("}")]);
  }

  lemma {:induction false} MembersAreBalanced(style: Style, block: bool, ts: seq<Tree>)
    ensures IsBalanced(MembersFlow(style, block, ts))
    decreases ts, 0
  {
    hide IsBalanced, PlainFlow, AttachedFlow, MemberSep, HasBlank, LastKept, IsKept, StartsMember;
    BalancedOne(BREAK);
    if ts != [] {
      var init, t := ts[..|ts| - 1], ts[|ts| - 1];
      MembersAreBalanced(style, block, init);
      ChildIsBalanced(style, 0, t);
      BalancedAttached(LastKept(init), t, block, HasBlank(init));
      var sep := if LastKept(init).None? then [] else MemberSep(block, HasBlank(init));
      BalancedConcat(sep, PlainFlow(style, t));
      BalancedConcat(MembersFlow(style, block, init), sep + PlainFlow(style, t));
      if t.Token? {
        BalancedConcat(MembersFlow(style, block, init), AttachedFlow(LastKept(init), t));
      }
      MustStart(init, t);
      assert MembersFlow(style, block, init) + [] == MembersFlow(style, block, init);
    }
  }

  lemma BalancedList(cfg: ListCfg, lead: seq<Bit>, members: seq<Bit>, trail: seq<Bit>)
    requires IsBalanced(lead) && IsBalanced(members) && IsBalanced(trail)
    ensures IsBalanced([Word(cfg.open)] + Shift(lead + members, 1) + trail + [Word(cfg.close)])
  {
    hide IsBalanced, Shift;
    BalancedOne(Word(cfg.open));
    BalancedOne(Word(cfg.close));
    BalancedConcat(lead, members);
    BalancedShift(lead + members, 1);
    BalancedConcat([Word(cfg.open)], Shift(lead + members, 1));
    BalancedConcat([Word(cfg.open)] + Shift(lead + members, 1), trail);
    BalancedConcat([Word(cfg.open)] + Shift(lead + members, 1) + trail, [Word(cfg.close)]);
  }

  lemma {:induction false} ListIsBalanced(style: Style, kind: nat, ts: seq<Tree>)
    ensures IsBalanced(ListFlow(style, kind, ts))
    decreases ts, 1
  {
    hide IsBalanced, MembersFlow, Shift, Breaks, LastKept, HasSwallowing, LeadsWithBlank, TrailsWithBlank;
    var cfg := style.listCfg(kind);
    var lead, trail := style.preservesEdgeBlanks(kind) && LeadsWithBlank(ts), style.preservesEdgeBlanks(kind) && TrailsWithBlank(ts);
    BalancedAttached(None, Token(Whitespace, "", 0), true, lead);
    BalancedAttached(None, Token(Whitespace, "", 0), true, trail);
    MembersAreBalanced(style, true, ts);
    MembersAreBalanced(style, false, ts);
    BalancedOne(Word(cfg.open));
    BalancedOne(Word(cfg.close));
    BalancedOne(Word(cfg.open + cfg.close));
    BalancedConcat([Word(cfg.open)], Breaks(trail));
    BalancedConcat([Word(cfg.open)] + Breaks(trail), [Word(cfg.close)]);
    var open, close := [Gap(Some(PadOf(cfg)), false, 0)], [Gap(Some(if cfg.closeStyle.Dedent? then PadOf(cfg) else ""), false, 0)];
    BalancedOne(open[0]);
    BalancedOne(close[0]);
    BalancedList(cfg, Breaks(lead), MembersFlow(style, true, ts), Breaks(trail));
    BalancedList(cfg, open, MembersFlow(style, false, ts), close);
    BalancedGroup([Word(cfg.open)] + Shift(open + MembersFlow(style, false, ts), 1) + close + [Word(cfg.close)]);
  }

  lemma {:induction false} MemberIsBalanced(style: Style, g: seq<Tree>)
    ensures IsBalanced(MemberFlow(style, g))
  {
    hide IsBalanced, PlainFlow, AttachedFlow;
    BalancedOne(BREAK);
    if g != [] {
      var init, t := g[..|g| - 1], g[|g| - 1];
      MemberIsBalanced(style, init);
      ChildIsBalanced(style, 0, t);
      if init != [] && t.Token? {
        BalancedAttached(Some(init[|init| - 1]), t, true, true);
        BalancedConcat(MemberFlow(style, init), AttachedFlow(Some(init[|init| - 1]), t));
      }
    }
  }

  // ---- Printed lists -----------------------------------------------------------------------------

  /** The pieces of members with those of the separators between them. */
  function Interleaved(members: seq<seq<Piece>>, seps: seq<seq<Piece>>): seq<Piece>
    requires |members| == |seps| + 1
  {
    if |members| == 1 then
      members[0]
    else
      var n := |seps| - 1;
      Interleaved(members[..n + 1], seps[..n]) + (seps[n] + members[n + 1])
  }

  lemma InterleavedOne(member: seq<Piece>)
    ensures Interleaved([member], []) == member
  {
  }

  lemma InterleavedSnoc(members: seq<seq<Piece>>, seps: seq<seq<Piece>>, sep: seq<Piece>, member: seq<Piece>)
    requires |members| == |seps| + 1
    ensures Interleaved(members + [member], seps + [sep]) == Interleaved(members, seps) + (sep + member)
  {
    assert (members + [member])[..|members|] == members && (seps + [sep])[..|seps|] == seps;
  }

  /** One line break, or two around a blank line. */
  predicate IsLineBreak(ps: seq<Piece>, blank: bool, depth: int, w: nat) {
    ps == if blank then [Sep(Broken(false, depth, w)), Sep(Broken(false, depth, w))] else [Sep(Broken(false, depth, w))]
  }

  /** What stands between members: a line break in a block; in a group, a comma on the line, or a line
      break without one. */
  predicate SetsApart(ps: seq<Piece>, block: bool, blank: bool, flat: bool, depth: int, w: nat) {
    if block then IsLineBreak(ps, blank, depth, w)
    else if flat then ps == [Sep(", ")]
    else ps == [Sep(Broken(false, depth, w))]
  }

  /** Whether these pieces print the bits, in some modes of the groups inside. */
  ghost predicate Prints(ps: seq<Piece>, bits: seq<Bit>, depth: int, outer: seq<Mode>, w: nat) {
    exists modes :: |modes| == |bits| && ps == Printed(Shift(bits, depth), outer, modes, w)
  }

  ghost predicate PrintsSomehow(ps: seq<Piece>, bits: seq<Bit>, depth: int, w: nat) {
    exists outer :: Prints(ps, bits, depth, outer, w)
  }

  lemma PrintsSome(bits: seq<Bit>, depth: int, outer: seq<Mode>, modes: seq<Mode>, w: nat)
    requires |modes| == |bits|
    ensures Prints(Printed(Shift(bits, depth), outer, modes, w), bits, depth, outer, w)
    ensures PrintsSomehow(Printed(Shift(bits, depth), outer, modes, w), bits, depth, w)
  {
    hide Printed, Shift;
  }

  /** Printing in two parts, the first of which is balanced. */
  lemma PrintedParts(a: seq<Bit>, b: seq<Bit>, depth: int, outer: seq<Mode>, modes: seq<Mode>, w: nat)
    requires IsBalanced(a) && |modes| == |a| + |b|
    ensures Printed(Shift(a + b, depth), outer, modes, w)
         == Printed(Shift(a, depth), outer, modes[..|a|], w) + Printed(Shift(b, depth), outer, modes[|a|..], w)
  {
    hide Printed, Shift, IsBalanced, OpenGroups;
    ShiftConcat(a, b, depth);
    BalancedShift(a, depth);
    BalancedAt(Shift(a, depth), outer, modes[..|a|]);
    PrintedConcat(Shift(a, depth), Shift(b, depth), outer, modes[..|a|], modes[|a|..], w);
    assert modes == modes[..|a|] + modes[|a|..];
  }

  lemma SepPrints(block: bool, blank: bool, depth: int, outer: seq<Mode>, modes: seq<Mode>, w: nat)
    requires |modes| == |MemberSep(block, blank)| && outer != []
    ensures SetsApart(Printed(Shift(MemberSep(block, blank), depth), outer, modes, w), block, blank, outer[|outer| - 1].Flat?, depth, w)
  {
    hide Printed, OpenGroups, Broken;
    var gap := Gap(Some(", "), false, depth);
    var brk := Gap(None, false, depth);
    if !block {
      assert Shift(MemberSep(block, blank), depth) == [gap] && modes == [modes[0]];
      PrintedOne(gap, outer, modes[0], w);
    } else if !blank {
      assert Shift(MemberSep(block, blank), depth) == [brk] && modes == [modes[0]];
      PrintedOne(brk, outer, modes[0], w);
    } else {
      assert Shift(MemberSep(block, blank), depth) == [brk] + [brk] && modes == [modes[0]] + [modes[1]];
      PrintedOne(brk, outer, modes[0], w);
      PrintedOne(brk, outer, modes[1], w);
      PrintedConcat([brk], [brk], outer, [modes[0]], [modes[1]], w);
    }
  }

  /** Members are printed in order, each as it is, with separators between them. */
  lemma {:induction false} JoinedPrints(style: Style, block: bool, groups: seq<seq<Tree>>, blanks: seq<bool>, depth: int,
                                        outer: seq<Mode>, modes: seq<Mode>, w: nat)
    returns (members: seq<seq<Piece>>, seps: seq<seq<Piece>>)
    requires |blanks| == |groups| != 0 && |modes| == |Joined(style, block, groups, blanks)| && outer != []
    ensures |members| == |groups| == |seps| + 1
    ensures Printed(Shift(Joined(style, block, groups, blanks), depth), outer, modes, w) == Interleaved(members, seps)
    ensures forall k :: 0 <= k < |groups| ==> Prints(members[k], MemberFlow(style, groups[k]), depth, outer, w)
    ensures forall k :: 0 <= k < |seps| ==> SetsApart(seps[k], block, blanks[k + 1], outer[|outer| - 1].Flat?, depth, w)
    decreases |groups|
  {
    hide Printed, Shift, IsBalanced, MemberFlow, MemberSep, SetsApart, Prints, PrintsSomehow, Interleaved;
    var n := |groups| - 1;
    var init := Joined(style, block, groups[..n], blanks[..n]);
    var member := MemberFlow(style, groups[n]);
    if n == 0 {
      assert init == [] && [] + ([] + member) == member;
      members, seps := [Printed(Shift(member, depth), outer, modes, w)], [];
      PrintsSome(member, depth, outer, modes, w);
      InterleavedOne(members[0]);
    } else {
      var sep := MemberSep(block, blanks[n]);
      var mi, ms, mm := modes[..|init|], modes[|init|..][..|sep|], modes[|init|..][|sep|..];
      JoinedIsBalanced(style, block, groups[..n], blanks[..n]);
      BalancedAttached(None, Token(Whitespace, "", 0), block, blanks[n]);
      PrintedParts(init, sep + member, depth, outer, modes, w);
      PrintedParts(sep, member, depth, outer, modes[|init|..], w);
      members, seps := JoinedPrints(style, block, groups[..n], blanks[..n], depth, outer, mi, w);
      SepPrints(block, blanks[n], depth, outer, ms, w);
      PrintsSome(member, depth, outer, mm, w);
      var ps, pm := Printed(Shift(sep, depth), outer, ms, w), Printed(Shift(member, depth), outer, mm, w);
      InterleavedSnoc(members, seps, ps, pm);
      members, seps := members + [pm], seps + [ps];
    }
  }

  lemma {:induction false} JoinedIsBalanced(style: Style, block: bool, groups: seq<seq<Tree>>, blanks: seq<bool>)
    requires |blanks| == |groups|
    ensures IsBalanced(Joined(style, block, groups, blanks))
    decreases |groups|
  {
    hide IsBalanced, MemberFlow, MemberSep;
    BalancedOne(BREAK);
    if groups != [] {
      var n := |groups| - 1;
      JoinedIsBalanced(style, block, groups[..n], blanks[..n]);
      MemberIsBalanced(style, groups[n]);
      BalancedAttached(None, Token(Whitespace, "", 0), block, blanks[n]);
      var sep := if n == 0 then [] else MemberSep(block, blanks[n]);
      BalancedConcat(sep, MemberFlow(style, groups[n]));
      BalancedConcat(Joined(style, block, groups[..n], blanks[..n]), sep + MemberFlow(style, groups[n]));
    }
  }

  lemma BreaksPrint(blank: bool, depth: int, outer: seq<Mode>, modes: seq<Mode>, w: nat)
    requires |modes| == |Breaks(blank)| && outer != []
    ensures IsLineBreak(Printed(Shift(Breaks(blank), depth), outer, modes, w), blank, depth, w)
  {
    SepPrints(true, blank, depth, outer, modes, w);
  }

  lemma PadPrints(pad: FlatText, depth: int, outer: seq<Mode>, modes: seq<Mode>, w: nat)
    requires |modes| == 1 && outer != []
    ensures Printed(Shift([Gap(Some(pad), false, 0)], depth), outer, modes, w)
         == if outer[|outer| - 1].Flat? then [Sep(pad)] else [Sep(Broken(false, depth, w))]
  {
    hide Printed, OpenGroups, Broken;
    assert Shift([Gap(Some(pad), false, 0)], depth) == [Gap(Some(pad), false, depth)] && modes == [modes[0]];
    PrintedOne(Gap(Some(pad), false, depth), outer, modes[0], w);
  }

  lemma WordPrints(s: string, depth: int, outer: seq<Mode>, modes: seq<Mode>, w: nat)
    requires |modes| == 1
    ensures Printed(Shift([Word(s)], depth), outer, modes, w) == [Leaf(s)]
  {
    hide Printed, OpenGroups;
    assert Shift([Word(s)], depth) == [Word(s)] && modes == [modes[0]];
    PrintedOne(Word(s), outer, modes[0], w);
  }

  /** The members of a list as pieces, and what stands in front of them, between them and behind them. */
  datatype ListPieces = ListPieces(lead: seq<Piece>, members: seq<seq<Piece>>, seps: seq<seq<Piece>>, trail: seq<Piece>)

  /** A list with these pieces. */
  predicate IsListed(ps: seq<Piece>, cfg: ListCfg, list: ListPieces) {
    && |list.members| == |list.seps| + 1
    && ps == [Leaf(cfg.open)] + list.lead + Interleaved(list.members, list.seps) + list.trail + [Leaf(cfg.close)]
  }

  lemma InnerPrints(style: Style, block: bool, cfg: ListCfg, lead: seq<Bit>, ts: seq<Tree>, trail: seq<Bit>, depth: int,
                    outer: seq<Mode>, modes: seq<Mode>, w: nat)
    returns (list: ListPieces, ml: seq<Mode>, mt: seq<Mode>)
    requires IsBalanced(lead) && IsBalanced(trail) && outer != [] && LastKept(ts).Some?
    requires |modes| == |[Word(cfg.open)] + Shift(lead + MembersFlow(style, block, ts), 1) + trail + [Word(cfg.close)]|
    ensures IsListed(Printed(Shift([Word(cfg.open)] + Shift(lead + MembersFlow(style, block, ts), 1) + trail + [Word(cfg.close)], depth),
                             outer, modes, w), cfg, list)
    ensures |ml| == |lead| && list.lead == Printed(Shift(lead, depth + 1), outer, ml, w)
    ensures |mt| == |trail| && list.trail == Printed(Shift(trail, depth), outer, mt, w)
    ensures |list.members| == |Groups(ts)| == |Blanks(ts)|
    ensures forall k :: 0 <= k < |Groups(ts)| ==> Prints(list.members[k], MemberFlow(style, Groups(ts)[k]), depth + 1, outer, w)
    ensures forall k :: 0 <= k < |list.seps| ==>
        SetsApart(list.seps[k], block, Blanks(ts)[k + 1], outer[|outer| - 1].Flat?, depth + 1, w)
  {
    hide Printed, Shift, IsBalanced, MemberFlow, SetsApart, Prints, MembersFlow, Groups, Blanks, LastKept, Joined, Interleaved;
    MembersAreJoined(style, block, ts);
    MembersAreBalanced(style, block, ts);
    var members := MembersFlow(style, block, ts);
    var open, inner, close := [Word(cfg.open)], Shift(lead + members, 1), [Word(cfg.close)];
    BalancedOne(Word(cfg.open));
    BalancedConcat(lead, members);
    BalancedShift(lead + members, 1);
    BalancedConcat(open, inner);
    BalancedConcat(open + inner, trail);
    var a, b := |open + inner|, |open + inner + trail|;
    var m1, m2 := modes[..b], modes[..b][..a];
    PrintedParts(open + inner + trail, close, depth, outer, modes, w);
    PrintedParts(open + inner, trail, depth, outer, m1, w);
    PrintedParts(open, inner, depth, outer, m2, w);
    WordPrints(cfg.open, depth, outer, m2[..1], w);
    WordPrints(cfg.close, depth, outer, modes[b..], w);
    ShiftTwice(lead + members, 1, depth);
    var mi := m2[1..];
    PrintedParts(lead, members, depth + 1, outer, mi, w);
    ml, mt := mi[..|lead|], m1[a..];
    var ms, seps := JoinedPrints(style, block, Groups(ts), Blanks(ts), depth + 1, outer, mi[|lead|..], w);
    list := ListPieces(Printed(Shift(lead, depth + 1), outer, ml, w), ms, seps, Printed(Shift(trail, depth), outer, mt, w));
    Regroup([Leaf(cfg.open)], list.lead, Interleaved(ms, seps));
  }

  /**
   A list with members, wherever it stands: its members are printed in order between its delimiters.
   If it must be a block, every member is on lines of its own, behind a blank line if there is one to
   keep, and no comma is printed between them. Otherwise its group decides: if it is flat, its members are on one line with commas between them,
   and if it is broken, they are on lines of their own without commas.
   */
  lemma ListIsPrinted(style: Style, kind: nat, ts: seq<Tree>, depth: int, outer: seq<Mode>, modes: seq<Mode>, w: nat)
    returns (list: ListPieces, flat: bool)
    requires LastKept(ts).Some? && |modes| == |ListFlow(style, kind, ts)| && outer != []
    ensures IsListed(Printed(Shift(ListFlow(style, kind, ts), depth), outer, modes, w), style.listCfg(kind), list)
    ensures |list.members| == |Groups(ts)| == |Blanks(ts)|
    ensures forall k :: 0 <= k < |Groups(ts)| ==>
        PrintsSomehow(list.members[k], MemberFlow(style, Groups(ts)[k]), depth + 1, w)
    ensures style.listCfg(kind).mode.Always? || HasSwallowing(ts) ==>
        && IsLineBreak(list.lead, style.preservesEdgeBlanks(kind) && LeadsWithBlank(ts), depth + 1, w)
        && IsLineBreak(list.trail, style.preservesEdgeBlanks(kind) && TrailsWithBlank(ts), depth, w)
        && forall k :: 0 <= k < |list.seps| ==> IsLineBreak(list.seps[k], Blanks(ts)[k + 1], depth + 1, w)
    ensures !(style.listCfg(kind).mode.Always? || HasSwallowing(ts)) && flat ==>
        && list.lead == [Sep(if style.listCfg(kind).open == "{" then " " else "")]
        && list.trail == [Sep(if style.listCfg(kind).open == "{" && style.listCfg(kind).closeStyle.Dedent? then " " else "")]
        && forall k :: 0 <= k < |list.seps| ==> list.seps[k] == [Sep(", ")]
    ensures !(style.listCfg(kind).mode.Always? || HasSwallowing(ts)) && !flat ==>
        && IsLineBreak(list.lead, false, depth + 1, w) && IsLineBreak(list.trail, false, depth, w)
        && forall k :: 0 <= k < |list.seps| ==> list.seps[k] == [Sep(Broken(false, depth + 1, w))]
  {
    hide Printed, OpenGroups, Shift, IsBalanced, MemberFlow, Prints, MembersFlow, Groups, Blanks, LastKept, HasSwallowing, Breaks, Interleaved, Broken,
         LeadsWithBlank, TrailsWithBlank;
    var cfg := style.listCfg(kind);
    if MustBeBlock(style, kind, ts) {
      var lead, trail := style.preservesEdgeBlanks(kind) && LeadsWithBlank(ts), style.preservesEdgeBlanks(kind) && TrailsWithBlank(ts);
      BalancedAttached(None, Token(Whitespace, "", 0), true, lead);
      BalancedAttached(None, Token(Whitespace, "", 0), true, trail);
      var ml, mt;
      list, ml, mt := InnerPrints(style, true, cfg, Breaks(lead), ts, Breaks(trail), depth, outer, modes, w);
      BreaksPrint(lead, depth + 1, outer, ml, w);
      BreaksPrint(trail, depth, outer, mt, w);
      flat := false;
    } else {
      var open, close := [Gap(Some(PadOf(cfg)), false, 0)], [Gap(Some(if cfg.closeStyle.Dedent? then PadOf(cfg) else ""), false, 0)];
      var inner := [Word(cfg.open)] + Shift(open + MembersFlow(style, false, ts), 1) + close + [Word(cfg.close)];
      BalancedOne(open[0]);
      BalancedOne(close[0]);
      MembersAreBalanced(style, false, ts);
      BalancedList(cfg, open, MembersFlow(style, false, ts), close);
      var n := |inner|;
      var m, mi := modes[0], modes[1..n + 1];
      GroupPrinted(inner, depth, outer, modes, w);
      var ml, mt;
      list, ml, mt := InnerPrints(style, false, cfg, open, ts, close, depth, outer + [m], mi, w);
      PadPrints(PadOf(cfg), depth + 1, outer + [m], ml, w);
      PadPrints(if cfg.closeStyle.Dedent? then PadOf(cfg) else "", depth, outer + [m], mt, w);
      flat := m.Flat?;
    }
  }

  /** A balanced group prints what is in it, in its own mode. */
  lemma GroupPrinted(inner: seq<Bit>, depth: int, outer: seq<Mode>, modes: seq<Mode>, w: nat)
    requires IsBalanced(inner) && |modes| == |inner| + 2
    ensures Printed(Shift([Enter] + inner + [Leave], depth), outer, modes, w)
         == Printed(Shift(inner, depth), outer + [modes[0]], modes[1..|inner| + 1], w)
  {
    hide Printed, OpenGroups, Shift, IsBalanced;
    var n := |inner|;
    var m, mi, l, s := modes[0], modes[1..n + 1], modes[n + 1], Shift(inner, depth);
    ShiftGroup(inner, depth);
    BalancedShift(inner, depth);
    BalancedAt(s, outer + [m], mi);
    PrintedOne(Enter, outer, m, w);
    PrintedOne(Leave, outer + [m], l, w);
    PrintedConcat([Enter], s, outer, [m], mi, w);
    PrintedConcat([Enter] + s, [Leave], outer, [m] + mi, [l], w);
    assert modes == [m] + mi + [l];
    assert [] + Printed(s, outer + [m], mi, w) + [] == Printed(s, outer + [m], mi, w);
  }

  // ---- Printed specifiers ---------------------------------------------------------------------------

  /** The children that begin the clauses of a specifier. */
  function ClausesOf(style: Style, kind: nat, ts: seq<Tree>): seq<Tree> {
    if ts == [] then
      []
    else
      var t := ts[|ts| - 1];
      ClausesOf(style, kind, ts[..|ts| - 1]) + if !IsTriviaToken(t) && StartsClause(style, kind, t) then [t] else []
  }

  /** Whether these pieces begin with what is printed of the bits. */
  ghost predicate BeginsWith(ps: seq<Piece>, bits: seq<Bit>, depth: int, w: nat) {
    exists n :: 0 <= n <= |ps| && PrintsSomehow(ps[..n], bits, depth, w)
  }

  lemma BeginsAndGoesOn(ps: seq<Piece>, more: seq<Piece>, bits: seq<Bit>, depth: int, w: nat)
    ensures PrintsSomehow(ps, bits, depth, w) ==> BeginsWith(ps, bits, depth, w)
    ensures BeginsWith(ps, bits, depth, w) ==> BeginsWith(ps + more, bits, depth, w)
  {
    hide PrintsSomehow;
    if PrintsSomehow(ps, bits, depth, w) {
      assert ps[..|ps|] == ps;
    }
    if BeginsWith(ps, bits, depth, w) {
      var n :| 0 <= n <= |ps| && PrintsSomehow(ps[..n], bits, depth, w);
      assert (ps + more)[..n] == ps[..n];
    }
  }

  /** Whether each clause begins with its own child. */
  ghost predicate AreClauses(clauses: seq<seq<Piece>>, style: Style, kind: nat, ts: seq<Tree>, depth: int, w: nat) {
    && |clauses| == |ClausesOf(style, kind, ts)|
    && forall k :: 0 <= k < |clauses| ==> BeginsWith(clauses[k], ChildFlow(style, kind, ClausesOf(style, kind, ts)[k]), depth, w)
  }

  /** Clauses, each behind a space if the specifier is on one line, and else on a continued line. */
  function Continued(clauses: seq<seq<Piece>>, flat: bool, depth: int, w: nat): seq<Piece> {
    if clauses == [] then
      []
    else
      Continued(clauses[..|clauses| - 1], flat, depth, w)
      + ([Sep(if flat then " " else " \\\n" + Spaces(Max0(depth) * w))] + clauses[|clauses| - 1])
  }

  lemma ContinuedSnoc(clauses: seq<seq<Piece>>, c: seq<Piece>, flat: bool, depth: int, w: nat)
    ensures Continued(clauses + [c], flat, depth, w)
         == Continued(clauses, flat, depth, w) + ([Sep(if flat then " " else " \\\n" + Spaces(Max0(depth) * w))] + c)
    ensures Continued([], flat, depth, w) == []
  {
    hide Spaces;
    assert (clauses + [c])[..|clauses|] == clauses;
  }

  lemma ContLinePrints(depth: int, outer: seq<Mode>, modes: seq<Mode>, w: nat)
    requires |modes| == 1 && outer != []
    ensures Printed(Shift([Gap(Some(" "), true, 0)], depth), outer, modes, w)
         == [Sep(if outer[|outer| - 1].Flat? then " " else " \\\n" + Spaces(Max0(depth) * w))]
  {
    hide Printed, OpenGroups, Spaces;
    assert Shift([Gap(Some(" "), true, 0)], depth) == [Gap(Some(" "), true, depth)] && modes == [modes[0]];
    PrintedOne(Gap(Some(" "), true, depth), outer, modes[0], w);
    assert " \\" + "\n" + Spaces(Max0(depth) * w) == " \\\n" + Spaces(Max0(depth) * w);
  }

  lemma SpecLast(style: Style, kind: nat, ts: seq<Tree>)
    requires ts != []
    ensures var init, t := ts[..|ts| - 1], ts[|ts| - 1];
            var n := if HasClause(style, kind, init) then 1 else 0;
            && (IsTriviaToken(t) ==> SpecRow(style, kind, ts) == SpecRow(style, kind, init) && !StartsClause(style, kind, t))
            && (!IsTriviaToken(t) && StartsClause(style, kind, t) ==>
                  SpecRow(style, kind, ts) == SpecRow(style, kind, init) + Shift([Gap(Some(" "), true, 0)] + ChildFlow(style, kind, t), 1))
            && (!IsTriviaToken(t) && !StartsClause(style, kind, t) ==>
                  SpecRow(style, kind, ts)
                  == SpecRow(style, kind, init)
                     + Shift(SepFlow(style, LastTokenIn(init), FirstToken(t)) + ChildFlow(style, kind, t), n))
            && ClausesOf(style, kind, ts)
               == ClausesOf(style, kind, init) + if !IsTriviaToken(t) && StartsClause(style, kind, t) then [t] else []
  {
    hide ChildFlow, SepFlow, LastTokenIn, FirstToken, Shift, HasClause;
    assert SpecRow(style, kind, ts[..|ts| - 1]) + [] == SpecRow(style, kind, ts[..|ts| - 1]);
  }

  /** A specifier prints its head, and its clauses each behind a space or on a continued line. */
  lemma {:induction false} SpecRowPrints(style: Style, kind: nat, ts: seq<Tree>, depth: int, outer: seq<Mode>, modes: seq<Mode>, w: nat)
    returns (head: seq<Piece>, clauses: seq<seq<Piece>>)
    requires |modes| == |SpecRow(style, kind, ts)| && outer != []
    ensures AreClauses(clauses, style, kind, ts, depth + 1, w)
    ensures Printed(Shift(SpecRow(style, kind, ts), depth), outer, modes, w)
         == head + Continued(clauses, outer[|outer| - 1].Flat?, depth + 1, w)
    decreases ts
  {
    hide Printed, Shift, IsBalanced, SpecRow, ChildFlow, SepFlow, LastTokenIn, FirstToken, StartsClause, HasClause, Continued, Spaces,
         ClausesOf, AreClauses, Prints, PrintsSomehow, BeginsWith;
    var flat := outer[|outer| - 1].Flat?;
    ContinuedSnoc([], [], flat, depth + 1, w);
    if ts == [] {
      NoRow(style, kind, depth, outer, w);
      assert modes == [];
      head, clauses := [], [];
      NoClauses(style, kind, ts, depth + 1, w);
      return;
    }
    var init, t := ts[..|ts| - 1], ts[|ts| - 1];
    SplitLast(ts);
    var row := SpecRow(style, kind, init);
    SpecLast(style, kind, ts);
    if IsTriviaToken(t) {
      head, clauses := SpecRowPrints(style, kind, init, depth, outer, modes, w);
      SameClauses(clauses, style, kind, init, ts, depth + 1, w);
      return;
    }
    var mi, ml := modes[..|row|], modes[|row|..];
    head, clauses := SpecRowPrints(style, kind, init, depth, outer, mi, w);
    SpecRowIsBalanced(style, kind, init);
    var child, gap := ChildFlow(style, kind, t), [Gap(Some(" "), true, 0)];
    if StartsClause(style, kind, t) {
      PrintedParts(row, Shift(gap + child, 1), depth, outer, modes, w);
      ShiftTwice(gap + child, 1, depth);
      BalancedOne(gap[0]);
      PrintedParts(gap, child, depth + 1, outer, ml, w);
      ContLinePrints(depth + 1, outer, ml[..1], w);
      var clause := Printed(Shift(child, depth + 1), outer, ml[1..], w);
      ContinuedSnoc(clauses, clause, flat, depth + 1, w);
      Regroup(head, Continued(clauses, flat, depth + 1, w),
              [Sep(if flat then " " else " \\\n" + Spaces(Max0(depth + 1) * w))] + clause);
      PrintsSome(child, depth + 1, outer, ml[1..], w);
      ClausesGrow(clauses, clause, style, kind, init, t, depth + 1, w);
      clauses := clauses + [clause];
    } else {
      var more := Shift(SepFlow(style, LastTokenIn(init), FirstToken(t)) + child, if HasClause(style, kind, init) then 1 else 0);
      PrintedParts(row, more, depth, outer, modes, w);
      var pieces := Printed(Shift(more, depth), outer, ml, w);
      if clauses == [] {
        assert head + [] + pieces == head + pieces + [];
        head := head + pieces;
      } else {
        LastClauseGrows(head, clauses, pieces, flat, depth + 1, w);
        LastClauseGoesOn(clauses, pieces, style, kind, init, depth + 1, w);
        clauses := clauses[..|clauses| - 1] + [clauses[|clauses| - 1] + pieces];
      }
      SameClauses(clauses, style, kind, init, ts, depth + 1, w);
    }
  }

  lemma NoClauses(style: Style, kind: nat, ts: seq<Tree>, depth: int, w: nat)
    requires ts == []
    ensures AreClauses([], style, kind, ts, depth, w)
  {
  }

  lemma SameClauses(clauses: seq<seq<Piece>>, style: Style, kind: nat, a: seq<Tree>, b: seq<Tree>, depth: int, w: nat)
    requires AreClauses(clauses, style, kind, a, depth, w) && ClausesOf(style, kind, b) == ClausesOf(style, kind, a) + []
    ensures AreClauses(clauses, style, kind, b, depth, w)
  {
    NothingMore(ClausesOf(style, kind, a));
  }

  lemma ClausesGrow(clauses: seq<seq<Piece>>, clause: seq<Piece>, style: Style, kind: nat, ts: seq<Tree>, t: Tree, depth: int, w: nat)
    requires AreClauses(clauses, style, kind, ts, depth, w) && PrintsSomehow(clause, ChildFlow(style, kind, t), depth, w)
    requires !IsTriviaToken(t) && StartsClause(style, kind, t)
    ensures AreClauses(clauses + [clause], style, kind, ts + [t], depth, w)
  {
    hide PrintsSomehow, ChildFlow, BeginsWith, StartsClause;
    BeginsAndGoesOn(clause, [], ChildFlow(style, kind, t), depth, w);
    assert (ts + [t])[..|ts|] == ts;
  }

  lemma LastClauseGoesOn(clauses: seq<seq<Piece>>, pieces: seq<Piece>, style: Style, kind: nat, ts: seq<Tree>, depth: int, w: nat)
    requires AreClauses(clauses, style, kind, ts, depth, w) && clauses != []
    ensures AreClauses(clauses[..|clauses| - 1] + [clauses[|clauses| - 1] + pieces], style, kind, ts, depth, w)
  {
    hide ChildFlow, BeginsWith, ClausesOf;
    var n := |clauses| - 1;
    BeginsAndGoesOn(clauses[n], pieces, ChildFlow(style, kind, ClausesOf(style, kind, ts)[n]), depth, w);
  }

  lemma LastClauseGrows(head: seq<Piece>, clauses: seq<seq<Piece>>, pieces: seq<Piece>, flat: bool, depth: int, w: nat)
    requires clauses != []
    ensures head + Continued(clauses, flat, depth, w) + pieces
         == head + Continued(clauses[..|clauses| - 1] + [clauses[|clauses| - 1] + pieces], flat, depth, w)
  {
    hide Spaces, Continued;
    var n := |clauses| - 1;
    SplitLast(clauses);
    ContinuedSnoc(clauses[..n], clauses[n], flat, depth, w);
    ContinuedSnoc(clauses[..n], clauses[n] + pieces, flat, depth, w);
    var sep := [Sep(if flat then " " else " \\\n" + Spaces(Max0(depth) * w))];
    RegroupFive(head, Continued(clauses[..n], flat, depth, w), sep, clauses[n], pieces);
  }

  lemma RegroupFive<T>(a: seq<T>, b: seq<T>, c: seq<T>, d: seq<T>, e: seq<T>)
    ensures a + (b + (c + d)) + e == a + (b + (c + (d + e)))
  {
  }

  lemma NoRow(style: Style, kind: nat, depth: int, outer: seq<Mode>, w: nat)
    ensures Printed(Shift(SpecRow(style, kind, []), depth), outer, [], w) == [] && SpecRow(style, kind, []) == []
    ensures ClausesOf(style, kind, []) == []
  {
  }

  /**
   A specifier with clauses, wherever it stands: it is on one line with its clauses set apart by
   spaces, or every clause is on a line of its own, indented, behind a continuation mark.
   */
  lemma SpecIsPrinted(style: Style, kind: nat, ts: seq<Tree>, depth: int, outer: seq<Mode>, modes: seq<Mode>, w: nat)
    returns (head: seq<Piece>, clauses: seq<seq<Piece>>, flat: bool)
    requires HasClause(style, kind, ts) && |modes| == |SpecFlow(style, kind, ts)|
    ensures |clauses| == |ClausesOf(style, kind, ts)|
    ensures forall k :: 0 <= k < |clauses| ==>
        BeginsWith(clauses[k], ChildFlow(style, kind, ClausesOf(style, kind, ts)[k]), depth + 1, w)
    ensures Printed(Shift(SpecFlow(style, kind, ts), depth), outer, modes, w) == head + Continued(clauses, flat, depth + 1, w)
  {
    hide Printed, Shift, IsBalanced, SpecRow, HasClause, Continued, ClausesOf, BeginsWith, ChildFlow;
    var row := SpecRow(style, kind, ts);
    SpecRowIsBalanced(style, kind, ts);
    GroupPrinted(row, depth, outer, modes, w);
    head, clauses := SpecRowPrints(style, kind, ts, depth, outer + [modes[0]], modes[1..|row| + 1], w);
    flat := modes[0].Flat?;
  }

  // ---- Printed choices ------------------------------------------------------------------------------

  /**
   A choice, wherever it stands: its head, its body on an indented line of its own between braces,
   and the closing brace below it.
   */
  lemma ChoiceIsPrinted(style: Style, ts: seq<Tree>, depth: int, outer: seq<Mode>, modes: seq<Mode>, w: nat)
    returns (head: seq<Piece>, body: seq<Piece>)
    requires |modes| == |ChoiceFlow(style, ts)| && outer != []
    ensures PrintsSomehow(head, ChoicePart(style, ts, false), depth, w) && PrintsSomehow(body, ChoicePart(style, ts, true), depth + 1, w)
    ensures Printed(Shift(ChoiceFlow(style, ts), depth), outer, modes, w)
         == head + [Leaf(" {")] + ([Sep(Broken(false, depth + 1, w))] + body) + [Sep(Broken(false, depth, w))] + [Leaf("}")]
  {
    hide Printed, Shift, IsBalanced, ChoicePart, OpenGroups, Broken, Prints;
    var a, b := ChoicePart(style, ts, false), ChoicePart(style, ts, true);
    var group := [Enter] + b + [Leave];
    var block := Shift([BREAK] + group, 1);
    PartIsBalanced(style, ts, false);
    PartIsBalanced(style, ts, true);
    BalancedOne(Word(" {"));
    BalancedOne(BREAK);
    BalancedGroup(b);
    BalancedConcat([BREAK], group);
    BalancedShift([BREAK] + group, 1);
    BalancedConcat(a, [Word(" {")]);
    BalancedConcat(a + [Word(" {")], block);
    BalancedConcat(a + [Word(" {")] + block, [BREAK]);
    var n, k := |a|, |block|;
    var m3 := modes[..n + 1 + k + 1];
    var m2 := m3[..n + 1 + k];
    var m1 := m2[..n + 1];
    PrintedParts(a + [Word(" {")] + block + [BREAK], [Word("}")], depth, outer, modes, w);
    PrintedParts(a + [Word(" {")] + block, [BREAK], depth, outer, m3, w);
    PrintedParts(a + [Word(" {")], block, depth, outer, m2, w);
    PrintedParts(a, [Word(" {")], depth, outer, m1, w);
    WordPrints("}", depth, outer, modes[n + 1 + k + 1..], w);
    WordPrints(" {", depth, outer, m1[n..], w);
    BreakPrints(depth, outer, m3[n + 1 + k..], w);
    ShiftTwice([BREAK] + group, 1, depth);
    var mb := m2[n + 1..];
    PrintedParts([BREAK], group, depth + 1, outer, mb, w);
    BreakPrints(depth + 1, outer, mb[..1], w);
    GroupPrinted(b, depth + 1, outer, mb[1..], w);
    head := Printed(Shift(a, depth), outer, m1[..n], w);
    body := Printed(Shift(b, depth + 1), outer + [mb[1]], mb[1..][1..|b| + 1], w);
    PrintsSome(a, depth, outer, m1[..n], w);
    PrintsSome(b, depth + 1, outer + [mb[1]], mb[1..][1..|b| + 1], w);
  }

  lemma BreakPrints(depth: int, outer: seq<Mode>, modes: seq<Mode>, w: nat)
    requires |modes| == 1 && outer != []
    ensures Printed(Shift([BREAK], depth), outer, modes, w) == [Sep(Broken(false, depth, w))]
  {
    BreaksPrint(false, depth, outer, modes, w);
  }
}
