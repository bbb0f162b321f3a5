/** No two words of the output run together (fpp_format/src/formatter.rs:611-678). */
module SpaceLaws {
  import opened Wrappers
  import opened Docs
  import opened Flows
  import opened Lowering
  import opened Spacings
  import opened TreeFlows
  import opened FormatLaws

  // ---- Bits in a row --------------------------------------------------------------------------

  /** The text at the end of the line after one more bit, unless there is a blank behind it. */
  function NextText(b: Bit, prev: Option<string>): Option<string> {
    match b
    case Word(s) => if s == "" then prev else if IsBlank(s) then None else Some(s)
    case Gap(flat, _, _) => if flat == Some("") then prev else None
    case _ => prev
  }

  function LastText(bits: seq<Bit>, prev: Option<string>): Option<string> {
    if bits == [] then prev else NextText(bits[|bits| - 1], LastText(bits[..|bits| - 1], prev))
  }

  predicate IsApartFrom(b: Bit, prev: Option<string>) {
    b.Word? && !IsBlank(b.s) && prev.Some? ==> !Clings(prev.value, b.s)
  }

  /** Whether no text clings to the one before it. */
  predicate KeepsApart(bits: seq<Bit>, prev: Option<string>) {
    bits != [] ==>
      KeepsApart(bits[..|bits| - 1], prev) && IsApartFrom(bits[|bits| - 1], LastText(bits[..|bits| - 1], prev))
  }

  lemma {:induction false} ApartConcat(a: seq<Bit>, b: seq<Bit>, prev: Option<string>)
    ensures LastText(a + b, prev) == LastText(b, LastText(a, prev))
    ensures KeepsApart(a + b, prev) <==> KeepsApart(a, prev) && KeepsApart(b, LastText(a, prev))
    decreases |b|
  {
    hide NextText, IsApartFrom;
    if b == [] {
      assert a + b == a;
    } else {
      var n := |b| - 1;
      assert (a + b)[..|a + b| - 1] == a + b[..n];
      ApartConcat(a, b[..n], prev);
    }
  }

  lemma {:induction false} ApartShift(a: seq<Bit>, n: int, prev: Option<string>)
    ensures LastText(Shift(a, n), prev) == LastText(a, prev)
    ensures KeepsApart(Shift(a, n), prev) <==> KeepsApart(a, prev)
  {
    hide Clings, IsBlank;
    if a != [] {
      ApartShift(a[..|a| - 1], n, prev);
      assert Shift(a, n)[..|a| - 1] == Shift(a[..|a| - 1], n);
    }
  }

  lemma OneApart(b: Bit, prev: Option<string>)
    ensures LastText([b], prev) == NextText(b, prev) && (KeepsApart([b], prev) <==> IsApartFrom(b, prev))
    ensures LastText([], prev) == prev && KeepsApart([], prev)
  {
    hide NextText, IsApartFrom;
    assert [b][..0] == [];
  }

  /** A text to which nothing clings, and which clings to nothing. */
  predicate IsNeutral(s: string) {
    s != "" && !IsWordChar(s[0]) && s[0] != '.' && !IsWordChar(s[|s| - 1])
  }

  lemma NeutralWord(s: string, prev: Option<string>)
    requires IsNeutral(s)
    ensures IsApartFrom(Word(s), prev)
    ensures NextText(Word(s), prev) == None || NextText(Word(s), prev) == Some(s)
    ensures forall t :: !Clings(s, t)
  {
    assert !IsDecimal(s);
  }

  // ---- Trees ------------------------------------------------------------------------------------

  ghost predicate IsSpelledToken(t: Option<Tree>) {
    t.Some? ==> t.value.Token? && !IsTrivia(t.value.tokenKind) && IsSpelled(t.value.tokenKind, t.value.text) && !IsBlank(t.value.text)
  }

  ghost predicate MayFollow(prev: Option<string>, first: Option<Tree>) {
    prev.Some? && first.Some? && first.value.Token? ==> !Clings(prev.value, first.value.text)
  }

  /** What is at the end of the line after bits whose last token is `last`. */
  ghost predicate EndsWith(text: Option<string>, last: Option<Tree>, prev: Option<string>) {
    text.None? || IsNeutral(text.value) || (if last.Some? then last.value.Token? && text.value == last.value.text else text == prev)
  }

  /** Bits that keep their texts apart, from the first token to the last. */
  ghost predicate IsApart(bits: seq<Bit>, first: Option<Tree>, last: Option<Tree>) {
    forall prev :: MayFollow(prev, first) ==> KeepsApart(bits, prev) && EndsWith(LastText(bits, prev), last, prev)
  }

  function Earlier(a: Option<Tree>, b: Option<Tree>): Option<Tree> {
    if a.Some? then a else b
  }

  lemma ApartAt(bits: seq<Bit>, first: Option<Tree>, last: Option<Tree>, prev: Option<string>)
    requires IsApart(bits, first, last) && MayFollow(prev, first)
    ensures KeepsApart(bits, prev) && EndsWith(LastText(bits, prev), last, prev)
  {
  }

  /** The separator leaves room for the next token. */
  lemma SepMakesRoom(style: Style, prev: Option<Tree>, cur: Option<Tree>, text: Option<string>)
    requires IsStyle(style) && IsSpacing(style) && IsSpelledToken(prev) && IsSpelledToken(cur) && prev.Some? && cur.Some?
    requires text.None? || IsNeutral(text.value) || text.value == prev.value.text
    ensures KeepsApart(SepFlow(style, prev, cur), text) && MayFollow(LastText(SepFlow(style, prev, cur), text), cur)
  {
    hide KeepsApart, LastText, Clings, IsSpelled;
    OneApart(BREAK, text);
    OneApart(Word(style.flatSep(prev.value, cur.value)), text);
    assert IsBlank(style.flatSep(prev.value, cur.value));
    if text.Some? && IsNeutral(text.value) {
      NeutralWord(text.value, None);
    }
  }

  lemma ApartMore(style: Style, bits: seq<Bit>, first: Option<Tree>, prev: Option<Tree>, more: seq<Bit>, cur: Option<Tree>,
                  last: Option<Tree>)
    requires IsStyle(style) && IsSpacing(style) && IsApart(bits, first, prev) && IsApart(more, cur, last)
    requires (first.None? <==> prev.None?) && (cur.None? <==> last.None?) && IsSpelledToken(prev) && IsSpelledToken(cur)
    ensures IsApart(bits + (SepFlow(style, prev, cur) + more), Earlier(first, cur), Later(prev, last))
  {
    hide KeepsApart, LastText, IsApart, IsStyle, IsSpacing, IsSpelledToken, SepFlow, IsNeutral;
    forall text | MayFollow(text, Earlier(first, cur))
      ensures var all := bits + (SepFlow(style, prev, cur) + more);
              KeepsApart(all, text) && EndsWith(LastText(all, text), Later(prev, last), text)
    {
      ApartMoreAt(style, bits, first, prev, more, cur, last, text);
    }
    MeansApart(bits + (SepFlow(style, prev, cur) + more), Earlier(first, cur), Later(prev, last));
  }

  lemma MeansApart(bits: seq<Bit>, first: Option<Tree>, last: Option<Tree>)
    requires forall prev :: MayFollow(prev, first) ==> KeepsApart(bits, prev) && EndsWith(LastText(bits, prev), last, prev)
    ensures IsApart(bits, first, last)
  {
  }

  lemma ApartMoreAt(style: Style, bits: seq<Bit>, first: Option<Tree>, prev: Option<Tree>, more: seq<Bit>, cur: Option<Tree>,
                    last: Option<Tree>, text: Option<string>)
    requires IsStyle(style) && IsSpacing(style) && IsApart(bits, first, prev) && IsApart(more, cur, last)
    requires (first.None? <==> prev.None?) && (cur.None? <==> last.None?) && IsSpelledToken(prev) && IsSpelledToken(cur)
    requires MayFollow(text, Earlier(first, cur))
    ensures var all := bits + (SepFlow(style, prev, cur) + more);
            KeepsApart(all, text) && EndsWith(LastText(all, text), Later(prev, last), text)
  {
    hide KeepsApart, LastText, IsApart, IsStyle, IsSpacing, IsNeutral, Clings, IsSpelled, IsBlank;
    var sep := SepFlow(style, prev, cur);
    ApartAt(bits, first, prev, text);
    var t1 := LastText(bits, text);
    var t2 := LastText(sep, t1);
    OneApart(BREAK, t1);
    if prev.Some? && cur.Some? {
      SepMakesRoom(style, prev, cur, t1);
    } else if IsFree(t1) {
      FreeFollows(t1, cur);
    }
    ApartAt(more, cur, last, t2);
    ApartConcat(sep, more, t1);
    ApartConcat(bits, sep + more, text);
  }

  lemma ShiftedEndApart(a: seq<Bit>, b: seq<Bit>, n: int, first: Option<Tree>, last: Option<Tree>)
    requires IsApart(a + b, first, last)
    ensures IsApart(a + Shift(b, n), first, last)
  {
    hide KeepsApart, LastText, Shift, EndsWith, MayFollow;
    forall prev: Option<string>
      ensures KeepsApart(a + Shift(b, n), prev) == KeepsApart(a + b, prev) && LastText(a + Shift(b, n), prev) == LastText(a + b, prev)
    {
      ApartConcat(a, b, prev);
      ApartConcat(a, Shift(b, n), prev);
      ApartShift(b, n, LastText(a, prev));
    }
  }

  lemma GroupTexts(bits: seq<Bit>, prev: Option<string>)
    ensures KeepsApart([Enter] + bits + [Leave], prev) == KeepsApart(bits, prev)
    ensures LastText([Enter] + bits + [Leave], prev) == LastText(bits, prev)
  {
    hide KeepsApart, LastText;
    OneApart(Enter, prev);
    OneApart(Leave, LastText(bits, prev));
    ApartConcat([Enter], bits, prev);
    ApartConcat([Enter] + bits, [Leave], prev);
  }

  lemma ApartGroup(bits: seq<Bit>, first: Option<Tree>, last: Option<Tree>)
    requires IsApart(bits, first, last)
    ensures IsApart([Enter] + bits + [Leave], first, last)
  {
    hide KeepsApart, LastText, EndsWith, MayFollow;
    forall prev: Option<string>
      ensures KeepsApart([Enter] + bits + [Leave], prev) == KeepsApart(bits, prev)
              && LastText([Enter] + bits + [Leave], prev) == LastText(bits, prev)
    {
      GroupTexts(bits, prev);
    }
  }

  lemma NoBitsApart(first: Option<Tree>)
    ensures IsApart([], first, None)
  {
  }

  // ---- Tokens -------------------------------------------------------------------------------------

  /** The first and last tokens of formed trees are spelled as their kinds say. */
  lemma {:induction false} EndsAreSpelled(style: Style, t: Tree)
    requires IsFormed(style, t)
    ensures IsSpelledToken(FirstToken(t)) && IsSpelledToken(LastToken(t)) && (FirstToken(t).None? <==> LastToken(t).None?)
    decreases t, 0
  {
    hide IsSpelled, IsDelimited, IsBraced;
    if t.Node? {
      EndsAreSpelledIn(style, t.children);
    }
  }

  lemma {:induction false} EndsAreSpelledIn(style: Style, ts: seq<Tree>)
    requires AreFormed(style, ts)
    ensures IsSpelledToken(FirstTokenIn(ts)) && IsSpelledToken(LastTokenIn(ts)) && (FirstTokenIn(ts).None? <==> LastTokenIn(ts).None?)
    decreases ts
  {
    hide IsFormed, IsSpelledToken, FirstToken, LastToken;
    if ts == [] {
      NoneSpelled();
    } else {
      EndsAreSpelledIn(style, ts[..|ts| - 1]);
      EndsAreSpelled(style, ts[|ts| - 1]);
    }
  }

  lemma NoneSpelled()
    ensures IsSpelledToken(None)
  {
  }

  lemma TokenIsApart(style: Style, parent: nat, t: Tree)
    requires t.Token? && !IsTrivia(t.tokenKind) && IsLexed(t.tokenKind, t.text)
    ensures IsApart(TokenFlow(style, parent, t), Some(t), Some(t)) && IsApart([Word(t.text)], Some(t), Some(t))
  {
    hide KeepsApart, LastText, Clings, IsSpelled;
    forall prev: Option<string> | MayFollow(prev, Some(t))
      ensures KeepsApart(TokenFlow(style, parent, t), prev) && LastText(TokenFlow(style, parent, t), prev) == Some(t.text)
      ensures KeepsApart([Word(t.text)], prev) && LastText([Word(t.text)], prev) == Some(t.text)
    {
      OneApart(Word(t.text), prev);
      var anchor := style.anchor(parent, t.tokenKind);
      if anchor.Some? {
        OneApart(Mark(anchor.value, 0), prev);
        ApartConcat([Mark(anchor.value, 0)], [Word(t.text)], prev);
      } else {
        assert [] + [Word(t.text)] == [Word(t.text)];
      }
    }
  }

  // ---- Nodes ----------------------------------------------------------------------------------------

  lemma {:induction false} ChildIsApart(style: Style, parent: nat, t: Tree)
    requires IsStyle(style) && IsSpacing(style) && IsFormed(style, t) && !IsTriviaToken(t)
    ensures IsApart(ChildFlow(style, parent, t), FirstToken(t), LastToken(t))
    ensures IsApart(PlainFlow(style, t), FirstToken(t), LastToken(t))
    decreases t, 1
  {
    hide FlowOf, TokenFlow, IsApart, IsLexed, IsSpacing;
    if t.Token? {
      TokenIsApart(style, parent, t);
    } else {
      NodeIsApart(style, t);
    }
  }

  /** What is printed of a node keeps its texts apart. */
  lemma {:induction false} NodeIsApart(style: Style, n: Tree)
    requires IsStyle(style) && IsSpacing(style) && n.Node? && IsFormed(style, n)
    ensures IsApart(FlowOf(style, n), FirstToken(n), LastToken(n))
    decreases n, 0
  {
    hide IsApart, IsSpacing, ListFlow, ChoiceFlow, SpecFlow, RowFlow, IsDelimited, IsBraced, IsOnClearLine, AreFormed, AreTidy,
         LastTokenIn, FirstTokenIn, AreClosed;
    FormedParts(style, n);
    if style.isMemberList(n.kind) {
      ListIsApart(style, n.kind, n.children);
    } else if style.isChoice(n.kind) {
      ChoiceIsApart(style, n.children);
    } else if style.isExplodable(n.kind) {
      SpecIsApart(style, n.kind, n.children);
    } else {
      RowIsApart(style, n.kind, n.children);
    }
  }

  lemma CommaIsApart(bits: seq<Bit>, first: Option<Tree>, last: Option<Tree>)
    requires IsApart(bits, first, last)
    ensures IsApart(bits + [Word(",")], first, last)
  {
    hide KeepsApart, LastText, MayFollow;
    forall prev: Option<string> | MayFollow(prev, first)
      ensures KeepsApart(bits + [Word(",")], prev) && EndsWith(LastText(bits + [Word(",")], prev), last, prev)
    {
      var text := LastText(bits, prev);
      NeutralWord(",", text);
      OneApart(Word(","), text);
      ApartConcat(bits, [Word(",")], prev);
    }
  }

  lemma {:induction false} RowIsApart(style: Style, kind: nat, ts: seq<Tree>)
    requires IsStyle(style) && IsSpacing(style) && AreFormed(style, ts)
    ensures IsApart(RowFlow(style, kind, ts), FirstTokenIn(ts), LastTokenIn(ts))
    decreases ts, 0
  {
    hide IsApart, IsSpacing, FlowOf, ChildFlow, SepFlow, IsFormed, LastToken, FirstToken, IsSpelledToken, IsStyle;
    if ts == [] {
      NoBitsApart(None);
    } else {
      var init, t := ts[..|ts| - 1], ts[|ts| - 1];
      assert ts == init + [t];
      RowIsApart(style, kind, init);
      TokensSnoc(init, t);
      if IsTriviaToken(t) {
        OwnToken(t);
        RowOfTrivia(style, kind, ts);
      } else {
        ChildIsApart(style, kind, t);
        EndsAreSpelled(style, t);
        EndsAreSpelledIn(style, init);
        ApartMore(style, RowFlow(style, kind, init), FirstTokenIn(init), LastTokenIn(init), ChildFlow(style, kind, t), FirstToken(t),
                  LastToken(t));
        RowOfChild(style, kind, ts);
        if t.Node? && style.isEolSeparated(t.at) {
          CommaIsApart(RowFlow(style, kind, init) + (SepFlow(style, LastTokenIn(init), FirstToken(t)) + ChildFlow(style, kind, t)),
                       FirstTokenIn(ts), LastTokenIn(ts));
        }
      }
    }
  }

  /** A clause behind a continued line. */
  lemma ClauseIsApart(bits: seq<Bit>, first: Option<Tree>, prev: Option<Tree>, more: seq<Bit>, cur: Option<Tree>, last: Option<Tree>)
    requires IsApart(bits, first, prev) && IsApart(more, cur, last) && (first.None? <==> prev.None?)
    ensures IsApart(bits + ([CONT_LINE] + more), Earlier(first, cur), Later(prev, last))
  {
    hide KeepsApart, LastText, IsApart, IsNeutral, Clings;
    forall text | MayFollow(text, Earlier(first, cur))
      ensures var all := bits + ([CONT_LINE] + more);
              KeepsApart(all, text) && EndsWith(LastText(all, text), Later(prev, last), text)
    {
      ApartAt(bits, first, prev, text);
      OneApart(CONT_LINE, LastText(bits, text));
      ApartAt(more, cur, last, None);
      ApartConcat([CONT_LINE], more, LastText(bits, text));
      ApartConcat(bits, [CONT_LINE] + more, text);
    }
    MeansApart(bits + ([CONT_LINE] + more), Earlier(first, cur), Later(prev, last));
  }

  lemma {:induction false} SpecRowIsApart(style: Style, kind: nat, ts: seq<Tree>)
    requires IsStyle(style) && IsSpacing(style) && AreFormed(style, ts)
    ensures IsApart(SpecRow(style, kind, ts), FirstTokenIn(ts), LastTokenIn(ts))
    decreases ts, 0
  {
    hide IsApart, IsSpacing, FlowOf, ChildFlow, SepFlow, IsFormed, LastToken, FirstToken, IsSpelledToken, IsStyle, StartsClause,
         HasClause, Shift;
    if ts == [] {
      NoBitsApart(None);
    } else {
      var init, t := ts[..|ts| - 1], ts[|ts| - 1];
      assert ts == init + [t];
      var row, first, prev := SpecRow(style, kind, init), FirstTokenIn(init), LastTokenIn(init);
      SpecRowIsApart(style, kind, init);
      TokensSnoc(init, t);
      if IsTriviaToken(t) {
        OwnToken(t);
        assert row + [] == row;
      } else {
        var more := ChildFlow(style, kind, t);
        ChildIsApart(style, kind, t);
        EndsAreSpelled(style, t);
        EndsAreSpelledIn(style, init);
        if StartsClause(style, kind, t) {
          ClauseIsApart(row, first, prev, more, FirstToken(t), LastToken(t));
          ShiftedEndApart(row, [CONT_LINE] + more, 1, FirstTokenIn(ts), LastTokenIn(ts));
        } else {
          ApartMore(style, row, first, prev, more, FirstToken(t), LastToken(t));
          ShiftedEndApart(row, SepFlow(style, prev, FirstToken(t)) + more, if HasClause(style, kind, init) then 1 else 0,
                          FirstTokenIn(ts), LastTokenIn(ts));
        }
      }
    }
  }

  lemma SpecIsApart(style: Style, kind: nat, ts: seq<Tree>)
    requires IsStyle(style) && IsSpacing(style) && AreFormed(style, ts)
    ensures IsApart(SpecFlow(style, kind, ts), FirstTokenIn(ts), LastTokenIn(ts))
    decreases ts, 1
  {
    hide IsApart, SpecRow, LastTokenIn, FirstTokenIn, HasClause, IsSpacing, IsStyle, AreFormed;
    SpecRowIsApart(style, kind, ts);
    ApartGroup(SpecRow(style, kind, ts), FirstTokenIn(ts), LastTokenIn(ts));
  }

  // ---- Choices ----------------------------------------------------------------------------------------

  /** Both parts of a choice keep their texts apart, up to some child. */
  lemma {:induction false} PartsAreApart(style: Style, all: seq<Tree>, i: nat, j: nat, k: nat)
    requires IsStyle(style) && IsSpacing(style) && AreFormed(style, all) && IsBraced(all, i, j) && k <= |all|
    ensures HasLeftCurly(all[..k]) <==> i < k
    ensures PrevInChoice(all[..k]) == LastTokenIn(if k <= i then all[..k] else all[i + 1..Inside(i, j, k)])
    ensures var row := all[..Before(i, k)]; IsApart(ChoicePart(style, all[..k], false), FirstTokenIn(row), LastTokenIn(row))
    ensures var row := all[i + 1..Inside(i, j, k)]; IsApart(ChoicePart(style, all[..k], true), FirstTokenIn(row), LastTokenIn(row))
    decreases all, 0, k
  {
    hide IsApart, IsSpacing, IsStyle, ChoicePart, PlainFlow, SepFlow, IsFormed, AreFormed, LastToken, FirstToken, LastTokenIn, FirstTokenIn,
         IsBraced, HasLeftCurly, PrevInChoice, IsSpelledToken;
    BracedBounds(all, i, j);
    NoBitsApart(None);
    if k == 0 {
      CurlyLast([], all[0]);
      PartLast(style, [], all[0], false);
      PartLast(style, [], all[0], true);
      TokensSnoc([], all[0]);
      assert all[..0] == [] && all[i + 1..i + 1] == [];
    } else {
      var init, t := all[..k - 1], all[k - 1];
      PartsAreApart(style, all, i, j, k - 1);
      BracedAt(all, i, j, k - 1);
      assert all[..k] == init + [t];
      CurlyLast(init, t);
      PartLast(style, init, t, false);
      PartLast(style, init, t, true);
      FormedAt(style, all, k - 1);
      var from := if k - 1 < i then 0 else i + 1;
      if k - 1 < i || i < k - 1 < j {
        var row := all[from..k - 1];
        assert all[from..k] == row + [t];
        TokensSnoc(row, t);
        if IsTriviaToken(t) {
          OwnToken(t);
        } else {
          ChildIsApart(style, 0, t);
          EndsAreSpelled(style, t);
          FormedSlice(style, all, from, k - 1);
          EndsAreSpelledIn(style, row);
          ApartMore(style, ChoicePart(style, init, i < k - 1), FirstTokenIn(row), LastTokenIn(row), PlainFlow(style, t), FirstToken(t),
                    LastToken(t));
        }
      } else if k - 1 == i {
        TokensSnoc([], t);
        assert all[i + 1..i + 1] == [];
      } else {
        if j < k - 1 {
          OwnToken(t);
        }
      }
    }
  }

  lemma {:induction false} FormedSlice(style: Style, ts: seq<Tree>, i: nat, j: nat)
    requires AreFormed(style, ts) && i <= j <= |ts|
    ensures AreFormed(style, ts[i..j])
    decreases |ts|, j
  {
    hide IsFormed;
    if j < |ts| {
      FormedSlice(style, ts[..|ts| - 1], i, j);
      assert ts[..|ts| - 1][i..j] == ts[i..j];
    } else if i < j {
      FormedSlice(style, ts[..|ts| - 1], i, j - 1);
      assert ts[i..j][..j - i - 1] == ts[..|ts| - 1][i..j - 1] && ts[i..j][j - i - 1] == ts[|ts| - 1];
    }
  }

  lemma {:induction false} FirstIsFirst(ts: seq<Tree>, i: nat)
    requires i <= |ts| && FirstTokenIn(ts[..i]).Some?
    ensures FirstTokenIn(ts) == FirstTokenIn(ts[..i])
    decreases |ts|
  {
    hide FirstToken;
    if i < |ts| {
      assert ts[..|ts| - 1][..i] == ts[..i];
      FirstIsFirst(ts[..|ts| - 1], i);
    } else {
      assert ts[..i] == ts;
    }
  }

  lemma ChoiceIsApart(style: Style, ts: seq<Tree>)
    requires IsStyle(style) && IsSpacing(style) && AreFormed(style, ts) && exists i, j :: IsBraced(ts, i, j)
    ensures IsApart(ChoiceFlow(style, ts), FirstTokenIn(ts), LastTokenIn(ts))
    decreases ts, 1
  {
    hide IsBraced, ChoicePart, LastTokenIn, FirstTokenIn, AreFormed, IsApart, KeepsApart, LastText, Shift, IsSpacing, IsStyle;
    var i: nat, j: nat :| IsBraced(ts, i, j);
    BracedBounds(ts, i, j);
    PartsAreApart(style, ts, i, j, |ts|);
    assert ts[..|ts|] == ts;
    var head, body := ChoicePart(style, ts, false), ChoicePart(style, ts, true);
    forall prev | MayFollow(prev, FirstTokenIn(ts))
      ensures KeepsApart(ChoiceFlow(style, ts), prev) && EndsWith(LastText(ChoiceFlow(style, ts), prev), LastTokenIn(ts), prev)
    {
      if FirstTokenIn(ts[..i]).Some? {
        FirstIsFirst(ts, i);
      }
      ApartAt(head, FirstTokenIn(ts[..i]), LastTokenIn(ts[..i]), prev);
      ApartAt(body, FirstTokenIn(ts[i + 1..j]), LastTokenIn(ts[i + 1..j]), None);
      BracesApart(head, body, prev);
    }
    MeansApart(ChoiceFlow(style, ts), FirstTokenIn(ts), LastTokenIn(ts));
  }

  lemma BracesApart(head: seq<Bit>, body: seq<Bit>, prev: Option<string>)
    requires KeepsApart(head, prev) && KeepsApart(body, None)
    ensures var all := head + [Word(" {")] + Shift([BREAK] + ([Enter] + body + [Leave]), 1) + [BREAK] + [Word("}")];
            KeepsApart(all, prev) && LastText(all, prev).Some? && IsNeutral(LastText(all, prev).value)
  {
    hide KeepsApart, LastText, Shift;
    var inner := [BREAK] + ([Enter] + body + [Leave]);
    var t1 := LastText(head, prev);
    BraceTexts(t1);
    var t2 := NextText(Word(" {"), t1);
    OneApart(Word(" {"), t1);
    ApartConcat(head, [Word(" {")], prev);
    ApartShift(inner, 1, t2);
    OneApart(BREAK, t2);
    GroupTexts(body, None);
    ApartConcat([BREAK], [Enter] + body + [Leave], t2);
    ApartConcat(head + [Word(" {")], Shift(inner, 1), prev);
    var t3 := LastText(head + [Word(" {")] + Shift(inner, 1), prev);
    OneApart(BREAK, t3);
    ApartConcat(head + [Word(" {")] + Shift(inner, 1), [BREAK], prev);
    OneApart(Word("}"), None);
    ApartConcat(head + [Word(" {")] + Shift(inner, 1) + [BREAK], [Word("}")], prev);
  }

  lemma BraceTexts(prev: Option<string>)
    ensures IsApartFrom(Word(" {"), prev) && IsApartFrom(Word("}"), None)
    ensures NextText(Word("}"), None) == Some("}") && IsNeutral("}")
  {
    NeutralWord(" {", prev);
    assert "}"[0] == '}' && !IsBlank("}");
  }

  // ---- Member lists -------------------------------------------------------------------------------------

  predicate IsFree(text: Option<string>) {
    text.None? || IsNeutral(text.value)
  }

  lemma FreeFollows(text: Option<string>, first: Option<Tree>)
    requires IsFree(text)
    ensures MayFollow(text, first)
  {
    hide Clings;
    if text.Some? {
      NeutralWord(text.value, None);
    }
  }

  lemma SepFrees(block: bool, blank: bool, prev: Option<string>)
    ensures KeepsApart(MemberSep(block, blank), prev) && LastText(MemberSep(block, blank), prev) == None
  {
    hide KeepsApart, LastText;
    OneApart(BREAK, prev);
    OneApart(BREAK, None);
    OneApart(Gap(Some(", "), false, 0), prev);
    ApartConcat([BREAK], [BREAK], prev);
    assert [BREAK] + [BREAK] == [BREAK, BREAK];
  }

  lemma AttachedIsApart(last: Option<Tree>, t: Tree, prev: Option<string>)
    requires t.Token?
    ensures KeepsApart(AttachedFlow(last, t), prev)
  {
    hide KeepsApart, LastText, Clings;
    var gap := if t.tokenKind.PostAnnotation? then "  " else " ";
    var sep := if last.Some? && IsSwallowing(last.value) then BREAK else Word(gap);
    var note := if t.tokenKind.PostAnnotation? then [Mark(AnchorKind.PostAnnotation, 0)] else [];
    assert IsBlank(gap);
    OneApart(sep, prev);
    OneApart(Mark(AnchorKind.PostAnnotation, 0), None);
    OneApart(Word(t.text), None);
    ApartConcat([sep], note, prev);
    ApartConcat([sep] + note, [Word(t.text)], prev);
  }

  /** Members keep their texts apart behind a delimiter or a blank. */
  lemma {:induction false} MembersAreApart(style: Style, block: bool, ts: seq<Tree>, prev: Option<string>)
    requires IsStyle(style) && IsSpacing(style) && AreFormed(style, ts) && IsFree(prev)
    ensures KeepsApart(MembersFlow(style, block, ts), prev)
    ensures LastKept(ts).None? ==> MembersFlow(style, block, ts) == []
    decreases ts, 0
  {
    hide KeepsApart, LastText, MembersFlow, PlainFlow, AttachedFlow, MemberSep, HasBlank, KeptTokens, LastKept, IsFormed, AreFormed,
         IsSpacing, IsStyle, IsApart, StartsMember;
    OneApart(BREAK, prev);
    if ts == [] {
      MemberLast(style, block, [], Token(Whitespace, "", 0));
      return;
    }
    var init, t := ts[..|ts| - 1], ts[|ts| - 1];
    assert ts == init + [t];
    FormedLast(style, init, t);
    MembersAreApart(style, block, init, prev);
    MemberLast(style, block, init, t);
    MustStart(init, t);
    var before := MembersFlow(style, block, init);
    var text := LastText(before, prev);
    if IsKept(t) {
      if StartsMember(init, t) {
        var sep := if LastKept(init).None? then [] else MemberSep(block, HasBlank(init));
        SepFrees(block, HasBlank(init), text);
        OneApart(BREAK, text);
        var text' := LastText(sep, text);
        FreeFollows(text', FirstToken(t));
        ChildIsApart(style, 0, t);
        ApartAt(PlainFlow(style, t), FirstToken(t), LastToken(t), text');
        ApartConcat(sep, PlainFlow(style, t), text);
        ApartConcat(before, sep + PlainFlow(style, t), prev);
      } else {
        AttachedIsApart(LastKept(init), t, text);
        ApartConcat(before, AttachedFlow(LastKept(init), t), prev);
      }
    }
  }

  lemma MustStart(ts: seq<Tree>, t: Tree)
    ensures IsKept(t) && (LastKept(ts).None? || t.Node?) ==> StartsMember(ts, t)
  {
  }

  lemma DelimiterIsNeutral(s: string, prev: Option<string>)
    requires IsDelimiter(s)
    ensures IsNeutral(s) && IsApartFrom(Word(s), prev) && NextText(Word(s), prev) == Some(s)
  {
    assert s[0] in ['(', ')', '[', ']', '{', '}'] && |s| == 1;
    NeutralWord(s, prev);
  }

  lemma PairIsNeutral(open: string, close: string, prev: Option<string>)
    requires IsDelimiter(open) && IsDelimiter(close)
    ensures IsNeutral(open + close) && IsApartFrom(Word(open + close), prev) && NextText(Word(open + close), prev) == Some(open + close)
  {
    assert |open| == |close| == 1 && open[0] in ['(', ')', '[', ']', '{', '}'] && close[0] in ['(', ')', '[', ']', '{', '}'];
    assert (open + close)[0] == open[0];
    NeutralWord(open + close, prev);
  }

  /** A list between its delimiters. */
  lemma ListTexts(cfg: ListCfg, lead: seq<Bit>, members: seq<Bit>, trail: seq<Bit>, prev: Option<string>)
    requires IsDelimiter(cfg.open) && IsDelimiter(cfg.close)
    requires forall text: Option<string> :: KeepsApart(lead, text) && (IsFree(text) ==> IsFree(LastText(lead, text)))
    requires forall text: Option<string> :: IsFree(text) ==> KeepsApart(members, text)
    requires forall text: Option<string> :: KeepsApart(trail, text)
    ensures var all := [Word(cfg.open)] + Shift(lead + members, 1) + trail + [Word(cfg.close)];
            KeepsApart(all, prev) && LastText(all, prev) == Some(cfg.close)
  {
    hide KeepsApart, LastText, Shift, IsDelimiter;
    DelimiterIsNeutral(cfg.open, prev);
    var open, text := [Word(cfg.open)], Some(cfg.open);
    OneApart(Word(cfg.open), prev);
    ApartConcat(lead, members, text);
    ApartShift(lead + members, 1, text);
    ApartConcat(open, Shift(lead + members, 1), prev);
    ApartConcat(open + Shift(lead + members, 1), trail, prev);
    var text' := LastText(open + Shift(lead + members, 1) + trail, prev);
    DelimiterIsNeutral(cfg.close, text');
    OneApart(Word(cfg.close), text');
    ApartConcat(open + Shift(lead + members, 1) + trail, [Word(cfg.close)], prev);
  }

  lemma PadTexts(pad: FlatText, text: Option<string>)
    ensures var gap := [Gap(Some(pad), false, 0)];
            KeepsApart(gap, text) && (IsFree(text) ==> IsFree(LastText(gap, text)))
  {
    OneApart(Gap(Some(pad), false, 0), text);
  }

  lemma EmptyListTexts(cfg: ListCfg, blank: bool, prev: Option<string>)
    requires IsDelimiter(cfg.open) && IsDelimiter(cfg.close)
    ensures var all := [Word(cfg.open)] + Breaks(blank) + [Word(cfg.close)];
            KeepsApart(all, prev) && LastText(all, prev) == Some(cfg.close)
  {
    hide KeepsApart, LastText, IsDelimiter;
    DelimiterIsNeutral(cfg.open, prev);
    OneApart(Word(cfg.open), prev);
    SepFrees(true, blank, Some(cfg.open));
    ApartConcat([Word(cfg.open)], Breaks(blank), prev);
    DelimiterIsNeutral(cfg.close, None);
    OneApart(Word(cfg.close), None);
    ApartConcat([Word(cfg.open)] + Breaks(blank), [Word(cfg.close)], prev);
  }

  lemma ListIsApart(style: Style, kind: nat, ts: seq<Tree>)
    requires IsStyle(style) && IsSpacing(style) && AreFormed(style, ts)
    ensures IsApart(ListFlow(style, kind, ts), FirstTokenIn(ts), LastTokenIn(ts))
    decreases ts, 1
  {
    hide LastTokenIn, FirstTokenIn, AreFormed, IsApart, KeepsApart, LastText, IsSpacing, IsStyle, ListFlow;
    forall prev | MayFollow(prev, FirstTokenIn(ts))
      ensures KeepsApart(ListFlow(style, kind, ts), prev) && EndsWith(LastText(ListFlow(style, kind, ts), prev), LastTokenIn(ts), prev)
    {
      ListIsApartAt(style, kind, ts, prev);
    }
    MeansApart(ListFlow(style, kind, ts), FirstTokenIn(ts), LastTokenIn(ts));
  }

  lemma ListIsApartAt(style: Style, kind: nat, ts: seq<Tree>, prev: Option<string>)
    requires IsStyle(style) && IsSpacing(style) && AreFormed(style, ts)
    ensures var bits := ListFlow(style, kind, ts);
            KeepsApart(bits, prev) && LastText(bits, prev).Some? && IsNeutral(LastText(bits, prev).value)
    decreases ts, 1, 0
  {
    hide AreFormed, KeepsApart, LastText, IsSpacing, IsStyle, MembersFlow, Shift, Breaks, LastKept, HasSwallowing, LeadsWithBlank,
         TrailsWithBlank, IsDelimiter, IsNeutral;
    var cfg := style.listCfg(kind);
    StyleDelimits(style, kind);
    DelimiterIsNeutral(cfg.close, None);
    var lead, trail := style.preservesEdgeBlanks(kind) && LeadsWithBlank(ts), style.preservesEdgeBlanks(kind) && TrailsWithBlank(ts);
    forall text: Option<string>
      ensures KeepsApart(Breaks(lead), text) && IsFree(LastText(Breaks(lead), text)) && KeepsApart(Breaks(trail), text)
    {
      BreaksFree(lead, text);
      BreaksFree(trail, text);
    }
    forall text: Option<string>, block: bool | IsFree(text)
      ensures KeepsApart(MembersFlow(style, block, ts), text)
    {
      MembersAreApart(style, block, ts, text);
    }
    if LastKept(ts).None? {
      EmptyListTexts(cfg, trail, prev);
      PairIsNeutral(cfg.open, cfg.close, prev);
      OneApart(Word(cfg.open + cfg.close), prev);
    } else if MustBeBlock(style, kind, ts) {
      ListTexts(cfg, Breaks(lead), MembersFlow(style, true, ts), Breaks(trail), prev);
    } else {
      var pad, pad' := PadOf(cfg), if cfg.closeStyle.Dedent? then PadOf(cfg) else "";
      forall text: Option<string>
        ensures KeepsApart([Gap(Some(pad), false, 0)], text) && (IsFree(text) ==> IsFree(LastText([Gap(Some(pad), false, 0)], text)))
        ensures KeepsApart([Gap(Some(pad'), false, 0)], text)
      {
        PadTexts(pad, text);
        PadTexts(pad', text);
      }
      var open, close := [Gap(Some(pad), false, 0)], [Gap(Some(pad'), false, 0)];
      ListTexts(cfg, open, MembersFlow(style, false, ts), close, prev);
      GroupTexts([Word(cfg.open)] + Shift(open + MembersFlow(style, false, ts), 1) + close + [Word(cfg.close)], prev);
    }
  }

  lemma BreaksFree(blank: bool, text: Option<string>)
    ensures KeepsApart(Breaks(blank), text) && IsFree(LastText(Breaks(blank), text))
  {
    SepFrees(true, blank, text);
  }

  // ---- Printed texts ----------------------------------------------------------------------------------------

  /** The text at the end of the output, unless there is a blank behind it. */
  function PrintedText(pieces: seq<Piece>): Option<string> {
    if pieces == [] then
      None
    else
      var p, prev := pieces[|pieces| - 1], PrintedText(pieces[..|pieces| - 1]);
      if p.s == "" then prev else if p.Sep? || IsBlank(p.s) then None else Some(p.s)
  }

  /** Whether no text of the output clings to one directly before it. */
  ghost predicate AreSetApart(pieces: seq<Piece>) {
    pieces != [] ==>
      var p, init := pieces[|pieces| - 1], pieces[..|pieces| - 1];
      AreSetApart(init) && (p.Leaf? && !IsBlank(p.s) && PrintedText(init).Some? ==> !Clings(PrintedText(init).value, p.s))
  }

  /** Whatever breaks, what is printed keeps texts apart if the document in a row does. */
  lemma {:induction false} PrintedIsSetApart(bits: seq<Bit>, outer: seq<Mode>, modes: seq<Mode>, w: nat)
    requires |modes| == |bits| && KeepsApart(bits, None)
    ensures var pieces := Printed(bits, outer, modes, w);
            AreSetApart(pieces) && (PrintedText(pieces).None? || PrintedText(pieces) == LastText(bits, None))
    decreases |bits|
  {
    hide Clings, PieceOf, OpenGroups, NextText, AreSetApart, PrintedText, IsBlank;
    if bits == [] {
      NothingSetApart();
    } else {
      var n := |bits| - 1;
      PrintedIsSetApart(bits[..n], outer, modes[..n], w);
      PieceIsSetApart(bits[n], Printed(bits[..n], outer, modes[..n], w), OpenGroups(bits[..n], outer, modes[..n]), w,
                      LastText(bits[..n], None));
    }
  }

  lemma NothingSetApart()
    ensures AreSetApart([]) && PrintedText([]) == None
  {
  }

  lemma SetApartSnoc(pieces: seq<Piece>, p: Piece)
    ensures PrintedText(pieces + [p]) == if p.s == "" then PrintedText(pieces) else if p.Sep? || IsBlank(p.s) then None else Some(p.s)
    ensures AreSetApart(pieces + [p]) <==>
        AreSetApart(pieces)
        && (p.Leaf? && !IsBlank(p.s) && PrintedText(pieces).Some? ==> !Clings(PrintedText(pieces).value, p.s))
  {
    hide Clings, IsBlank;
    assert (pieces + [p])[..|pieces|] == pieces;
  }

  lemma PieceIsSetApart(b: Bit, pieces: seq<Piece>, open: seq<Mode>, w: nat, text: Option<string>)
    requires AreSetApart(pieces) && (PrintedText(pieces).None? || PrintedText(pieces) == text) && IsApartFrom(b, text)
    ensures var all := pieces + PieceOf(b, open, w);
            AreSetApart(all) && (PrintedText(all).None? || PrintedText(all) == NextText(b, text))
  {
    hide Clings, AreSetApart, PrintedText, IsBlank, Spaces;
    assert pieces + [] == pieces;
    match b
    case Word(s) => SetApartSnoc(pieces, Leaf(s));
    case Gap(flat, cont, depth) =>
      SetApartSnoc(pieces, Sep(Broken(cont, depth, w)));
      if flat.Some? {
        SetApartSnoc(pieces, Sep(flat.value));
      }
    case _ =>
  }
}
