/**
 Replaying a parse over the raw tokens of the source: how the whitespace, comments and
 newlines that the parser never saw are put back into the tree
 (fpp_lsp_parser/src/shortcuts.rs).
 */
module Trivia {
  import opened Syntax
  import Utf8

  /** Whether offsets ascend from character boundary to character boundary of `s`. */
  predicate Ascending(s: string, starts: seq<nat>) {
    && starts != []
    && Utf8.IsCharBoundary(s, starts[0])
    && (1 < |starts| ==> starts[0] < starts[1] && Ascending(s, starts[1..]))
  }

  /** Whether `starts` cuts `s` into non-empty pieces, the last offset being the end of `s`. */
  predicate Tiles(s: string, starts: seq<nat>) {
    Ascending(s, starts) && starts[0] == 0 && starts[|starts| - 1] == Utf8.ByteLen(s)
  }

  lemma {:induction false} AscendingOrder(s: string, starts: seq<nat>, i: nat, j: nat)
    requires Ascending(s, starts) && i <= j < |starts|
    ensures if i < j then starts[i] < starts[j] else starts[i] == starts[j]
    ensures Utf8.IsCharBoundary(s, starts[i]) && Utf8.IsCharBoundary(s, starts[j])
  {
    if 0 < i {
      AscendingOrder(s, starts[1..], i - 1, j - 1);
    } else if 0 < j {
      AscendingOrder(s, starts[1..], 0, j - 1);
    }
  }

  /** The raw tokens of a text: kinds and byte offsets, both closed by an `EOF` entry. */
  datatype LexedStr = LexedStr(text: string, kinds: seq<SyntaxKind>, starts: seq<nat>) {

    ghost predicate Valid() {
      0 < |kinds| == |starts| && Tiles(text, starts)
    }

    function Len(): nat
      requires kinds != []
    {
      |kinds| - 1
    }

    function Kind(i: nat): SyntaxKind
      requires Valid() && i < Len()
    {
      kinds[i]
    }

    function TextStart(i: nat): nat
      requires Valid() && i <= Len()
    {
      starts[i]
    }

    /** The text of the raw tokens `lo..hi`. */
    function RangeText(lo: nat, hi: nat): string
      requires Valid() && lo <= hi <= Len()
    {
      AscendingOrder(text, starts, lo, hi);
      Utf8.Slice(text, starts[lo], starts[hi])
    }

    function Text(i: nat): string
      requires Valid() && i < Len()
    {
      RangeText(i, i + 1)
    }
  }

  // ---- The classification of raw tokens ---------------------------------

  datatype TriviaRegion =
    | Keep(kind: SyntaxKind)
    | Replace(n: nat, kind: SyntaxKind)
    | RemoveAfter(n: nat, kind: SyntaxKind)
    | Remove(n: nat)

  predicate IsSkipped(k: SyntaxKind) {
    k == WHITESPACE || k == UNKNOWN
  }

  predicate IsClosing(k: SyntaxKind) {
    k == RIGHT_PAREN || k == RIGHT_CURLY || k == RIGHT_SQUARE
  }

  predicate EatsNewlinesAfter(k: SyntaxKind) {
    || k == PRE_ANNOTATION || k == POST_ANNOTATION || k == STAR || k == SLASH || k == MINUS
    || k == RIGHT_ARROW || k == PLUS || k == EQUALS || k == SEMI || k == COMMA || k == COLON
    || k == LEFT_PAREN || k == LEFT_CURLY || k == LEFT_SQUARE
  }

  /** Whether a run of newlines continues over raw token `i`. A line continuation is a
      whitespace token that starts with a backslash. */
  predicate IsNewlineTrivia(lx: LexedStr, i: nat)
    requires lx.Valid() && i < lx.Len()
  {
    || lx.Kind(i) == EOL
    || lx.Kind(i) == COMMENT
    || (lx.Kind(i) == WHITESPACE && !("\\" <= lx.Text(i)))
  }

  function NewlinesEnd(lx: LexedStr, i: nat): (r: nat)
    requires lx.Valid() && i <= lx.Len()
    ensures i <= r <= lx.Len()
    ensures r < lx.Len() ==> !IsNewlineTrivia(lx, r)
    ensures forall j :: i <= j < r ==> IsNewlineTrivia(lx, j)
    decreases lx.Len() - i
  {
    if i < lx.Len() && IsNewlineTrivia(lx, i) then NewlinesEnd(lx, i + 1) else i
  }

  function SkippedEnd(lx: LexedStr, i: nat): (r: nat)
    requires lx.Valid() && i <= lx.Len()
    ensures i <= r <= lx.Len()
    ensures r < lx.Len() ==> !IsSkipped(lx.Kind(r))
    ensures forall j :: i <= j < r ==> IsSkipped(lx.Kind(j))
    decreases lx.Len() - i
  {
    if i < lx.Len() && IsSkipped(lx.Kind(i)) then SkippedEnd(lx, i + 1) else i
  }

  /** What the raw tokens from `i` on stand for in the parser's input. */
  function RegionAt(lx: LexedStr, i: nat): (t: TriviaRegion)
    requires lx.Valid() && i < lx.Len()
    ensures i < RegionEnd(i, t) <= lx.Len()
  {
    var s := SkippedEnd(lx, i);
    if s == lx.Len() then
      Remove(s - i)
    else if lx.Kind(s) == EOL || lx.Kind(s) == COMMENT then
      var after := NewlinesEnd(lx, s + 1);
      if after < lx.Len() && IsClosing(lx.Kind(after)) then Remove(after - i) else Replace(after - i, EOL)
    else if i < s then
      Remove(s - i)
    else if EatsNewlinesAfter(lx.Kind(i)) then
      RemoveAfter(NewlinesEnd(lx, i + 1) - i - 1, lx.Kind(i))
    else
      Keep(lx.Kind(i))
  }

  /** The raw token that follows region `t` at `i`. */
  function RegionEnd(i: nat, t: TriviaRegion): nat {
    match t
    case Keep(_) => i + 1
    case Replace(n, _) => i + n
    case RemoveAfter(n, _) => i + n + 1
    case Remove(n) => i + n
  }

  /** The parser's view of the raw tokens from `i` on. */
  function InputFrom(lx: LexedStr, i: nat): seq<SyntaxKind>
    requires lx.Valid() && i <= lx.Len()
    decreases lx.Len() - i
  {
    if i == lx.Len() then
      []
    else
      var t := RegionAt(lx, i);
      (if t.Remove? then [] else [t.kind]) + InputFrom(lx, RegionEnd(i, t))
  }

  lemma InputFromEnd(lx: LexedStr)
    requires lx.Valid()
    ensures InputFrom(lx, lx.Len()) == []
  {
  }

  lemma PushInput(lx: LexedStr, res: seq<SyntaxKind>, i: nat)
    requires lx.Valid() && i < lx.Len()
    ensures var t := RegionAt(lx, i);
            res + InputFrom(lx, i) == (if t.Remove? then res else res + [t.kind]) + InputFrom(lx, RegionEnd(i, t))
  {
    hide Ascending, LexedStr.RangeText, IsNewlineTrivia;
  }

  method EatNewlines(lx: LexedStr, i: nat) returns (r: nat)
    requires lx.Valid() && i <= lx.Len()
    ensures r == NewlinesEnd(lx, i)
  {
    for ii := i to lx.Len()
      invariant NewlinesEnd(lx, i) == NewlinesEnd(lx, ii)
    {
      var kind := lx.Kind(ii);
      if kind == WHITESPACE && "\\" <= lx.Text(ii) {
        return ii;
      }
      if kind != EOL && kind != COMMENT && kind != WHITESPACE {
        return ii;
      }
    }
    return lx.Len();
  }

  method AsTrivia(lx: LexedStr, i: nat) returns (t: TriviaRegion)
    requires lx.Valid() && i < lx.Len()
    ensures t == RegionAt(lx, i)
  {
    hide Ascending, LexedStr.RangeText, IsNewlineTrivia;
    var skip := 0;
    while skip + i < lx.Len()
      invariant skip + i <= lx.Len()
      invariant SkippedEnd(lx, i) == SkippedEnd(lx, i + skip)
    {
      var kind := lx.Kind(i + skip);
      if kind == WHITESPACE || kind == UNKNOWN {
        skip := skip + 1;
      } else if kind == EOL || kind == COMMENT {
        var after := EatNewlines(lx, i + skip + 1);
        var next := if after < lx.Len() then lx.Kind(after) else EOF;
        if next == RIGHT_PAREN || next == RIGHT_CURLY || next == RIGHT_SQUARE {
          return Remove(after - i);
        }
        return Replace(after - i, EOL);
      } else if EatsNewlinesAfter(kind) {
        if skip > 0 {
          return Remove(skip);
        }
        var after := EatNewlines(lx, i + 1);
        return RemoveAfter(after - i - 1, kind);
      } else if skip == 0 {
        return Keep(kind);
      } else {
        return Remove(skip);
      }
    }
    assert skip > 0;
    return Remove(skip);
  }

  // ---- What the parser sees -----------------------------------------------

  const SILENT: set<SyntaxKind> := {WHITESPACE, UNKNOWN, COMMENT, EOL}

  const ABSORBING: set<SyntaxKind> := {PRE_ANNOTATION, POST_ANNOTATION, STAR, SLASH, MINUS, RIGHT_ARROW, PLUS, EQUALS,
                                       SEMI, COMMA, COLON, LEFT_PAREN, LEFT_CURLY, LEFT_SQUARE}

  const CLOSING: set<SyntaxKind> := {RIGHT_PAREN, RIGHT_CURLY, RIGHT_SQUARE}

  predicate IsLine(lx: LexedStr, i: nat)
    requires lx.Valid() && i < lx.Len()
  {
    lx.Kind(i) in {EOL, COMMENT}
  }

  /** Whitespace other than a line continuation. */
  predicate IsSpace(lx: LexedStr, i: nat)
    requires lx.Valid() && i < lx.Len()
  {
    lx.Kind(i) == WHITESPACE && !("\\" <= lx.Text(i))
  }

  /** Whether from `i` up to `j` there are only ends of lines, comments and spaces. */
  ghost predicate IsBlankRun(lx: LexedStr, i: nat, j: nat)
    requires lx.Valid() && j <= lx.Len()
  {
    forall k :: i <= k < j ==> IsLine(lx, k) || IsSpace(lx, k)
  }

  /** Whether `e` goes on with lines that began before it, or with what an absorbing token takes:
      the raw token before it, apart from spaces, is one of those. */
  ghost predicate IsTaken(lx: LexedStr, e: nat)
    requires lx.Valid() && e < lx.Len()
  {
    exists b :: 0 <= b < e && (IsLine(lx, b) || lx.Kind(b) in ABSORBING) && forall k :: b < k < e ==> IsSpace(lx, k)
  }

  /** Whether only blank lines lie between `e` and a closing delimiter. */
  ghost predicate IsDropped(lx: LexedStr, e: nat)
    requires lx.Valid() && e < lx.Len()
  {
    exists c :: e < c < lx.Len() && lx.Kind(c) in CLOSING && IsBlankRun(lx, e + 1, c)
  }

  /** Whether a raw token is an end of line for the parser. */
  ghost predicate EndsLine(lx: LexedStr, e: nat)
    requires lx.Valid() && e < lx.Len()
  {
    IsLine(lx, e) && !IsTaken(lx, e) && !IsDropped(lx, e)
  }

  /** What the parser sees of the raw tokens from `i` on, token by token. */
  ghost function Seen(lx: LexedStr, i: nat): seq<SyntaxKind>
    requires lx.Valid() && i <= lx.Len()
    decreases lx.Len() - i
  {
    if i == lx.Len() then
      []
    else
      (if lx.Kind(i) !in SILENT then [lx.Kind(i)] else if EndsLine(lx, i) then [EOL] else []) + Seen(lx, i + 1)
  }

  lemma {:induction false} NothingSeen(lx: LexedStr, i: nat, j: nat)
    requires lx.Valid() && i <= j <= lx.Len()
    requires forall k :: i <= k < j ==> lx.Kind(k) in SILENT && !EndsLine(lx, k)
    ensures Seen(lx, i) == Seen(lx, j)
    decreases j - i
  {
    hide EndsLine, LexedStr.Valid, LexedStr.Kind, LexedStr.Len;
    if i < j {
      NothingSeen(lx, i + 1, j);
    }
  }

  /** After an absorbing token or a line, no line of the blank run ends a line. */
  lemma RunIsTaken(lx: LexedStr, b: nat, j: nat)
    requires lx.Valid() && b < j <= lx.Len() && (IsLine(lx, b) || lx.Kind(b) in ABSORBING) && IsBlankRun(lx, b + 1, j)
    ensures forall k :: b < k < j ==> lx.Kind(k) in SILENT && !EndsLine(lx, k)
  {
    hide LexedStr.Valid, LexedStr.RangeText;
    forall k | b < k < j
      ensures lx.Kind(k) in SILENT && !EndsLine(lx, k)
    {
      assert IsLine(lx, k) || IsSpace(lx, k);
      LineBefore(lx, b, k);
    }
  }

  lemma {:induction false} LineBefore(lx: LexedStr, b: nat, e: nat)
    requires lx.Valid() && b < e < lx.Len() && (IsLine(lx, b) || lx.Kind(b) in ABSORBING) && IsBlankRun(lx, b + 1, e)
    ensures IsTaken(lx, e)
    decreases e - b
  {
    hide LexedStr.Valid, LexedStr.RangeText, IsSpace, IsLine;
    if k :| b < k < e && IsLine(lx, k) {
      LineBefore(lx, k, e);
    }
  }

  /** Whether a region may begin here: what was before it is not taken further. */
  ghost predicate IsFresh(lx: LexedStr, i: nat)
    requires lx.Valid() && i <= lx.Len()
  {
    || i == 0 || i == lx.Len() || !(IsLine(lx, i) || IsSpace(lx, i))
    || (lx.Kind(i - 1) !in SILENT && lx.Kind(i - 1) !in ABSORBING)
  }

  /** Up to a line, only skipped tokens: it is not taken. */
  lemma FreshIsNotTaken(lx: LexedStr, i: nat, s: nat)
    requires lx.Valid() && i <= s < lx.Len() && IsFresh(lx, i) && IsLine(lx, s)
    requires forall k :: i <= k < s ==> lx.Kind(k) in {WHITESPACE, UNKNOWN}
    ensures !IsTaken(lx, s)
  {
    hide LexedStr.Valid, LexedStr.RangeText;
    forall b | 0 <= b < s && (forall k :: b < k < s ==> IsSpace(lx, k))
      ensures !IsLine(lx, b) && lx.Kind(b) !in ABSORBING
    {
      if b < i {
        assert b == i - 1 || IsSpace(lx, i - 1);
        assert i == s || IsSpace(lx, i);
      }
    }
  }

  lemma DroppedAtEnd(lx: LexedStr, s: nat, after: nat)
    requires lx.Valid() && s < after <= lx.Len() && IsBlankRun(lx, s + 1, after)
    requires after < lx.Len() ==> !(IsLine(lx, after) || IsSpace(lx, after))
    ensures IsDropped(lx, s) <==> after < lx.Len() && lx.Kind(after) in CLOSING
  {
    hide LexedStr.Valid, LexedStr.RangeText;
    var next := s + 1;
    forall c | after < c < lx.Len()
      ensures !IsBlankRun(lx, next, c)
    {
      assert !(IsLine(lx, after) || IsSpace(lx, after));
    }
    forall c | s < c < after
      ensures lx.kinds[c] !in CLOSING
    {
      assert IsLine(lx, c) || IsSpace(lx, c);
    }
  }

  lemma NewlinesAreBlank(lx: LexedStr, i: nat)
    requires lx.Valid() && i <= lx.Len()
    ensures IsBlankRun(lx, i, NewlinesEnd(lx, i))
    ensures var r := NewlinesEnd(lx, i); r < lx.Len() ==> !(IsLine(lx, r) || IsSpace(lx, r))
  {
    hide LexedStr.Valid, LexedStr.RangeText;
    forall k | i <= k < NewlinesEnd(lx, i)
      ensures IsLine(lx, k) || IsSpace(lx, k)
    {
      assert IsNewlineTrivia(lx, k);
    }
  }

  /** A region stands for what the parser sees of its raw tokens. */
  lemma RegionIsSeen(lx: LexedStr, i: nat)
    requires lx.Valid() && i < lx.Len() && IsFresh(lx, i)
    ensures var t := RegionAt(lx, i);
            && IsFresh(lx, RegionEnd(i, t))
            && Seen(lx, i) == (if t.Remove? then [] else [t.kind]) + Seen(lx, RegionEnd(i, t))
  {
    hide LexedStr.Valid, LexedStr.RangeText, IsNewlineTrivia, NewlinesEnd, SkippedEnd, EndsLine, IsTaken, IsDropped, Seen;
    var s := SkippedEnd(lx, i);
    SkippedIsSilent(lx, i);
    NothingSeen(lx, i, s);
    if s < lx.Len() {
      SeenNext(lx, s);
      var after := NewlinesEnd(lx, s + 1);
      NewlinesAreBlank(lx, s + 1);
      if IsLine(lx, s) || (i == s && EatsNewlinesAfter(lx.Kind(s))) {
        RunIsTaken(lx, s, after);
        NothingSeen(lx, s + 1, after);
      }
      if IsLine(lx, s) {
        FreshIsNotTaken(lx, i, s);
        DroppedAtEnd(lx, s, after);
        LineEnds(lx, s);
      }
    }
  }

  lemma SkippedIsSilent(lx: LexedStr, i: nat)
    requires lx.Valid() && i <= lx.Len()
    ensures forall k :: i <= k < SkippedEnd(lx, i) ==> lx.Kind(k) in {WHITESPACE, UNKNOWN} && !EndsLine(lx, k)
    ensures SkippedEnd(lx, i) < lx.Len() ==> lx.Kind(SkippedEnd(lx, i)) !in {WHITESPACE, UNKNOWN}
  {
    hide LexedStr.Valid, LexedStr.RangeText, IsTaken, IsDropped;
  }

  lemma SeenNext(lx: LexedStr, i: nat)
    requires lx.Valid() && i < lx.Len()
    ensures Seen(lx, i)
         == (if lx.Kind(i) !in SILENT then [lx.Kind(i)] else if EndsLine(lx, i) then [EOL] else []) + Seen(lx, i + 1)
  {
    hide EndsLine;
  }

  lemma LineEnds(lx: LexedStr, e: nat)
    requires lx.Valid() && e < lx.Len() && IsLine(lx, e)
    ensures EndsLine(lx, e) <==> !IsTaken(lx, e) && !IsDropped(lx, e)
    ensures lx.Kind(e) in SILENT
  {
    hide IsTaken, IsDropped;
  }

  /** The parser's input is what it sees of the raw tokens, each by itself. */
  lemma {:induction false} InputIsSeen(lx: LexedStr, i: nat)
    requires lx.Valid() && i <= lx.Len() && IsFresh(lx, i)
    ensures InputFrom(lx, i) == Seen(lx, i)
    decreases lx.Len() - i
  {
    hide LexedStr.Valid, LexedStr.RangeText, RegionAt, IsFresh, EndsLine;
    if i < lx.Len() {
      RegionIsSeen(lx, i);
      InputIsSeen(lx, RegionEnd(i, RegionAt(lx, i)));
    }
  }

  // ---- Tokens and ends of lines ---------------------------------------------

  /** A sequence without the kinds of a set. */
  function Without(kinds: seq<SyntaxKind>, out: set<SyntaxKind>): seq<SyntaxKind> {
    if kinds == [] then [] else (if kinds[0] in out then [] else [kinds[0]]) + Without(kinds[1..], out)
  }

  lemma {:induction false} WithoutConcat(a: seq<SyntaxKind>, b: seq<SyntaxKind>, out: set<SyntaxKind>)
    ensures Without(a + b, out) == Without(a, out) + Without(b, out)
  {
    if a == [] {
      assert a + b == b;
    } else {
      assert (a + b)[1..] == a[1..] + b;
      WithoutConcat(a[1..], b, out);
    }
  }

  lemma {:induction false} SeenTokens(lx: LexedStr, i: nat)
    requires lx.Valid() && i <= lx.Len()
    ensures Without(Seen(lx, i), {EOL}) == Without(lx.kinds[i..lx.Len()], SILENT)
    decreases lx.Len() - i
  {
    hide LexedStr.Valid, EndsLine;
    if i < lx.Len() {
      SeenNext(lx, i);
      SeenTokens(lx, i + 1);
      var first := if lx.Kind(i) !in SILENT then [lx.Kind(i)] else if EndsLine(lx, i) then [EOL] else [];
      WithoutConcat(first, Seen(lx, i + 1), {EOL});
      assert first != [] ==> first[1..] == [];
      assert lx.kinds[i..lx.Len()][1..] == lx.kinds[i + 1..lx.Len()];
    }
  }

  /** Apart from ends of lines, the input is the raw tokens without whitespace, unknown characters
      and comments, in order. */
  lemma InputTokens(lx: LexedStr)
    requires lx.Valid()
    ensures Without(InputFrom(lx, 0), {EOL}) == Without(lx.kinds[..lx.Len()], {WHITESPACE, UNKNOWN, COMMENT, EOL})
  {
    hide LexedStr.Valid, InputFrom, Seen;
    InputIsSeen(lx, 0);
    SeenTokens(lx, 0);
    assert lx.kinds[0..lx.Len()] == lx.kinds[..lx.Len()];
  }

  /** Whether an end of line at `e`, after the token at `i` and before the one at `j`, stays: it is not
      in what an absorbing token at `i` takes, nor in the blank lines before a closing one at `j`. */
  ghost predicate Stays(lx: LexedStr, i: int, e: nat, j: nat)
    requires lx.Valid() && -1 <= i < e < j <= lx.Len()
  {
    && IsLine(lx, e)
    && !(0 <= i && lx.Kind(i) in ABSORBING && IsBlankRun(lx, i + 1, e))
    && !(j < lx.Len() && lx.Kind(j) in CLOSING && IsBlankRun(lx, e, j))
  }

  /** The first line of the blank run that leads to a line. */
  lemma {:induction false} FirstOfRun(lx: LexedStr, lo: nat, e: nat) returns (f: nat)
    requires lx.Valid() && lo <= e < lx.Len() && IsLine(lx, e)
    ensures lo <= f <= e && IsLine(lx, f) && IsBlankRun(lx, f, e)
    ensures forall b :: lo <= b < f && (forall k :: b < k < f ==> IsSpace(lx, k)) ==> !IsLine(lx, b)
    decreases e
  {
    hide LexedStr.Valid, LexedStr.RangeText, IsSpace, IsLine;
    if b :| lo <= b < e && IsLine(lx, b) && forall k :: b < k < e ==> IsSpace(lx, k) {
      f := FirstOfRun(lx, lo, b);
    } else {
      f := e;
    }
  }

  /**
   Between two tokens that the parser sees, or before the first or behind the last, it sees an end
   of line if and only if one of the ends of lines and comments there stays.
   */
  lemma EolBetween(lx: LexedStr, i: int, j: nat)
    requires lx.Valid() && -1 <= i < j <= lx.Len()
    requires (0 <= i ==> lx.Kind(i) !in SILENT) && (j < lx.Len() ==> lx.Kind(j) !in SILENT)
    requires forall k :: i < k < j ==> lx.Kind(k) in SILENT
    ensures (exists e: nat :: i < e < j && EndsLine(lx, e)) <==> (exists e: nat :: i < e < j && Stays(lx, i, e, j))
  {
    hide LexedStr.Valid, LexedStr.RangeText;
    if e: nat :| i < e < j && EndsLine(lx, e) {
      EndMeansStays(lx, i, e, j);
    }
    if e: nat :| i < e < j && Stays(lx, i, e, j) {
      var f := StaysMeansEnd(lx, i, e, j);
      assert EndsLine(lx, f);
    }
  }

  lemma EndMeansStays(lx: LexedStr, i: int, e: nat, j: nat)
    requires lx.Valid() && -1 <= i < e < j <= lx.Len() && EndsLine(lx, e)
    ensures Stays(lx, i, e, j)
  {
    hide LexedStr.Valid, LexedStr.RangeText;
    if 0 <= i && lx.Kind(i) in ABSORBING && IsBlankRun(lx, i + 1, e) {
      LineBefore(lx, i, e);
    }
  }

  lemma StaysMeansEnd(lx: LexedStr, i: int, e: nat, j: nat) returns (f: nat)
    requires lx.Valid() && -1 <= i < e < j <= lx.Len() && Stays(lx, i, e, j)
    requires (0 <= i ==> lx.Kind(i) !in SILENT) && (j < lx.Len() ==> lx.Kind(j) !in SILENT)
    requires forall k :: i < k < j ==> lx.Kind(k) in SILENT
    ensures i < f <= e && EndsLine(lx, f)
  {
    hide LexedStr.Valid, LexedStr.RangeText;
    f := FirstOfRun(lx, i + 1, e);
    forall b | 0 <= b < f && (IsLine(lx, b) || lx.Kind(b) in ABSORBING)
      ensures exists k :: b < k < f && !IsSpace(lx, k)
    {
      if b < i {
        assert !IsSpace(lx, i);
      } else if b == i {
        var k :| i + 1 <= k < e && !(IsLine(lx, k) || IsSpace(lx, k));
        assert k < f;
      }
    }
    forall c | f < c < lx.Len() && lx.Kind(c) in CLOSING
      ensures !IsBlankRun(lx, f + 1, c)
    {
      if j < c {
        assert !(IsLine(lx, j) || IsSpace(lx, j));
      } else {
        var k :| e <= k < j && !(IsLine(lx, k) || IsSpace(lx, k));
      }
    }
  }

  method ToInput(lx: LexedStr) returns (res: seq<SyntaxKind>)
    requires lx.Valid()
    ensures res == InputFrom(lx, 0) == Seen(lx, 0)
  {
    hide InputFrom, RegionAt, Seen, LexedStr.Valid;
    InputIsSeen(lx, 0);
    res := [];
    var i := 0;
    while i < lx.Len()
      invariant i <= lx.Len()
      invariant InputFrom(lx, 0) == res + InputFrom(lx, i)
    {
      var t := AsTrivia(lx, i);
      PushInput(lx, res, i);
      match t
      case Keep(k) =>
        res, i := res + [k], i + 1;
      case Replace(n, k) =>
        res, i := res + [k], i + n;
      case RemoveAfter(n, k) =>
        res, i := res + [k], i + n + 1;
      case Remove(n) =>
        i := i + n;
    }
    InputFromEnd(lx);
  }

  // ---- Restarting the classification ------------------------------------

  lemma {:induction false} NewlinesEndFromInside(lx: LexedStr, i: nat, j: nat)
    requires lx.Valid() && i <= lx.Len() && i <= j <= NewlinesEnd(lx, i)
    ensures NewlinesEnd(lx, j) == NewlinesEnd(lx, i)
    decreases j - i
  {
    if i < j {
      NewlinesEndFromInside(lx, i + 1, j);
    }
  }

  lemma {:induction false} SkippedEndFromInside(lx: LexedStr, i: nat, j: nat)
    requires lx.Valid() && i <= lx.Len() && i <= j <= SkippedEnd(lx, i)
    ensures SkippedEnd(lx, j) == SkippedEnd(lx, i)
    decreases j - i
  {
    if i < j {
      SkippedEndFromInside(lx, i + 1, j);
    }
  }

  lemma NewlineOrSkipped(lx: LexedStr, i: nat)
    requires lx.Valid() && i < lx.Len() && IsNewlineTrivia(lx, i)
    ensures lx.Kind(i) == EOL || lx.Kind(i) == COMMENT || IsSkipped(lx.Kind(i))
  {
  }

  /** Inside the newlines of a removed region, the classifier still removes them. */
  lemma RestartInsideNewlines(lx: LexedStr, s: nat, j: nat)
    requires lx.Valid() && s < lx.Len() && s < j < NewlinesEnd(lx, s + 1)
    requires NewlinesEnd(lx, s + 1) < lx.Len() && IsClosing(lx.Kind(NewlinesEnd(lx, s + 1)))
    ensures RegionAt(lx, j) == Remove(NewlinesEnd(lx, s + 1) - j)
  {
    hide Ascending, LexedStr.RangeText, IsNewlineTrivia, NewlinesEnd, SkippedEnd;
    var after := NewlinesEnd(lx, s + 1);
    var s' := SkippedEnd(lx, j);
    assert s' <= after;
    if s' < after {
      NewlineOrSkipped(lx, s');
      NewlinesEndFromInside(lx, s + 1, s' + 1);
    }
  }

  /** A removed region can be left and re-entered anywhere: the classifier, started
      again inside it, removes exactly what is left of it. */
  lemma RestartInsideRemoved(lx: LexedStr, i: nat, j: nat)
    requires lx.Valid() && i < lx.Len() && RegionAt(lx, i).Remove?
    requires i <= j < i + RegionAt(lx, i).n
    ensures RegionAt(lx, j) == Remove(i + RegionAt(lx, i).n - j)
  {
    hide Ascending, LexedStr.RangeText, IsNewlineTrivia, NewlinesEnd, SkippedEnd;
    var s := SkippedEnd(lx, i);
    if j <= s {
      SkippedEndFromInside(lx, i, j);
    } else {
      RestartInsideNewlines(lx, s, j);
    }
  }

  /** The parser's input is the same from every point of a removed region on. */
  lemma InputFromInsideRemoved(lx: LexedStr, i: nat, j: nat)
    requires lx.Valid() && i < lx.Len() && RegionAt(lx, i).Remove?
    requires i <= j <= i + RegionAt(lx, i).n
    ensures InputFrom(lx, j) == InputFrom(lx, i)
  {
    hide Ascending, RegionAt;
    if j < i + RegionAt(lx, i).n {
      RestartInsideRemoved(lx, i, j);
    }
  }

  /** After a removed region comes a token of the parser's input, or the end. */
  lemma RemovedRegionsDoNotMeet(lx: LexedStr, i: nat)
    requires lx.Valid() && i < lx.Len() && RegionAt(lx, i).Remove?
    requires i + RegionAt(lx, i).n < lx.Len()
    ensures !RegionAt(lx, i + RegionAt(lx, i).n).Remove?
  {
    hide Ascending, LexedStr.RangeText, IsNewlineTrivia;
  }
}
