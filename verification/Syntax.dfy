/** The standard optional value. */
module Wrappers {
  datatype Option<+T> = None | Some(value: T)
}

/** Whitespace at the end of a text. */
module Strings {
  /** The characters of a line before its trailing whitespace. */
  function TrimEnd(l: string, isWhitespace: char -> bool): (t: string)
    ensures t <= l
    ensures t != "" ==> !isWhitespace(t[|t| - 1])
    ensures forall i :: |t| <= i < |l| ==> isWhitespace(l[i])
  {
    if l != "" && isWhitespace(l[|l| - 1]) then TrimEnd(l[..|l| - 1], isWhitespace) else l
  }
}

/** The kinds of tokens and nodes, and the pieces of text that carry them. */
module Syntax {

  // The discriminants of `fpp_lsp_parser::SyntaxKind`, a `repr(u16)` enumeration.
  const LAST_KIND := 272

  type SyntaxKind = k: nat | k <= LAST_KIND

  const TOMBSTONE: SyntaxKind := 0
  const EOF: SyntaxKind := 1
  const UNKNOWN: SyntaxKind := 2
  const IDENT: SyntaxKind := 4
  const POST_ANNOTATION: SyntaxKind := 5
  const PRE_ANNOTATION: SyntaxKind := 6
  const LITERAL_FLOAT: SyntaxKind := 7
  const LITERAL_INT: SyntaxKind := 8
  const LITERAL_STRING: SyntaxKind := 9
  const FIRST_KEYWORD: SyntaxKind := 10
  const LAST_KEYWORD: SyntaxKind := 127
  const SIZEOF_KW: SyntaxKind := 104
  const COLON: SyntaxKind := 128
  const COMMA: SyntaxKind := 129
  const DOT: SyntaxKind := 130
  const EOL: SyntaxKind := 131
  const EQUALS: SyntaxKind := 132
  const LEFT_PAREN: SyntaxKind := 133
  const LEFT_CURLY: SyntaxKind := 134
  const LEFT_SQUARE: SyntaxKind := 135
  const RIGHT_PAREN: SyntaxKind := 136
  const RIGHT_CURLY: SyntaxKind := 137
  const RIGHT_SQUARE: SyntaxKind := 138
  const RIGHT_ARROW: SyntaxKind := 139
  const MINUS: SyntaxKind := 140
  const PLUS: SyntaxKind := 141
  const SEMI: SyntaxKind := 142
  const SLASH: SyntaxKind := 143
  const STAR: SyntaxKind := 144
  const SHIFT_LEFT: SyntaxKind := 145
  const SHIFT_RIGHT: SyntaxKind := 146
  const WHITESPACE: SyntaxKind := 147
  const COMMENT: SyntaxKind := 148
  const ERROR: SyntaxKind := 149
  const ROOT: SyntaxKind := 271

  /** One step of a traversal of a parse: what `Output::iter` yields. */
  datatype Step =
    | Token(kind: SyntaxKind, nInputTokens: nat)
    | Enter(kind: SyntaxKind)
    | Exit
    | Error(msg: string)
    | Expected(kind: SyntaxKind)

  /** One step of the replay of a parse over the source text. */
  datatype StrStep =
    | StrToken(kind: SyntaxKind, text: string)
    | StrEnter(kind: SyntaxKind)
    | StrExit
    | StrError(msg: string, pos: nat)
    | StrExpected(kind: SyntaxKind, start: nat, end: nat)
}

/** Lengths and slices of text measured in UTF-8 bytes. */
module Utf8 {

  /** The number of bytes that encode `c`. */
  function Width(c: char): (w: nat)
    ensures 1 <= w <= 4
  {
    if c as int < 0x80 then 1 else if c as int < 0x800 then 2 else if c as int < 0x1_0000 then 3 else 4
  }

  function ByteLen(s: string): nat {
    if s == "" then 0 else Width(s[0]) + ByteLen(s[1..])
  }

  lemma {:induction false} ByteLenConcat(a: string, b: string)
    ensures ByteLen(a + b) == ByteLen(a) + ByteLen(b)
  {
    if a == "" {
      assert a + b == b;
    } else {
      assert (a + b)[1..] == a[1..] + b;
      ByteLenConcat(a[1..], b);
    }
  }

  /** Whether byte `off` of the encoding of `s` starts a character or ends `s`. */
  predicate IsCharBoundary(s: string, off: nat) {
    off == 0 || (s != "" && Width(s[0]) <= off && IsCharBoundary(s[1..], off - Width(s[0])))
  }

  /** The number of characters before byte `off`. */
  function CharIndex(s: string, off: nat): (i: nat)
    requires IsCharBoundary(s, off)
    ensures i <= |s| && ByteLen(s[..i]) == off
  {
    if off == 0 then
      0
    else
      var i := 1 + CharIndex(s[1..], off - Width(s[0]));
      assert s[..i][1..] == s[1..][..i - 1];
      i
  }

  /** The text between two byte offsets, `&s[lo..hi]`. */
  function Slice(s: string, lo: nat, hi: nat): string
    requires lo <= hi && IsCharBoundary(s, lo) && IsCharBoundary(s, hi)
  {
    CharIndexMonotone(s, lo, hi);
    s[CharIndex(s, lo)..CharIndex(s, hi)]
  }

  lemma {:induction false} CharIndexMonotone(s: string, lo: nat, hi: nat)
    requires lo <= hi && IsCharBoundary(s, lo) && IsCharBoundary(s, hi)
    ensures CharIndex(s, lo) <= CharIndex(s, hi)
  {
    if lo != 0 {
      CharIndexMonotone(s[1..], lo - Width(s[0]), hi - Width(s[0]));
    }
  }

  lemma {:induction false} PrefixIsBoundary(a: string, b: string)
    ensures IsCharBoundary(a + b, ByteLen(a)) && CharIndex(a + b, ByteLen(a)) == |a|
  {
    if a != "" {
      assert (a + b)[1..] == a[1..] + b;
      PrefixIsBoundary(a[1..], b);
    }
  }

  lemma SliceAt(s: string, i: nat, j: nat)
    requires i <= j <= |s|
    ensures var lo, hi := ByteLen(s[..i]), ByteLen(s[..j]);
            lo <= hi && IsCharBoundary(s, lo) && IsCharBoundary(s, hi) && Slice(s, lo, hi) == s[i..j]
  {
    hide ByteLen, IsCharBoundary;
    assert s == s[..i] + s[i..] == s[..j] + s[j..];
    PrefixIsBoundary(s[..i], s[i..]);
    PrefixIsBoundary(s[..j], s[j..]);
    assert s[..j] == s[..i] + s[i..j];
    ByteLenConcat(s[..i], s[i..j]);
  }

  lemma SliceSplit(s: string, lo: nat, mid: nat, hi: nat)
    requires lo <= mid <= hi
    requires IsCharBoundary(s, lo) && IsCharBoundary(s, mid) && IsCharBoundary(s, hi)
    ensures Slice(s, lo, hi) == Slice(s, lo, mid) + Slice(s, mid, hi)
  {
    CharIndexMonotone(s, lo, mid);
    CharIndexMonotone(s, mid, hi);
  }

  lemma SliceWhole(s: string)
    ensures IsCharBoundary(s, ByteLen(s)) && Slice(s, 0, ByteLen(s)) == s
  {
    PrefixIsBoundary(s, "");
    assert s + "" == s;
  }
}
