/** The layout of a state machine diagram, kept as an annotation (fpp_diagram/src/layout.rs). */
module SmLayouts {
  import opened Strings
  import opened Wrappers

  datatype CycleBreaking = ModelOrder | GreedyModelOrder | Greedy | DepthFirst
  datatype ConsiderModelOrder = NodesAndEdges | PreferEdges | PreferNodes | NoOrder
  datatype NodePlacement = BrandesKoepf | NetworkSimplex | LinearSegments | Simple
  datatype LayoutEngine = Elk | Dagre
  datatype Direction = TopBottom | BottomTop | LeftRight | RightLeft

  const U32_END := 0x1_0000_0000
  type u32 = n: nat | n < U32_END

  datatype SmLayout = SmLayout(
    engine: LayoutEngine,
    direction: Direction,
    cycleBreaking: CycleBreaking,
    considerModelOrder: ConsiderModelOrder,
    nodePlacement: NodePlacement,
    nodeSpacing: u32,
    rankSpacing: u32)

  const DEFAULT := SmLayout(Elk, TopBottom, ModelOrder, NodesAndEdges, BrandesKoepf, 60, 60)

  const ANNOTATION_TAG := "diagram-layout"

  // ---- Option strings ------------------------------------------------------------------------

  function CycleBreakingElk(x: CycleBreaking): string {
    match x
    case ModelOrder => "MODEL_ORDER"
    case GreedyModelOrder => "GREEDY_MODEL_ORDER"
    case Greedy => "GREEDY"
    case DepthFirst => "DEPTH_FIRST"
  }

  function ParseCycleBreaking(s: string): Option<CycleBreaking> {
    if s == "MODEL_ORDER" then Some(ModelOrder)
    else if s == "GREEDY_MODEL_ORDER" then Some(GreedyModelOrder)
    else if s == "GREEDY" then Some(Greedy)
    else if s == "DEPTH_FIRST" then Some(DepthFirst)
    else None
  }

  function ConsiderModelOrderElk(x: ConsiderModelOrder): string {
    match x
    case NodesAndEdges => "NODES_AND_EDGES"
    case PreferEdges => "PREFER_EDGES"
    case PreferNodes => "PREFER_NODES"
    case NoOrder => "NONE"
  }

  function ParseConsiderModelOrder(s: string): Option<ConsiderModelOrder> {
    if s == "NODES_AND_EDGES" then Some(NodesAndEdges)
    else if s == "PREFER_EDGES" then Some(PreferEdges)
    else if s == "PREFER_NODES" then Some(PreferNodes)
    else if s == "NONE" then Some(NoOrder)
    else None
  }

  function NodePlacementElk(x: NodePlacement): string {
    match x
    case BrandesKoepf => "BRANDES_KOEPF"
    case NetworkSimplex => "NETWORK_SIMPLEX"
    case LinearSegments => "LINEAR_SEGMENTS"
    case Simple => "SIMPLE"
  }

  function ParseNodePlacement(s: string): Option<NodePlacement> {
    if s == "BRANDES_KOEPF" then Some(BrandesKoepf)
    else if s == "NETWORK_SIMPLEX" then Some(NetworkSimplex)
    else if s == "LINEAR_SEGMENTS" then Some(LinearSegments)
    else if s == "SIMPLE" then Some(Simple)
    else None
  }

  function LayoutEngineElk(x: LayoutEngine): string {
    match x case Elk => "elk" case Dagre => "dagre"
  }

  function ParseLayoutEngine(s: string): Option<LayoutEngine> {
    if s == "elk" then Some(Elk) else if s == "dagre" then Some(Dagre) else None
  }

  function DirectionElk(x: Direction): string {
    match x case TopBottom => "TB" case BottomTop => "BT" case LeftRight => "LR" case RightLeft => "RL"
  }

  function ParseDirection(s: string): Option<Direction> {
    if s == "TB" then Some(TopBottom)
    else if s == "BT" then Some(BottomTop)
    else if s == "LR" then Some(LeftRight)
    else if s == "RL" then Some(RightLeft)
    else None
  }

  // ---- Numbers --------------------------------------------------------------------------------

  predicate IsDigit(c: char) {
    '0' <= c <= '9'
  }

  function DigitOf(n: nat): (c: char)
    requires n < 10
    ensures IsDigit(c) && c as int - '0' as int == n
  {
    '0' + n as char
  }

  /** The decimal form of a number. */
  function Print(n: nat): (s: string)
    ensures s != "" && forall i :: 0 <= i < |s| ==> IsDigit(s[i])
  {
    if n < 10 then [DigitOf(n)] else Print(n / 10) + [DigitOf(n % 10)]
  }

  /** Reads digits after `acc`, failing on overflow. */
  function ParseDigits(acc: u32, s: string): Option<u32>
    decreases |s|
  {
    if s == "" then
      Some(acc)
    else if !IsDigit(s[0]) then
      None
    else
      var next := acc * 10 + (s[0] as int - '0' as int);
      if next < U32_END then ParseDigits(next, s[1..]) else None
  }

  /** `parse::<u32>` */
  function ParseU32(s: string): Option<u32> {
    var digits := if s != "" && s[0] == '+' then s[1..] else s;
    if digits == "" then None else ParseDigits(0, digits)
  }

  lemma {:induction false} ParseSnoc(acc: u32, s: string, c: char)
    requires IsDigit(c)
    ensures ParseDigits(acc, s + [c])
         == match ParseDigits(acc, s)
            case None => None
            case Some(n) => if n * 10 + (c as int - '0' as int) < U32_END then Some(n * 10 + (c as int - '0' as int)) else None
    decreases |s|
  {
    if s == "" {
      assert "" + [c] == [c] && [c][1..] == "";
    } else {
      assert (s + [c])[0] == s[0] && (s + [c])[1..] == s[1..] + [c];
      var next := acc * 10 + (s[0] as int - '0' as int);
      if IsDigit(s[0]) && next < U32_END {
        ParseSnoc(next, s[1..], c);
      }
    }
  }

  lemma {:induction false} ParsePrinted(n: u32)
    ensures ParseDigits(0, Print(n)) == Some(n)
  {
    if n < 10 {
      assert [DigitOf(n)][1..] == "";
    } else {
      ParsePrinted(n / 10);
      ParseSnoc(0, Print(n / 10), DigitOf(n % 10));
    }
  }

  /** Every 32-bit number is read back as it was printed. */
  lemma NumberRoundTrip(n: u32)
    ensures ParseU32(Print(n)) == Some(n)
  {
    ParsePrinted(n);
    assert IsDigit(Print(n)[0]);
  }

  // ---- Words ----------------------------------------------------------------------------------

  /** A space is whitespace, and no printable ASCII character is. */
  ghost predicate IsSpacing(isSpace: char -> bool) {
    isSpace(' ') && forall c :: '!' <= c <= '~' ==> !isSpace(c)
  }

  function TrimStart(s: string, isSpace: char -> bool): string {
    if s != "" && isSpace(s[0]) then TrimStart(s[1..], isSpace) else s
  }

  function Trim(s: string, isSpace: char -> bool): string {
    TrimEnd(TrimStart(s, isSpace), isSpace)
  }

  /** The characters before the first whitespace. */
  function FirstWord(s: string, isSpace: char -> bool): (w: string)
    ensures |w| <= |s|
    ensures s != "" && !isSpace(s[0]) ==> w != ""
  {
    if s == "" || isSpace(s[0]) then "" else [s[0]] + FirstWord(s[1..], isSpace)
  }

  /** `split_whitespace` */
  function Words(s: string, isSpace: char -> bool): seq<string>
    decreases |s|
  {
    if s == "" then
      []
    else if isSpace(s[0]) then
      Words(s[1..], isSpace)
    else
      var w := FirstWord(s, isSpace);
      [w] + Words(s[|w|..], isSpace)
  }

  /** `split_once('=')` */
  function SplitOnce(s: string): Option<(string, string)> {
    if s == "" then
      None
    else if s[0] == '=' then
      Some(("", s[1..]))
    else
      match SplitOnce(s[1..])
      case None => None
      case Some((key, value)) => Some(([s[0]] + key, value))
  }

  predicate IsWord(s: string, isSpace: char -> bool) {
    s != "" && forall i :: 0 <= i < |s| ==> !isSpace(s[i])
  }

  /** Words with a space before each. */
  function Spaced(words: seq<string>): string {
    if words == [] then "" else " " + words[0] + Spaced(words[1..])
  }

  lemma {:induction false} FirstWordIs(w: string, rest: string, isSpace: char -> bool)
    requires (forall i :: 0 <= i < |w| ==> !isSpace(w[i])) && (rest == "" || isSpace(rest[0]))
    ensures FirstWord(w + rest, isSpace) == w
  {
    if w == "" {
      assert "" + rest == rest;
    } else {
      assert (w + rest)[0] == w[0] && (w + rest)[1..] == w[1..] + rest;
      FirstWordIs(w[1..], rest, isSpace);
      assert [w[0]] + w[1..] == w;
    }
  }

  /** Words that are set apart by spaces are found again. */
  lemma {:induction false} WordsRoundTrip(words: seq<string>, isSpace: char -> bool)
    requires isSpace(' ') && forall i :: 0 <= i < |words| ==> IsWord(words[i], isSpace)
    ensures Words(Spaced(words), isSpace) == words
    ensures Spaced(words) == "" || isSpace(Spaced(words)[0])
  {
    if words != [] {
      var w, rest := words[0], Spaced(words[1..]);
      WordsRoundTrip(words[1..], isSpace);
      FirstWordIs(w, rest, isSpace);
      var s := " " + w + rest;
      assert s[0] == ' ' && s[1..] == w + rest;
      assert (w + rest)[0] == w[0] && (w + rest)[|w|..] == rest;
    }
  }

  lemma {:induction false} SplitOnceIs(key: string, value: string)
    requires '=' !in key
    ensures SplitOnce(key + "=" + value) == Some((key, value))
  {
    var s := key + "=" + value;
    if key == "" {
      assert s[0] == '=' && s[1..] == value;
    } else {
      assert s[0] == key[0] && s[1..] == key[1..] + "=" + value;
      SplitOnceIs(key[1..], value);
      assert [key[0]] + key[1..] == key;
    }
  }

  // ---- Reading annotations ----------------------------------------------------------------------

  /** What one token does to the layout. Unknown keys and values do nothing. */
  function Set(layout: SmLayout, token: string): SmLayout {
    match SplitOnce(token)
    case None => layout
    case Some((key, value)) =>
      if key == "engine" then
        match ParseLayoutEngine(value) case Some(v) => layout.(engine := v) case None => layout
      else if key == "direction" then
        match ParseDirection(value) case Some(v) => layout.(direction := v) case None => layout
      else if key == "nodeSpacing" then
        match ParseU32(value) case Some(v) => layout.(nodeSpacing := v) case None => layout
      else if key == "rankSpacing" then
        match ParseU32(value) case Some(v) => layout.(rankSpacing := v) case None => layout
      else if key == "cycleBreaking" then
        match ParseCycleBreaking(value) case Some(v) => layout.(cycleBreaking := v) case None => layout
      else if key == "considerModelOrder" then
        match ParseConsiderModelOrder(value) case Some(v) => layout.(considerModelOrder := v) case None => layout
      else if key == "nodePlacement" then
        match ParseNodePlacement(value) case Some(v) => layout.(nodePlacement := v) case None => layout
      else
        layout
  }

  /** The tokens of a line, if it is a layout annotation. */
  function TokensOf(line: string, isSpace: char -> bool): seq<string> {
    var trimmed := Trim(line, isSpace);
    if !(ANNOTATION_TAG <= trimmed) then
      []
    else
      var rest := trimmed[|ANNOTATION_TAG|..];
      if rest != "" && !isSpace(rest[0]) then [] else Words(rest, isSpace)
  }

  function AllTokens(pre: seq<string>, isSpace: char -> bool): seq<string> {
    if pre == [] then [] else AllTokens(pre[..|pre| - 1], isSpace) + TokensOf(pre[|pre| - 1], isSpace)
  }

  /** The last value of a key that can be read, or the default. */
  function Last<T>(tokens: seq<string>, key: string, parse: string -> Option<T>, default: T): T {
    if tokens == [] then
      default
    else
      match SplitOnce(tokens[|tokens| - 1])
      case Some((k, value)) =>
        if k == key && parse(value).Some? then parse(value).value else Last(tokens[..|tokens| - 1], key, parse, default)
      case None => Last(tokens[..|tokens| - 1], key, parse, default)
  }

  /** The layout that tokens give: for each field, the last value that can be read. */
  function Chosen(tokens: seq<string>): SmLayout {
    SmLayout(
      Last(tokens, "engine", ParseLayoutEngine, DEFAULT.engine),
      Last(tokens, "direction", ParseDirection, DEFAULT.direction),
      Last(tokens, "cycleBreaking", ParseCycleBreaking, DEFAULT.cycleBreaking),
      Last(tokens, "considerModelOrder", ParseConsiderModelOrder, DEFAULT.considerModelOrder),
      Last(tokens, "nodePlacement", ParseNodePlacement, DEFAULT.nodePlacement),
      Last(tokens, "nodeSpacing", ParseU32, DEFAULT.nodeSpacing),
      Last(tokens, "rankSpacing", ParseU32, DEFAULT.rankSpacing))
  }

  lemma LastSnoc<T>(tokens: seq<string>, token: string, key: string, parse: string -> Option<T>, default: T)
    ensures Last(tokens + [token], key, parse, default)
         == match SplitOnce(token)
            case Some((k, value)) =>
              if k == key && parse(value).Some? then parse(value).value else Last(tokens, key, parse, default)
            case None => Last(tokens, key, parse, default)
  {
    assert (tokens + [token])[..|tokens|] == tokens;
  }

  /** Each token changes the field of its key, and no other. */
  lemma ChosenSnoc(tokens: seq<string>, token: string)
    ensures Chosen(tokens + [token]) == Set(Chosen(tokens), token)
  {
    hide Last, SplitOnce, ParseLayoutEngine, ParseDirection, ParseCycleBreaking, ParseConsiderModelOrder, ParseNodePlacement,
         ParseU32;
    LastSnoc(tokens, token, "engine", ParseLayoutEngine, DEFAULT.engine);
    LastSnoc(tokens, token, "direction", ParseDirection, DEFAULT.direction);
    LastSnoc(tokens, token, "cycleBreaking", ParseCycleBreaking, DEFAULT.cycleBreaking);
    LastSnoc(tokens, token, "considerModelOrder", ParseConsiderModelOrder, DEFAULT.considerModelOrder);
    LastSnoc(tokens, token, "nodePlacement", ParseNodePlacement, DEFAULT.nodePlacement);
    LastSnoc(tokens, token, "nodeSpacing", ParseU32, DEFAULT.nodeSpacing);
    LastSnoc(tokens, token, "rankSpacing", ParseU32, DEFAULT.rankSpacing);
  }

  /** Later lines and later keys win. */
  method FromAnnotations(pre: seq<string>, isSpace: char -> bool) returns (layout: SmLayout)
    ensures layout == Chosen(AllTokens(pre, isSpace))
  {
    hide Chosen, AllTokens, TokensOf, Words, Trim;
    layout := DEFAULT;
    NoTokens(isSpace);
    assert pre[..0] == [];
    for i := 0 to |pre|
      invariant layout == Chosen(AllTokens(pre[..i], isSpace))
    {
      AllTokensSnoc(pre[..i], pre[i], isSpace);
      assert pre[..i + 1] == pre[..i] + [pre[i]];
      NotALayout(pre[i], isSpace);
      assert AllTokens(pre[..i], isSpace) + [] == AllTokens(pre[..i], isSpace);
      var line := Trim(pre[i], isSpace);
      if !(ANNOTATION_TAG <= line) {
        continue;
      }
      var rest := line[|ANNOTATION_TAG|..];
      if rest != "" && !isSpace(rest[0]) {
        continue;
      }
      var tokens := Words(rest, isSpace);
      ghost var before := AllTokens(pre[..i], isSpace);
      assert tokens[..0] == [] && before + [] == before;
      for j := 0 to |tokens|
        invariant layout == Chosen(before + tokens[..j])
      {
        ChosenSnoc(before + tokens[..j], tokens[j]);
        assert before + tokens[..j + 1] == before + tokens[..j] + [tokens[j]];
        layout := Set(layout, tokens[j]);
      }
      assert tokens[..|tokens|] == tokens;
    }
    assert pre[..|pre|] == pre;
  }

  lemma NoTokens(isSpace: char -> bool)
    ensures AllTokens([], isSpace) == [] && Chosen([]) == DEFAULT
  {
  }

  lemma AllTokensSnoc(pre: seq<string>, line: string, isSpace: char -> bool)
    ensures AllTokens(pre + [line], isSpace) == AllTokens(pre, isSpace) + TokensOf(line, isSpace)
  {
    hide TokensOf;
    assert (pre + [line])[..|pre|] == pre;
  }

  lemma NotALayout(line: string, isSpace: char -> bool)
    ensures var trimmed := Trim(line, isSpace);
            if !(ANNOTATION_TAG <= trimmed) then TokensOf(line, isSpace) == []
            else
              var rest := trimmed[|ANNOTATION_TAG|..];
              TokensOf(line, isSpace) == if rest != "" && !isSpace(rest[0]) then [] else Words(rest, isSpace)
  {
    hide Words, Trim;
  }

  // ---- Writing annotations ------------------------------------------------------------------------

  /** The text of an annotation for a layout. */
  function ToAnnotation(l: SmLayout): string {
    ANNOTATION_TAG + " engine=" + LayoutEngineElk(l.engine) + " direction=" + DirectionElk(l.direction)
    + " cycleBreaking=" + CycleBreakingElk(l.cycleBreaking) + " considerModelOrder="
    + ConsiderModelOrderElk(l.considerModelOrder) + " nodePlacement=" + NodePlacementElk(l.nodePlacement)
    + " nodeSpacing=" + Print(l.nodeSpacing) + " rankSpacing=" + Print(l.rankSpacing)
  }

  // ---- Round trip ---------------------------------------------------------------------------------

  function TokensFor(l: SmLayout): seq<string> {
    ["engine" + "=" + LayoutEngineElk(l.engine),
     "direction" + "=" + DirectionElk(l.direction),
     "cycleBreaking" + "=" + CycleBreakingElk(l.cycleBreaking),
     "considerModelOrder" + "=" + ConsiderModelOrderElk(l.considerModelOrder),
     "nodePlacement" + "=" + NodePlacementElk(l.nodePlacement),
     "nodeSpacing" + "=" + Print(l.nodeSpacing),
     "rankSpacing" + "=" + Print(l.rankSpacing)]
  }

  lemma SpacedSnoc(words: seq<string>, w: string)
    ensures Spaced(words + [w]) == Spaced(words) + " " + w
  {
    if words == [] {
      assert [] + [w] == [w] && [w][1..] == [];
      assert "" + " " + w == " " + w + "";
    } else {
      assert (words + [w])[1..] == words[1..] + [w];
      SpacedSnoc(words[1..], w);
      assert " " + words[0] + (Spaced(words[1..]) + " " + w) == " " + words[0] + Spaced(words[1..]) + " " + w;
    }
  }

  /** One more key and value at the end of an annotation. */
  lemma OneMoreToken(text: string, tag: string, words: seq<string>, spacedKey: string, key: string, value: string)
    requires text == tag + Spaced(words) && spacedKey == " " + key + "="
    ensures text + spacedKey + value == tag + Spaced(words + [key + "=" + value])
  {
    SpacedSnoc(words, key + "=" + value);
    assert spacedKey + value == " " + (key + "=" + value);
    assert text + spacedKey + value == text + (spacedKey + value);
    assert tag + Spaced(words) + (" " + (key + "=" + value)) == tag + (Spaced(words) + " " + (key + "=" + value));
  }

  /** The annotation up to the ELK strategies. */
  function FirstHalf(l: SmLayout): string {
    ANNOTATION_TAG + " engine=" + LayoutEngineElk(l.engine) + " direction=" + DirectionElk(l.direction)
    + " cycleBreaking=" + CycleBreakingElk(l.cycleBreaking)
  }

  lemma FirstHalfIsSpaced(l: SmLayout)
    ensures FirstHalf(l) == ANNOTATION_TAG + Spaced(TokensFor(l)[..3])
  {
    hide LayoutEngineElk, DirectionElk, CycleBreakingElk, ConsiderModelOrderElk, NodePlacementElk, Print, Spaced;
    var tag, w := ANNOTATION_TAG, TokensFor(l);
    NothingSpaced();
    assert tag == tag + "";
    assert w[..1] == [] + [w[0]] && w[..2] == w[..1] + [w[1]] && w[..3] == w[..2] + [w[2]];
    var t1 := tag + " engine=" + LayoutEngineElk(l.engine);
    OneMoreToken(tag, tag, [], " engine=", "engine", LayoutEngineElk(l.engine));
    var t2 := t1 + " direction=" + DirectionElk(l.direction);
    OneMoreToken(t1, tag, w[..1], " direction=", "direction", DirectionElk(l.direction));
    OneMoreToken(t2, tag, w[..2], " cycleBreaking=", "cycleBreaking", CycleBreakingElk(l.cycleBreaking));
  }

  lemma AnnotationIsSpaced(l: SmLayout)
    ensures ToAnnotation(l) == ANNOTATION_TAG + Spaced(TokensFor(l))
  {
    hide LayoutEngineElk, DirectionElk, CycleBreakingElk, ConsiderModelOrderElk, NodePlacementElk, Print, Spaced;
    var tag, w, t3 := ANNOTATION_TAG, TokensFor(l), FirstHalf(l);
    FirstHalfIsSpaced(l);
    assert w[..4] == w[..3] + [w[3]] && w[..5] == w[..4] + [w[4]] && w[..6] == w[..5] + [w[5]] && w == w[..6] + [w[6]];
    var t4 := t3 + " considerModelOrder=" + ConsiderModelOrderElk(l.considerModelOrder);
    OneMoreToken(t3, tag, w[..3], " considerModelOrder=", "considerModelOrder", ConsiderModelOrderElk(l.considerModelOrder));
    var t5 := t4 + " nodePlacement=" + NodePlacementElk(l.nodePlacement);
    OneMoreToken(t4, tag, w[..4], " nodePlacement=", "nodePlacement", NodePlacementElk(l.nodePlacement));
    var t6 := t5 + " nodeSpacing=" + Print(l.nodeSpacing);
    OneMoreToken(t5, tag, w[..5], " nodeSpacing=", "nodeSpacing", Print(l.nodeSpacing));
    OneMoreToken(t6, tag, w[..6], " rankSpacing=", "rankSpacing", Print(l.rankSpacing));
  }

  lemma NothingSpaced()
    ensures Spaced([]) == ""
  {
  }

  // The names by which ELK and Mermaid know the options.
  const ENGINES := map["elk" := Elk, "dagre" := Dagre]
  const DIRECTIONS := map["TB" := TopBottom, "BT" := BottomTop, "LR" := LeftRight, "RL" := RightLeft]
  const CYCLE_BREAKINGS := map["MODEL_ORDER" := ModelOrder, "GREEDY_MODEL_ORDER" := GreedyModelOrder, "GREEDY" := Greedy,
                               "DEPTH_FIRST" := DepthFirst]
  const MODEL_ORDERS := map["NODES_AND_EDGES" := NodesAndEdges, "PREFER_EDGES" := PreferEdges, "PREFER_NODES" := PreferNodes,
                            "NONE" := NoOrder]
  const PLACEMENTS := map["BRANDES_KOEPF" := BrandesKoepf, "NETWORK_SIMPLEX" := NetworkSimplex,
                          "LINEAR_SEGMENTS" := LinearSegments, "SIMPLE" := Simple]

  function NamedBy<T>(names: map<string, T>, s: string): Option<T> {
    if s in names then Some(names[s]) else None
  }

  lemma EngineIsNamed(x: LayoutEngine, s: string)
    ensures ParseLayoutEngine(s) == NamedBy(ENGINES, s)
    ensures ParseLayoutEngine(s) == Some(x) <==> s == LayoutEngineElk(x)
  {
  }

  lemma DirectionIsNamed(x: Direction, s: string)
    ensures ParseDirection(s) == NamedBy(DIRECTIONS, s)
    ensures ParseDirection(s) == Some(x) <==> s == DirectionElk(x)
  {
  }

  lemma CycleBreakingIsNamed(x: CycleBreaking, s: string)
    ensures ParseCycleBreaking(s) == NamedBy(CYCLE_BREAKINGS, s)
    ensures ParseCycleBreaking(s) == Some(x) <==> s == CycleBreakingElk(x)
  {
  }

  lemma ModelOrderIsNamed(x: ConsiderModelOrder, s: string)
    ensures ParseConsiderModelOrder(s) == NamedBy(MODEL_ORDERS, s)
    ensures ParseConsiderModelOrder(s) == Some(x) <==> s == ConsiderModelOrderElk(x)
  {
  }

  lemma PlacementIsNamed(x: NodePlacement, s: string)
    ensures ParseNodePlacement(s) == NamedBy(PLACEMENTS, s)
    ensures ParseNodePlacement(s) == Some(x) <==> s == NodePlacementElk(x)
  {
  }

  /** A string is read as the option that it names, and every option is written as the one string that
      names it. */
  lemma OptionsRoundTrip(l: SmLayout, s: string)
    ensures ParseLayoutEngine(s) == NamedBy(ENGINES, s) && (ParseLayoutEngine(s) == Some(l.engine) <==> s == LayoutEngineElk(l.engine))
    ensures ParseDirection(s) == NamedBy(DIRECTIONS, s) && (ParseDirection(s) == Some(l.direction) <==> s == DirectionElk(l.direction))
    ensures ParseCycleBreaking(s) == NamedBy(CYCLE_BREAKINGS, s) && (ParseCycleBreaking(s) == Some(l.cycleBreaking) <==> s == CycleBreakingElk(l.cycleBreaking))
    ensures ParseConsiderModelOrder(s) == NamedBy(MODEL_ORDERS, s) && (ParseConsiderModelOrder(s) == Some(l.considerModelOrder) <==> s == ConsiderModelOrderElk(l.considerModelOrder))
    ensures ParseNodePlacement(s) == NamedBy(PLACEMENTS, s) && (ParseNodePlacement(s) == Some(l.nodePlacement) <==> s == NodePlacementElk(l.nodePlacement))
  {
    hide *;
    EngineIsNamed(l.engine, s);
    DirectionIsNamed(l.direction, s);
    CycleBreakingIsNamed(l.cycleBreaking, s);
    ModelOrderIsNamed(l.considerModelOrder, s);
    PlacementIsNamed(l.nodePlacement, s);
  }

  predicate IsPrintable(s: string) {
    forall i :: 0 <= i < |s| ==> '!' <= s[i] <= '~'
  }

  lemma PrintableConcat(a: string, b: string)
    ensures IsPrintable(a) && IsPrintable(b) ==> IsPrintable(a + b)
  {
  }

  lemma PrintableOrders(l: SmLayout)
    ensures IsPrintable(CycleBreakingElk(l.cycleBreaking)) && IsPrintable(ConsiderModelOrderElk(l.considerModelOrder))
  {
  }

  lemma PrintablePlacement(l: SmLayout)
    ensures IsPrintable(NodePlacementElk(l.nodePlacement))
    ensures IsPrintable(LayoutEngineElk(l.engine)) && IsPrintable(DirectionElk(l.direction))
  {
  }

  lemma PrintableNumbers(l: SmLayout)
    ensures IsPrintable(Print(l.nodeSpacing)) && IsPrintable(Print(l.rankSpacing))
  {
    hide Print;
  }

  lemma PrintableToken(key: string, value: string, isSpace: char -> bool)
    requires IsSpacing(isSpace) && IsPrintable(key) && IsPrintable(value)
    ensures IsWord(key + "=" + value, isSpace)
  {
    PrintableConcat(key, "=");
    PrintableConcat(key + "=", value);
  }

  lemma TokensAreWords(l: SmLayout, isSpace: char -> bool)
    requires IsSpacing(isSpace)
    ensures forall i :: 0 <= i < |TokensFor(l)| ==> IsWord(TokensFor(l)[i], isSpace)
  {
    hide LayoutEngineElk, DirectionElk, CycleBreakingElk, ConsiderModelOrderElk, NodePlacementElk, Print, IsWord, IsPrintable;
    PrintableOrders(l);
    PrintablePlacement(l);
    PrintableNumbers(l);
    PrintableKeys();
    PrintableToken("engine", LayoutEngineElk(l.engine), isSpace);
    PrintableToken("direction", DirectionElk(l.direction), isSpace);
    PrintableToken("cycleBreaking", CycleBreakingElk(l.cycleBreaking), isSpace);
    PrintableToken("considerModelOrder", ConsiderModelOrderElk(l.considerModelOrder), isSpace);
    PrintableToken("nodePlacement", NodePlacementElk(l.nodePlacement), isSpace);
    PrintableToken("nodeSpacing", Print(l.nodeSpacing), isSpace);
    PrintableToken("rankSpacing", Print(l.rankSpacing), isSpace);
  }

  lemma PrintableKeys()
    ensures IsPrintable("engine") && IsPrintable("direction") && IsPrintable("cycleBreaking")
    ensures IsPrintable("considerModelOrder") && IsPrintable("nodePlacement")
    ensures IsPrintable("nodeSpacing") && IsPrintable("rankSpacing")
  {
  }

  lemma TrimNothing(s: string, isSpace: char -> bool)
    requires s != "" && !isSpace(s[0]) && !isSpace(s[|s| - 1])
    ensures Trim(s, isSpace) == s
  {
  }

  /** The tokens of a written annotation are those it was written with. */
  lemma AnnotationTokens(l: SmLayout, isSpace: char -> bool)
    requires IsSpacing(isSpace)
    ensures TokensOf(ToAnnotation(l), isSpace) == TokensFor(l)
  {
    hide TokensFor, Words, Spaced, ToAnnotation, Trim, Print;
    var text, spaced := ToAnnotation(l), Spaced(TokensFor(l));
    AnnotationIsSpaced(l);
    TokensAreWords(l, isSpace);
    WordsRoundTrip(TokensFor(l), isSpace);
    EndsWithDigit(l);
    TrimNothing(text, isSpace);
    assert text[|ANNOTATION_TAG|..] == spaced && text[..|ANNOTATION_TAG|] == ANNOTATION_TAG;
    NotALayout(text, isSpace);
  }

  lemma EndsWithDigit(l: SmLayout)
    ensures ToAnnotation(l) != "" && ToAnnotation(l)[0] == 'd' && IsDigit(ToAnnotation(l)[|ToAnnotation(l)| - 1])
  {
    hide LayoutEngineElk, DirectionElk, CycleBreakingElk, ConsiderModelOrderElk, NodePlacementElk;
    assert IsDigit(Print(l.rankSpacing)[|Print(l.rankSpacing)| - 1]);
  }

  lemma SetOptions(x: SmLayout, l: SmLayout, token: string)
    ensures SplitOnce(token) == Some(("engine", LayoutEngineElk(l.engine))) ==> Set(x, token) == x.(engine := l.engine)
    ensures SplitOnce(token) == Some(("direction", DirectionElk(l.direction))) ==>
        Set(x, token) == x.(direction := l.direction)
    ensures SplitOnce(token) == Some(("cycleBreaking", CycleBreakingElk(l.cycleBreaking))) ==>
        Set(x, token) == x.(cycleBreaking := l.cycleBreaking)
  {
    hide SplitOnce, ParseU32;
  }

  lemma SetStrategies(x: SmLayout, l: SmLayout, token: string)
    ensures SplitOnce(token) == Some(("considerModelOrder", ConsiderModelOrderElk(l.considerModelOrder))) ==>
        Set(x, token) == x.(considerModelOrder := l.considerModelOrder)
    ensures SplitOnce(token) == Some(("nodePlacement", NodePlacementElk(l.nodePlacement))) ==>
        Set(x, token) == x.(nodePlacement := l.nodePlacement)
  {
    hide SplitOnce, ParseU32;
  }

  lemma SetNumbers(x: SmLayout, l: SmLayout, token: string)
    ensures SplitOnce(token) == Some(("nodeSpacing", Print(l.nodeSpacing))) ==> Set(x, token) == x.(nodeSpacing := l.nodeSpacing)
    ensures SplitOnce(token) == Some(("rankSpacing", Print(l.rankSpacing))) ==> Set(x, token) == x.(rankSpacing := l.rankSpacing)
  {
    hide SplitOnce, ParseU32, Print;
    NumberRoundTrip(l.nodeSpacing);
    NumberRoundTrip(l.rankSpacing);
  }

  /** Whatever the tokens before, those of a layout set every field. */
  lemma TokensSetAll(tokens: seq<string>, l: SmLayout)
    ensures Chosen(tokens + TokensFor(l)) == l
  {
    hide Chosen, SplitOnce, Print, ParseU32, Set, LayoutEngineElk, DirectionElk, CycleBreakingElk, ConsiderModelOrderElk,
         NodePlacementElk, TokensFor;
    var w := TokensFor(l);
    SplitTokens(l);
    SevenMore(tokens, w);
    var x0 := Chosen(tokens);
    SetOptions(x0, l, w[0]);
    var x1 := x0.(engine := l.engine);
    SetOptions(x1, l, w[1]);
    var x2 := x1.(direction := l.direction);
    SetOptions(x2, l, w[2]);
    var x3 := x2.(cycleBreaking := l.cycleBreaking);
    SetStrategies(x3, l, w[3]);
    var x4 := x3.(considerModelOrder := l.considerModelOrder);
    SetStrategies(x4, l, w[4]);
    var x5 := x4.(nodePlacement := l.nodePlacement);
    SetNumbers(x5, l, w[5]);
    SetNumbers(x5.(nodeSpacing := l.nodeSpacing), l, w[6]);
  }

  lemma SplitTokens(l: SmLayout)
    ensures var w := TokensFor(l);
            && |w| == 7
            && SplitOnce(w[0]) == Some(("engine", LayoutEngineElk(l.engine)))
            && SplitOnce(w[1]) == Some(("direction", DirectionElk(l.direction)))
            && SplitOnce(w[2]) == Some(("cycleBreaking", CycleBreakingElk(l.cycleBreaking)))
            && SplitOnce(w[3]) == Some(("considerModelOrder", ConsiderModelOrderElk(l.considerModelOrder)))
            && SplitOnce(w[4]) == Some(("nodePlacement", NodePlacementElk(l.nodePlacement)))
            && SplitOnce(w[5]) == Some(("nodeSpacing", Print(l.nodeSpacing)))
            && SplitOnce(w[6]) == Some(("rankSpacing", Print(l.rankSpacing)))
  {
    hide SplitOnce, LayoutEngineElk, DirectionElk, CycleBreakingElk, ConsiderModelOrderElk, NodePlacementElk, Print;
    SplitOnceIs("engine", LayoutEngineElk(l.engine));
    SplitOnceIs("direction", DirectionElk(l.direction));
    SplitOnceIs("cycleBreaking", CycleBreakingElk(l.cycleBreaking));
    SplitOnceIs("considerModelOrder", ConsiderModelOrderElk(l.considerModelOrder));
    SplitOnceIs("nodePlacement", NodePlacementElk(l.nodePlacement));
    SplitOnceIs("nodeSpacing", Print(l.nodeSpacing));
    SplitOnceIs("rankSpacing", Print(l.rankSpacing));
  }

  lemma SevenMore(tokens: seq<string>, w: seq<string>)
    requires |w| == 7
    ensures Chosen(tokens + w)
         == Set(Set(Set(Set(Set(Set(Set(Chosen(tokens), w[0]), w[1]), w[2]), w[3]), w[4]), w[5]), w[6])
  {
    hide Chosen, Set;
    forall i | 0 <= i < 7
      ensures Chosen(tokens + w[..i + 1]) == Set(Chosen(tokens + w[..i]), w[i])
    {
      ChosenSnoc(tokens + w[..i], w[i]);
      assert tokens + w[..i + 1] == tokens + w[..i] + [w[i]];
    }
    assert tokens + w[..0] == tokens && tokens + w[..7] == tokens + w;
    assert Chosen(tokens + w[..1]) == Set(Chosen(tokens + w[..0]), w[0]);
    assert Chosen(tokens + w[..2]) == Set(Chosen(tokens + w[..1]), w[1]);
    assert Chosen(tokens + w[..3]) == Set(Chosen(tokens + w[..2]), w[2]);
    assert Chosen(tokens + w[..4]) == Set(Chosen(tokens + w[..3]), w[3]);
    assert Chosen(tokens + w[..5]) == Set(Chosen(tokens + w[..4]), w[4]);
    assert Chosen(tokens + w[..6]) == Set(Chosen(tokens + w[..5]), w[5]);
    assert Chosen(tokens + w[..7]) == Set(Chosen(tokens + w[..6]), w[6]);
  }

  /** A written layout is read back, whatever annotations come before it. */
  lemma AnnotationRoundTrip(pre: seq<string>, l: SmLayout, isSpace: char -> bool)
    requires IsSpacing(isSpace)
    ensures Chosen(AllTokens(pre + [ToAnnotation(l)], isSpace)) == l
  {
    hide Chosen, ToAnnotation, TokensOf, TokensFor, AllTokens;
    AllTokensSnoc(pre, ToAnnotation(l), isSpace);
    AnnotationTokens(l, isSpace);
    TokensSetAll(AllTokens(pre, isSpace), l);
  }
}
