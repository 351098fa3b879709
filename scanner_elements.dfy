/**
 * The scanner's line elements: what each kind of line records (location,
 * keyword, text, child items), how a line renders in the scanner's textual
 * output, the classifiers that build a line from its tokens, and the
 * `ScannerLineType` view of a line.
 */
module ScannerElements {
  import opened Common
  import opened Keywords
  import opened Matchers
  import opened Tokens

  /**
   * The kinds of scanner element. `Rule` is the element the classifier chain
   * builds; `RuleLine` is a second rule element that the chain never uses.
   */
  datatype LineKind =
    | BackgroundLine | ExamplesLine | FeatureLine | RuleLine | RuleElement | ScenarioLine | StepLine
    | Language | Comment | DocStringSeparator | TagLine | TableRow | Other | Empty | EndOfFile

  /** `typeIdentifier` of each element type. */
  function TypeIdentifier(k: LineKind): string {
    match k
    case BackgroundLine => "BackgroundLine"
    case ExamplesLine => "ExamplesLine"
    case FeatureLine => "FeatureLine"
    case RuleLine => "RuleLine"
    case RuleElement => "Rule"
    case ScenarioLine => "ScenarioLine"
    case StepLine => "StepLine"
    case Language => "Language"
    case Comment => "Comment"
    case DocStringSeparator => "DocStringSeparator"
    case TagLine => "TagLine"
    case TableRow => "TableRow"
    case Other => "Other"
    case Empty => "Empty"
    case EndOfFile => "EOF"
  }

  /** `ScannerElementChildItem`: a cell or tag of a line, with its location. */
  datatype ChildItem = ChildItem(location: Location, value: string)

  /**
   * A scanner element. Fields an element type does not define take the
   * protocol defaults: empty keyword, empty text, no items. `tokens` holds
   * the tokens for the element types that keep them, and is empty otherwise.
   */
  datatype Line = Line(
    kind: LineKind,
    location: Location,
    keywordIdentifier: string,
    text: string,
    items: seq<ChildItem>,
    tokens: seq<Token>)

  /** An element with every field at its default. */
  function Plain(kind: LineKind, location: Location): Line {
    Line(kind, location, "", "", [], [])
  }

  /** `EmptyScannerElement(location:)`. */
  function EmptyAt(location: Location): Line {
    Plain(Empty, location)
  }

  // ---------------------------------------------------------------------
  // Descriptions
  // ---------------------------------------------------------------------

  /** `ScannerElementChildItem.elementDescription`: `column:value`. */
  function ItemDescription(item: ChildItem): string {
    IntToString(item.location.column) + ":" + item.value
  }

  function ItemDescriptions(items: seq<ChildItem>): (r: seq<string>)
    ensures |r| == |items|
    ensures forall i | 0 <= i < |items| :: r[i] == ItemDescription(items[i])
  {
    seq(|items|, i requires 0 <= i < |items| => ItemDescription(items[i]))
  }

  /** The items of a line, each as `column:value`, joined by commas. */
  function ItemsDescription(items: seq<ChildItem>): string {
    Join(ItemDescriptions(items), ",")
  }

  /** The `(line:column)` that opens a description. */
  function LocationPrefix(location: Location): string {
    "(" + IntToString(location.line) + ":" + IntToString(location.column) + ")"
  }

  /**
   * `elementDescription`: `(line:column)Type:keyword/text/items`, except for
   * the end-of-file element, which renders as `EOF`.
   */
  function Description(l: Line): (r: string)
    ensures r == "EOF" <==> l.kind == EndOfFile
    ensures l.kind != EndOfFile ==> |r| > 0 && r[0] == '('
  {
    if l.kind == EndOfFile then "EOF"
    else
      LocationPrefix(l.location) + TypeIdentifier(l.kind) + ":" + l.keywordIdentifier + "/" + l.text + "/"
      + ItemsDescription(l.items)
  }

  /** An element whose fields are all at their defaults renders as its location and type and nothing else. */
  lemma PlainDescription(l: Line)
    requires l.kind != EndOfFile && l.keywordIdentifier == "" && l.text == "" && l.items == []
    ensures Description(l) == LocationPrefix(l.location) + TypeIdentifier(l.kind) + "://"
  {
    var head := LocationPrefix(l.location) + TypeIdentifier(l.kind);
    assert ItemsDescription([]) == "";
    assert Description(l) == head + ":" + "" + "/" + "" + "/" + "";
    DefaultFieldsRender(head);
  }

  /** Empty keyword, text and items add only their separators. */
  lemma DefaultFieldsRender(head: string)
    ensures head + ":" + "" + "/" + "" + "/" + "" == head + "://"
  {
    assert head + ":" + "" + "/" + "" + "/" + "" == head + ":" + "/" + "/";
  }

  /** An empty element renders with its line, its column and nothing else. */
  lemma EmptyDescription(location: Location)
    ensures Description(EmptyAt(location))
      == "(" + IntToString(location.line) + ":" + IntToString(location.column) + ")Empty://"
  {
    PlainDescription(EmptyAt(location));
    var head := LocationPrefix(location);
    assert head + "Empty" + "://" == head + "Empty://";
  }

  /**
   * A line with one item renders that item as `column:value` after the last
   * slash, with no comma.
   */
  lemma SingleItemDescription(l: Line)
    requires l.kind != EndOfFile && |l.items| == 1
    ensures var d := Description(l); var item := ItemDescription(l.items[0]);
      |item| < |d| && d[|d| - |item|..] == item && d[|d| - |item| - 1] == '/'
  {
    var item := ItemDescription(l.items[0]);
    assert ItemsDescription(l.items) == item;
    var d := Description(l);
    var head := LocationPrefix(l.location)
      + TypeIdentifier(l.kind) + ":" + l.keywordIdentifier + "/" + l.text + "/";
    assert d == head + item;
    assert d[|d| - |item|..] == item;
    assert d[|d| - |item| - 1] == head[|head| - 1];
  }

  // ---------------------------------------------------------------------
  // Token helpers
  // ---------------------------------------------------------------------

  /** The text of each token, a missing one as "". */
  function Values(ts: seq<Token>): (r: seq<string>)
    ensures |r| == |ts|
    ensures forall i | 0 <= i < |ts| :: r[i] == ts[i].value.GetOr("")
  {
    seq(|ts|, i requires 0 <= i < |ts| => ts[i].value.GetOr(""))
  }

  /** The text of a run of tokens: their values separated by single spaces. */
  function TokensValue(ts: seq<Token>): string {
    Join(Values(ts), " ")
  }

  /** A keyword spelling without its trailing colon. */
  function RemovingColon(s: string): (r: string)
    ensures s != [] && s[|s| - 1] == ':' ==> s == r + ":"
    ensures !(s != [] && s[|s| - 1] == ':') ==> r == s
  {
    if s != [] && s[|s| - 1] == ':' then s[..|s| - 1] else s
  }

  /** `padded(leading:)`: `n` spaces in front of the text; none when `n` is not positive. */
  function Padded(s: string, n: int): (r: string)
    ensures n <= 0 ==> r == s
    ensures n > 0 ==> |r| == n + |s| && r[n..] == s && forall i | 0 <= i < n :: r[i] == ' '
  {
    if n <= 0 then s else seq(n, _ => ' ') + s
  }

  // ---------------------------------------------------------------------
  // Table rows
  // ---------------------------------------------------------------------

  /** The empty expression put between two adjacent pipes, at the second pipe. */
  function Filler(location: Location): Token {
    Token(Expression(""), None, location)
  }

  predicate IsFiller(t: Token) {
    t.tokenType == Expression("") && t.value.None?
  }

  predicate AdjacentPipes(ts: seq<Token>, i: int) {
    0 <= i < |ts| - 1 && IsPipe(ts[i]) && IsPipe(ts[i + 1])
  }

  /** The number of places where two pipes follow each other. */
  function PipePairs(ts: seq<Token>): (n: nat)
    ensures n <= |ts|
  {
    if |ts| <= 1 then 0
    else (if IsPipe(ts[0]) && IsPipe(ts[1]) then 1 else 0) + PipePairs(ts[1..])
  }

  /**
   * `fillWithEmptyExpressionsBetweenDoublePipes`: an empty expression is
   * put between every two adjacent pipes, so each empty cell gets an
   * expression of its own. Nothing else is added and the ends are kept.
   */
  function Fill(ts: seq<Token>): (r: seq<Token>)
    ensures |r| == |ts| + PipePairs(ts)
    ensures forall i :: !AdjacentPipes(r, i)
    ensures |ts| > 0 ==> |r| > 0 && r[0] == ts[0] && r[|r| - 1] == ts[|ts| - 1]
  {
    if |ts| <= 1 then ts
    else if IsPipe(ts[0]) && IsPipe(ts[1]) then
      var rest := Fill(ts[1..]);
      var r := [ts[0], Filler(ts[1].location)] + rest;
      assert forall i | 2 <= i < |r| :: r[i] == rest[i - 2];
      assert forall i | 1 <= i < |r| - 1 :: !AdjacentPipes(r, i) by {
        forall i | 1 <= i < |r| - 1 ensures !AdjacentPipes(r, i) {
          if i >= 2 {
            assert !AdjacentPipes(rest, i - 2);
          }
        }
      }
      r
    else
      var rest := Fill(ts[1..]);
      var r := [ts[0]] + rest;
      assert forall i | 1 <= i < |r| :: r[i] == rest[i - 1];
      assert forall i | 1 <= i < |r| - 1 :: !AdjacentPipes(r, i) by {
        forall i | 1 <= i < |r| - 1 ensures !AdjacentPipes(r, i) {
          assert !AdjacentPipes(rest, i - 1);
        }
      }
      r
  }

  /** The tokens without the fillers. */
  function Unfill(ts: seq<Token>): (r: seq<Token>) {
    if ts == [] then []
    else if IsFiller(ts[0]) then Unfill(ts[1..])
    else [ts[0]] + Unfill(ts[1..])
  }

  /** Unfilling keeps a token that is not a filler. */
  lemma UnfillKeeps(t: Token, rest: seq<Token>)
    requires !IsFiller(t)
    ensures Unfill([t] + rest) == [t] + Unfill(rest)
  {
    assert ([t] + rest)[1..] == rest;
  }

  /** Unfilling drops a filler. */
  lemma UnfillDrops(t: Token, rest: seq<Token>)
    requires IsFiller(t)
    ensures Unfill([t] + rest) == Unfill(rest)
  {
    assert ([t] + rest)[1..] == rest;
  }

  /** Filling a row and unfilling it again keeps its first token in front of the rest, unfilled. */
  lemma UnfillFillHead(ts: seq<Token>)
    requires |ts| > 1 && !IsFiller(ts[0])
    ensures Unfill(Fill(ts)) == [ts[0]] + Unfill(Fill(ts[1..]))
  {
    if IsPipe(ts[0]) && IsPipe(ts[1]) {
      UnfillFillPipes(ts);
    } else {
      var rest := Fill(ts[1..]);
      assert Fill(ts) == [ts[0]] + rest;
      UnfillKeeps(ts[0], rest);
    }
  }

  /** The same, where the row starts with two pipes and a filler goes between them. */
  lemma UnfillFillPipes(ts: seq<Token>)
    requires |ts| > 1 && !IsFiller(ts[0]) && IsPipe(ts[0]) && IsPipe(ts[1])
    ensures Unfill(Fill(ts)) == [ts[0]] + Unfill(Fill(ts[1..]))
  {
    var rest := Fill(ts[1..]);
    var filler := Filler(ts[1].location);
    assert Fill(ts) == [ts[0]] + ([filler] + rest);
    UnfillDrops(filler, rest);
    UnfillKeeps(ts[0], [filler] + rest);
  }

  /** Removing the fillers gives back the row as the lexer produced it. */
  lemma {:induction false} FillRoundTrip(ts: seq<Token>)
    requires forall i | 0 <= i < |ts| :: !IsFiller(ts[i])
    ensures Unfill(Fill(ts)) == ts
    decreases |ts|
  {
    if |ts| == 1 {
      UnfillKeeps(ts[0], []);
      assert ts == [ts[0]] + [];
    } else if |ts| > 1 {
      var tail := ts[1..];
      FillRoundTrip(tail);
      UnfillFillHead(ts);
      assert ts == [ts[0]] + tail;
    }
  }

  /** A row with no empty cell is left as it is. */
  lemma {:induction false} FillWithoutEmptyCells(ts: seq<Token>)
    requires forall i :: !AdjacentPipes(ts, i)
    ensures Fill(ts) == ts
    decreases |ts|
  {
    if |ts| > 1 {
      assert !AdjacentPipes(ts, 0);
      forall i ensures !AdjacentPipes(ts[1..], i) {
        assert !AdjacentPipes(ts, i + 1);
      }
      FillWithoutEmptyCells(ts[1..]);
      assert ts == [ts[0]] + ts[1..];
    }
  }

  /** The expression tokens, each as a child item with its own location; a missing value becomes "". */
  function ExpressionItems(ts: seq<Token>): (r: seq<ChildItem>)
    ensures |r| <= |ts|
  {
    if ts == [] then []
    else
      (if IsExpression(ts[0]) then [ChildItem(ts[0].location, ts[0].value.GetOr(""))] else [])
      + ExpressionItems(ts[1..])
  }

  lemma {:induction false} ExpressionItemsAppend(a: seq<Token>, b: seq<Token>)
    ensures ExpressionItems(a + b) == ExpressionItems(a) + ExpressionItems(b)
    decreases |a|
  {
    if a == [] {
      assert a + b == b;
    } else {
      assert (a + b)[1..] == a[1..] + b;
      ExpressionItemsAppend(a[1..], b);
    }
  }

  /**
   * `TableRowScannerElement.init?(tokens:)`: a line that begins and ends
   * with a pipe; its items are the expressions once the empty cells are
   * filled.
   */
  function TableRowLine(ts: seq<Token>): (r: Option<Line>)
    ensures r.Some? <==> ts != [] && IsPipe(ts[0]) && IsPipe(ts[|ts| - 1])
    ensures r.Some? ==> (r.value.kind == TableRow && r.value.location == ts[0].location
      && r.value.keywordIdentifier == "" && r.value.text == "")
  {
    if ts != [] && IsPipe(ts[0]) && IsPipe(ts[|ts| - 1]) then
      Some(Line(TableRow, ts[0].location, "", "", ExpressionItems(Fill(ts)), []))
    else None
  }

  /**
   * A row has one item per expression the lexer produced plus one empty
   * item for every two adjacent pipes.
   */
  lemma {:induction false} TableRowCellCount(ts: seq<Token>)
    ensures |ExpressionItems(Fill(ts))| == |ExpressionItems(ts)| + PipePairs(ts)
    decreases |ts|
  {
    if |ts| > 1 {
      TableRowCellCount(ts[1..]);
      var rest := Fill(ts[1..]);
      if IsPipe(ts[0]) && IsPipe(ts[1]) {
        ExpressionItemsAppend([ts[0], Filler(ts[1].location)], rest);
        assert ExpressionItems([ts[0], Filler(ts[1].location)]) == [ChildItem(ts[1].location, "")] by {
          assert [ts[0], Filler(ts[1].location)][1..] == [Filler(ts[1].location)];
          assert [Filler(ts[1].location)][1..] == [];
        }
        assert !IsExpression(ts[0]);
      } else {
        ExpressionItemsAppend([ts[0]], rest);
        assert [ts[0]][1..] == [];
      }
    }
  }

  /**
   * In a row without empty cells the items are exactly the expressions of
   * the line, in order, at their own locations.
   */
  lemma TableRowItemsAreExpressions(ts: seq<Token>)
    requires TableRowLine(ts).Some?
    requires forall i :: !AdjacentPipes(ts, i)
    ensures TableRowLine(ts).value.items == ExpressionItems(ts)
  {
    FillWithoutEmptyCells(ts);
  }

  // ---------------------------------------------------------------------
  // Tag lines
  // ---------------------------------------------------------------------

  /** The tag tokens, each as a child item with its own location. */
  function TagItems(ts: seq<Token>): (r: seq<ChildItem>)
    ensures |r| <= |ts|
  {
    if ts == [] then []
    else
      (if IsTag(ts[0]) then [ChildItem(ts[0].location, ts[0].value.GetOr(""))] else [])
      + TagItems(ts[1..])
  }

  /**
   * `TagLineScannerElement.init?(tokens:)`: a line whose first token is a
   * tag; it keeps its tokens, and its items are its tags.
   */
  function TagLineLine(ts: seq<Token>): (r: Option<Line>)
    ensures r.Some? <==> ts != [] && IsTag(ts[0])
    ensures r.Some? ==> (r.value.kind == TagLine && r.value.location == ts[0].location
      && r.value.tokens == ts && r.value.keywordIdentifier == "" && r.value.text == ""
      && 1 <= |r.value.items| <= |ts|)
  {
    if ts != [] && IsTag(ts[0]) then
      Some(Line(TagLine, ts[0].location, "", "", TagItems(ts), ts))
    else None
  }

  /** When every token of a line is a tag, item `i` is tag `i`, at its location. */
  lemma {:induction false} AllTagsBecomeItems(ts: seq<Token>)
    requires forall i | 0 <= i < |ts| :: IsTag(ts[i])
    ensures |TagItems(ts)| == |ts|
    ensures forall i | 0 <= i < |ts| :: TagItems(ts)[i] == ChildItem(ts[i].location, ts[i].value.GetOr(""))
    decreases |ts|
  {
    if ts != [] {
      AllTagsBecomeItems(ts[1..]);
      var rest := TagItems(ts[1..]);
      assert TagItems(ts) == [ChildItem(ts[0].location, ts[0].value.GetOr(""))] + rest;
      forall i | 1 <= i < |ts|
        ensures TagItems(ts)[i] == ChildItem(ts[i].location, ts[i].value.GetOr(""))
      {
        assert TagItems(ts)[i] == rest[i - 1];
        assert ts[1..][i - 1] == ts[i];
      }
    }
  }

  /** Tokens that are not tags add no item. */
  lemma {:induction false} NonTagsAddNoItems(ts: seq<Token>)
    requires forall i | 0 <= i < |ts| :: !IsTag(ts[i])
    ensures TagItems(ts) == []
    decreases |ts|
  {
    if ts != [] {
      NonTagsAddNoItems(ts[1..]);
    }
  }

  // ---------------------------------------------------------------------
  // Doc-string separators
  // ---------------------------------------------------------------------

  /**
   * `DocStringSeparatorScannerElement.init?(tokens:)`: a line made of one
   * doc-string keyword; the keyword identifier is the fence and the text is
   * the mark, or "" without one.
   */
  function DocStringSeparatorLine(ts: seq<Token>): (r: Option<Line>)
    ensures r.Some? <==> |ts| == 1 && IsDocStringKeyword(ts[0])
    ensures r.Some? ==> (
      var d := ts[0].tokenType.keyword.docString;
      && r.value.kind == DocStringSeparator && r.value.location == ts[0].location
      && r.value.keywordIdentifier == FenceRawValue(d.keyword)
      && r.value.text == d.mark.GetOr("")
      && r.value.items == [])
  {
    if |ts| == 1 && IsDocStringKeyword(ts[0]) then
      var d := ts[0].tokenType.keyword.docString;
      Some(Line(DocStringSeparator, ts[0].location, FenceRawValue(d.keyword), d.mark.GetOr(""), [], []))
    else None
  }

  /**
   * A fence line lexed on its own becomes a separator whose keyword and text,
   * put together, are the text the keyword was matched from.
   */
  lemma SeparatorKeepsMatchedText(sentence: string, location: Location)
    requires MatchNextContent(sentence).Some?
    ensures var m := MatchNextContent(sentence).value;
      var r := DocStringSeparatorLine([Token(KeywordToken(m.keyword), Some(m.value), location)]);
      r.Some? && r.value.keywordIdentifier + r.value.text == m.value
  {
  }

  // ---------------------------------------------------------------------
  // The classifiers of the chain
  // ---------------------------------------------------------------------

  predicate IsScenarioToken(t: Token) {
    IsPrimary(t, Scenario) || IsPrimary(t, ScenarioOutline)
  }

  /**
   * The classifiers built on the first token alone: the keyword is the
   * token's text (without its colon, except for steps), the text is the
   * rest of the line.
   */
  function KeywordLine(kind: LineKind, ts: seq<Token>, keepTokens: bool, dropColon: bool): (r: Line)
    requires ts != []
    ensures r.kind == kind && r.location == ts[0].location && r.items == []
  {
    var spelling := ts[0].value.GetOr("");
    Line(kind, ts[0].location, if dropColon then RemovingColon(spelling) else spelling,
      TokensValue(ts[1..]), [], if keepTokens then ts else [])
  }

  /** When each element type accepts a run of tokens: a condition on its first token, and for separators and rows on its shape. */
  predicate Accepts(kind: LineKind, ts: seq<Token>) {
    ts != [] &&
    match kind
    case BackgroundLine => IsPrimary(ts[0], Background)
    case ExamplesLine => IsPrimary(ts[0], Examples)
    case FeatureLine => IsPrimary(ts[0], Feature)
    case RuleLine => IsPrimary(ts[0], Rule)
    case RuleElement => IsPrimary(ts[0], Rule)
    case ScenarioLine => IsScenarioToken(ts[0])
    case StepLine => IsStep(ts[0])
    case Language => ts[0].tokenType.LanguageToken?
    case Comment => ts[0].tokenType.CommentToken?
    case DocStringSeparator => |ts| == 1 && IsDocStringKeyword(ts[0])
    case TagLine => IsTag(ts[0])
    case TableRow => IsPipe(ts[0]) && IsPipe(ts[|ts| - 1])
    case Other => true
    case Empty => false
    case EndOfFile => ts[0].tokenType.Eof?
  }

  /**
   * `init?(tokens:)` of each element type in the chain: the element the
   * line forms, or none when the line is not of that type.
   */
  function Recognise(kind: LineKind, ts: seq<Token>): (r: Option<Line>)
    ensures r.Some? <==> Accepts(kind, ts)
    ensures r.Some? ==> ts != [] && r.value.kind == kind && r.value.location.line == ts[0].location.line
    ensures r.Some? && kind != TableRow && kind != TagLine ==> r.value.items == []
  {
    if ts == [] then None
    else
      var first := ts[0];
      match kind
      case BackgroundLine =>
        if IsPrimary(first, Background) then Some(KeywordLine(kind, ts, false, true)) else None
      case ExamplesLine =>
        if IsPrimary(first, Examples) then Some(KeywordLine(kind, ts, true, true)) else None
      case FeatureLine =>
        if IsPrimary(first, Feature) then Some(KeywordLine(kind, ts, false, true)) else None
      case RuleLine =>
        if IsPrimary(first, Rule) then Some(KeywordLine(kind, ts, true, true)) else None
      case RuleElement =>
        if IsPrimary(first, Rule) then Some(KeywordLine(kind, ts, false, true)) else None
      case ScenarioLine =>
        if IsScenarioToken(first) then Some(KeywordLine(kind, ts, true, true)) else None
      case StepLine =>
        if IsStep(first) then Some(KeywordLine(kind, ts, false, false)) else None
      case Language =>
        if first.tokenType.LanguageToken? then
          Some(Line(Language, Location(1, first.location.line), "", first.tokenType.languageId, [], []))
        else None
      case Comment =>
        if first.tokenType.CommentToken? then
          Some(Line(Comment, Location(1, first.location.line), "", TokensValue(ts), [], []))
        else None
      case DocStringSeparator => DocStringSeparatorLine(ts)
      case TagLine => TagLineLine(ts)
      case TableRow => TableRowLine(ts)
      case Other =>
        Some(Line(Other, Location(1, first.location.line), "",
          Padded(TokensValue(ts), first.location.column - 1), [], []))
      case Empty => None
      case EndOfFile =>
        if first.tokenType.Eof? then Some(Plain(EndOfFile, first.location)) else None
  }

  /**
   * Only table rows and tag lines have items; every other element keeps the
   * default empty list, and the separator, comment and language elements
   * also the default empty keyword except for the fence.
   */
  lemma DefaultFields(ts: seq<Token>)
    requires ts != []
    ensures Recognise(Language, ts).Some? ==> Recognise(Language, ts).value.keywordIdentifier == ""
    ensures Recognise(Comment, ts).Some? ==> Recognise(Comment, ts).value.keywordIdentifier == ""
    ensures Recognise(Other, ts).value.keywordIdentifier == "" && Recognise(Other, ts).value.items == []
    ensures Recognise(TableRow, ts).Some? ==> Recognise(TableRow, ts).value.text == ""
    ensures Recognise(TagLine, ts).Some? ==> Recognise(TagLine, ts).value.text == ""
  {
  }

  // ---------------------------------------------------------------------
  // ScannerLineType
  // ---------------------------------------------------------------------

  /** `ScannerLineType`: the coarse kinds the rest of the front end asks about. */
  datatype ScannerLineType =
    | FeatureType | BackgroundType | ExamplesType | RuleType | ScenarioType | StepType
    | LanguageType | DocStringType | OtherType | TagType | TableRowType | EofType

  /** The type identifier each line type is recognised by. */
  function IdentifierOf(t: ScannerLineType): string {
    match t
    case FeatureType => TypeIdentifier(FeatureLine)
    case BackgroundType => TypeIdentifier(BackgroundLine)
    case ExamplesType => TypeIdentifier(ExamplesLine)
    case RuleType => TypeIdentifier(RuleLine)
    case ScenarioType => TypeIdentifier(ScenarioLine)
    case StepType => TypeIdentifier(StepLine)
    case LanguageType => TypeIdentifier(Language)
    case DocStringType => TypeIdentifier(DocStringSeparator)
    case OtherType => TypeIdentifier(Other)
    case TagType => TypeIdentifier(TagLine)
    case TableRowType => TypeIdentifier(TableRow)
    case EofType => TypeIdentifier(EndOfFile)
  }

  /**
   * `ScannerLineType.init(type:)`: the line type whose identifier is given;
   * every other identifier gives `eof`.
   */
  function FromIdentifier(id: string): (t: ScannerLineType)
    ensures t != EofType ==> IdentifierOf(t) == id
  {
    if id == "BackgroundLine" then BackgroundType
    else if id == "FeatureLine" then FeatureType
    else if id == "ExamplesLine" then ExamplesType
    else if id == "RuleLine" then RuleType
    else if id == "ScenarioLine" then ScenarioType
    else if id == "StepLine" then StepType
    else if id == "Language" then LanguageType
    else if id == "DocStringSeparator" then DocStringType
    else if id == "Other" then OtherType
    else if id == "TagLine" then TagType
    else if id == "TableRow" then TableRowType
    else EofType
  }

  /** Every line type is recognised by its own identifier. */
  lemma IdentifierRoundTrip(t: ScannerLineType)
    ensures FromIdentifier(IdentifierOf(t)) == t
  {
  }

  /**
   * The elements with no line type of their own: comments, empty lines and
   * the rule element the chain builds are all of type `eof`.
   */
  lemma UnlistedElementsAreEof()
    ensures FromIdentifier(TypeIdentifier(Comment)) == EofType
    ensures FromIdentifier(TypeIdentifier(Empty)) == EofType
    ensures FromIdentifier(TypeIdentifier(RuleElement)) == EofType
    ensures FromIdentifier(TypeIdentifier(EndOfFile)) == EofType
  {
    ShortIdentifierIsEof(TypeIdentifier(RuleElement));
    ShortIdentifierIsEof(TypeIdentifier(EndOfFile));
    assert TypeIdentifier(Comment) == "Comment";
    assert TypeIdentifier(Empty) == "Empty";
  }

  /** No line type has an identifier shorter than five characters. */
  lemma ShortIdentifierIsEof(id: string)
    requires |id| < 5
    ensures FromIdentifier(id) == EofType
  {
  }

  /** `isOf(type:)`: a line is of a type other than `eof` exactly when their identifiers agree. */
  function IsOf(l: Line, t: ScannerLineType): (r: bool)
    ensures t != EofType ==> (r <==> TypeIdentifier(l.kind) == IdentifierOf(t))
  {
    FromIdentifier(TypeIdentifier(l.kind)) == t
  }

  /** Every line is of exactly one line type. */
  lemma OneTypePerLine(l: Line, t: ScannerLineType, u: ScannerLineType)
    requires IsOf(l, t) && IsOf(l, u)
    ensures t == u
  {
  }

  /** `==` between a line and a line type. */
  function Eq(l: Line, t: ScannerLineType): (r: bool)
    ensures r <==> IsOf(l, t)
  {
    IsOf(l, t)
  }

  /** `!=` between a line and a line type: the negation of `==`. */
  function NotEq(l: Line, t: ScannerLineType): (r: bool)
    ensures r <==> !Eq(l, t)
    ensures t != EofType ==> (r <==> TypeIdentifier(l.kind) != IdentifierOf(t))
  {
    !Eq(l, t)
  }
}
