/**
 * The Gherkin keyword vocabulary: primary (section) keywords, step keywords,
 * doc-string fences, the secondary keywords `#`, `"""`, `|` and `@`, and the
 * suffix each kind of keyword carries.
 */
module Keywords {
  import opened Common

  /** Section keywords, in the order of `allCases`. */
  datatype PrimaryKeyword = Feature | Rule | Background | Scenario | ScenarioOutline | Examples

  const AllPrimaryKeywords: seq<PrimaryKeyword> :=
    [Feature, Rule, Background, Scenario, ScenarioOutline, Examples]

  /** The raw value, which is also the key of the keyword's translations. */
  function PrimaryRawValue(k: PrimaryKeyword): string {
    match k
    case Feature => "feature"
    case Rule => "rule"
    case Background => "background"
    case Scenario => "scenario"
    case ScenarioOutline => "scenarioOutline"
    case Examples => "examples"
  }

  datatype StepKeyword = Given | When | Then | And | But

  const AllStepKeywords: seq<StepKeyword> := [Given, When, Then, And, But]

  function StepRawValue(k: StepKeyword): string {
    match k
    case Given => "given"
    case When => "when"
    case Then => "then"
    case And => "and"
    case But => "but"
  }

  /** The two doc-string fences. */
  datatype DocFence = DoubleQuotes | Backticks

  function FenceRawValue(f: DocFence): (r: string)
    ensures |r| == KeyCount
  {
    match f
    case DoubleQuotes => "\"\"\""
    case Backticks => "```"
  }

  const KeyCount: nat := 3

  /**
   * `DocStringKeyword.Keyword(parsing:)`: the fence the text starts with,
   * double quotes taking precedence; none when it starts with neither.
   */
  function ParseFence(s: string): (r: Option<DocFence>)
    ensures r == Some(DoubleQuotes) <==> StartsWith(s, "\"\"\"")
    ensures r == Some(Backticks) <==> !StartsWith(s, "\"\"\"") && StartsWith(s, "```")
    ensures r == None <==> !StartsWith(s, "\"\"\"") && !StartsWith(s, "```")
    ensures r.Some? ==> StartsWith(s, FenceRawValue(r.value))
  {
    if StartsWith(s, FenceRawValue(DoubleQuotes)) then Some(DoubleQuotes)
    else if StartsWith(s, FenceRawValue(Backticks)) then Some(Backticks)
    else None
  }

  /** A doc-string fence with its optional content-type mark. */
  datatype DocStringKeyword = DocStringKeyword(mark: Option<string>, keyword: DocFence)

  /** `lenght`: the number of characters of the fence and its mark. */
  function Length(d: DocStringKeyword): (n: nat)
    ensures n == |FenceRawValue(d.keyword) + d.mark.GetOr("")|
  {
    KeyCount + |d.mark.GetOr("")|
  }

  /** The kinds of `SecondaryKeyword`, with their raw values. */
  datatype KeyType = CommentKey | DocStringsKey | PipeKey | TagKey

  function KeyTypeRawValue(t: KeyType): string {
    match t
    case CommentKey => "#"
    case DocStringsKey => "\"\"\""
    case PipeKey => "|"
    case TagKey => "@"
  }

  /** `SecondaryKeyword`: a key type and its content (`KeyContent` is an option). */
  datatype SecondaryKeyword = SecondaryKeyword(keyType: KeyType, content: Option<string>)

  /**
   * `SecondaryKeyword.init?(keyword:)`. `#` and `|` are recognised only as
   * the whole text; a fence or an `@` only as a prefix of the untrimmed text,
   * with the content taken from the trimmed text.
   */
  function ParseSecondary(keyword: string): (r: Option<SecondaryKeyword>)
    ensures keyword == "#" ==> r == Some(SecondaryKeyword(CommentKey, None))
    ensures keyword == "|" ==> r == Some(SecondaryKeyword(PipeKey, None))
    ensures r.Some? && r.value.keyType == DocStringsKey <==> StartsWith(keyword, "\"\"\"")
    ensures r.Some? && r.value.keyType == TagKey <==>
      !StartsWith(keyword, "\"\"\"") && StartsWith(keyword, "@") && |Trim(keyword)| > 1
    ensures r.None? <==>
      keyword != "#" && keyword != "|" && !StartsWith(keyword, "\"\"\"")
      && !(StartsWith(keyword, "@") && |Trim(keyword)| > 1)
  {
    if keyword == KeyTypeRawValue(CommentKey) then
      Some(SecondaryKeyword(CommentKey, None))
    else if keyword == KeyTypeRawValue(PipeKey) then
      Some(SecondaryKeyword(PipeKey, None))
    else
      var trimmed := Trim(keyword);
      if StartsWith(keyword, KeyTypeRawValue(DocStringsKey)) then
        if |trimmed| <= KeyCount then Some(SecondaryKeyword(DocStringsKey, None))
        else Some(SecondaryKeyword(DocStringsKey, Some(trimmed[KeyCount..])))
      else if StartsWith(keyword, KeyTypeRawValue(TagKey)) then
        if |trimmed| > 1 then Some(SecondaryKeyword(TagKey, Some(trimmed[1..])))
        else None
      else
        None
  }

  /** A prefix that ends in a non-whitespace character survives trimming. */
  lemma {:induction false} TrimKeepsPrefix(s: string, p: string)
    requires StartsWith(s, p) && p != [] && !IsWhitespace(p[0]) && !IsWhitespace(p[|p| - 1])
    ensures StartsWith(Trim(s), p)
  {
    var t := TrimStart(s);
    assert s[0] == p[0];
    assert t == s;
    var r := TrimEnd(t);
    TrimEndDropsWhitespace(t);
    assert s[|p| - 1] == p[|p| - 1];
    assert |r| >= |p|;
    assert r[..|p|] == s[..|p|];
  }

  /** A text whose ends are not whitespace is its own trimming. */
  lemma TrimUnchanged(s: string)
    requires s != [] && !IsWhitespace(s[0]) && !IsWhitespace(s[|s| - 1])
    ensures Trim(s) == s
  {
    TrimKeepsPrefix(s, s);
  }

  /** A text that starts with a doc-string fence renders back from its parse. */
  lemma DocStringRoundTrip(keyword: string)
    requires keyword != "#" && keyword != "|" && StartsWith(keyword, "\"\"\"")
    ensures var k := ParseSecondary(keyword).value;
      k.keyType == DocStringsKey && "\"\"\"" + k.content.GetOr("") == Trim(keyword)
  {
    TrimKeepsPrefix(keyword, "\"\"\"");
    var t := Trim(keyword);
    if |t| <= KeyCount {
      assert t == t[..3];
    } else {
      assert t == t[..3] + t[3..];
    }
  }

  /** A tag renders back from its parse. */
  lemma TagRoundTrip(keyword: string)
    requires keyword != "#" && keyword != "|" && !StartsWith(keyword, "\"\"\"")
    requires StartsWith(keyword, "@") && |Trim(keyword)| > 1
    ensures var k := ParseSecondary(keyword).value;
      k.keyType == TagKey && "@" + k.content.GetOr("") == Trim(keyword)
  {
    TrimKeepsPrefix(keyword, "@");
    var t := Trim(keyword);
    assert t == t[..1] + t[1..];
  }

  /**
   * Rendering a parsed secondary keyword (raw value, then content) gives back
   * the trimmed text it was parsed from.
   */
  lemma SecondaryRoundTrip(keyword: string)
    requires ParseSecondary(keyword).Some?
    ensures var k := ParseSecondary(keyword).value;
      KeyTypeRawValue(k.keyType) + k.content.GetOr("") == Trim(keyword)
  {
    if keyword == "#" || keyword == "|" {
      TrimUnchanged(keyword);
    } else if StartsWith(keyword, "\"\"\"") {
      DocStringRoundTrip(keyword);
    } else {
      TagRoundTrip(keyword);
    }
  }

  /**
   * `GherkinKeyword`: what a keyword token carries. Primary and step keywords
   * come from the language table, doc strings from the fence matcher, and
   * secondary keywords are the tags and pipes the lexer builds itself.
   */
  datatype GherkinKeyword =
    | Primary(primary: PrimaryKeyword)
    | Step(step: StepKeyword)
    | DocString(docString: DocStringKeyword)
    | Secondary(secondary: SecondaryKeyword)

  /** `GherkinKeywordSuffix`. */
  datatype KeywordSuffix = NoSuffix | PartOfKeyword | Discardable(text: string)

  /**
   * The suffix of each keyword: `:` to be discarded after a primary keyword,
   * part of the keyword for doc-string fences and tags, none otherwise.
   */
  function Suffix(k: GherkinKeyword): (r: KeywordSuffix)
    ensures k.Primary? <==> r == Discardable(":")
    ensures k.Secondary? && k.secondary.keyType in {DocStringsKey, TagKey} <==> r == PartOfKeyword
  {
    match k
    case Primary(_) => Discardable(":")
    case Secondary(s) =>
      (match s.keyType
       case CommentKey => NoSuffix
       case PipeKey => NoSuffix
       case DocStringsKey => PartOfKeyword
       case TagKey => PartOfKeyword)
    case _ => NoSuffix
  }

  /**
   * `GherkinSuffix.stringValue`: the text appended to each translation of a
   * keyword to form its spellings; the discardable suffix, or nothing.
   */
  function SuffixText(k: GherkinKeyword): (r: string)
    ensures k.Primary? ==> r == ":"
    ensures !k.Primary? ==> r == ""
  {
    match Suffix(k)
    case Discardable(t) => t
    case _ => ""
  }
}
