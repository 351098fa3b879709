/**
 * Keyword recognition at the start of a line: the localizable matchers that
 * look a line up in the per-language keyword table, the doc-string fence
 * matcher, and the finder that asks each matcher in turn.
 */
module Matchers {
  import opened Common
  import opened Keywords

  /**
   * The per-language keyword table: the translations of a keyword, looked up
   * by language identifier and raw value. Loading it from the bundled JSON
   * file is outside this model.
   */
  type Translations = (string, string) -> seq<string>

  /** No translation in the table is the empty string. */
  ghost predicate WellFormedTable(tr: Translations) {
    forall language, key, i | 0 <= i < |tr(language, key)| :: tr(language, key)[i] != ""
  }

  /** `KeywordMatch`: the keyword recognised and the text that spelled it. */
  datatype KeywordMatch = KeywordMatch(keyword: GherkinKeyword, value: string)

  /** `keywords(language:)`: each translation followed by the keyword's suffix. */
  function Spellings(tr: Translations, language: string, k: GherkinKeyword, raw: string): (r: seq<string>)
    ensures |r| == |tr(language, raw)|
    ensures forall i | 0 <= i < |r| :: r[i] == tr(language, raw)[i] + SuffixText(k)
  {
    var ts := tr(language, raw);
    seq(|ts|, i requires 0 <= i < |ts| => ts[i] + SuffixText(k))
  }

  /** The first spelling, in list order, that is a prefix of the sentence. */
  function FirstPrefix(spellings: seq<string>, sentence: string): (r: Option<string>)
    ensures r.Some? ==> r.value in spellings && StartsWith(sentence, r.value)
    ensures r.None? <==> forall j | 0 <= j < |spellings| :: !StartsWith(sentence, spellings[j])
  {
    if spellings == [] then None
    else if StartsWith(sentence, spellings[0]) then Some(spellings[0])
    else FirstPrefix(spellings[1..], sentence)
  }

  /** Within one keyword, the first listed spelling that matches is the one returned. */
  lemma {:induction false} FirstListedSpellingWins(spellings: seq<string>, sentence: string, j: nat)
    requires j < |spellings| && StartsWith(sentence, spellings[j])
    requires forall j' | 0 <= j' < j :: !StartsWith(sentence, spellings[j'])
    ensures FirstPrefix(spellings, sentence) == Some(spellings[j])
  {
    if j > 0 {
      assert !StartsWith(sentence, spellings[0]);
      FirstListedSpellingWins(spellings[1..], sentence, j - 1);
    }
  }

  /**
   * `LocalizableKeywordMatcher.matches`: the first case, in case order, that
   * has any spelling prefixing the sentence, with that case's first such
   * spelling.
   */
  function FirstCaseMatch<K>(cases: seq<K>, spellingsOf: K -> seq<string>, sentence: string): (r: Option<(K, string)>)
    ensures r.Some? ==> r.value.0 in cases && FirstPrefix(spellingsOf(r.value.0), sentence) == Some(r.value.1)
    ensures r.None? <==> forall i | 0 <= i < |cases| :: FirstPrefix(spellingsOf(cases[i]), sentence).None?
  {
    if cases == [] then None
    else
      match FirstPrefix(spellingsOf(cases[0]), sentence)
      case Some(v) => Some((cases[0], v))
      case None => FirstCaseMatch(cases[1..], spellingsOf, sentence)
  }

  /**
   * The earliest case with a matching spelling wins, even when a later case
   * has a longer matching spelling.
   */
  lemma {:induction false} EarliestCaseWins<K>(cases: seq<K>, spellingsOf: K -> seq<string>, sentence: string, i: nat)
    requires i < |cases| && FirstPrefix(spellingsOf(cases[i]), sentence).Some?
    requires forall i' | 0 <= i' < i :: FirstPrefix(spellingsOf(cases[i']), sentence).None?
    ensures FirstCaseMatch(cases, spellingsOf, sentence)
      == Some((cases[i], FirstPrefix(spellingsOf(cases[i]), sentence).value))
  {
    if i > 0 {
      assert FirstPrefix(spellingsOf(cases[0]), sentence).None?;
      EarliestCaseWins(cases[1..], spellingsOf, sentence, i - 1);
    }
  }

  function PrimarySpellings(tr: Translations, language: string, k: PrimaryKeyword): seq<string> {
    Spellings(tr, language, Primary(k), PrimaryRawValue(k))
  }

  function StepSpellings(tr: Translations, language: string, k: StepKeyword): seq<string> {
    Spellings(tr, language, Step(k), StepRawValue(k))
  }

  /** `LocalizableKeywordMatcher<PrimaryKeyword>`. */
  function MatchPrimary(sentence: string, language: string, tr: Translations): (r: Option<KeywordMatch>)
    ensures r.Some? ==> r.value.keyword.Primary? && StartsWith(sentence, r.value.value)
    ensures r.Some? ==> r.value.value in PrimarySpellings(tr, language, r.value.keyword.primary)
    ensures r.None? <==> forall i | 0 <= i < |AllPrimaryKeywords| ::
      FirstPrefix(PrimarySpellings(tr, language, AllPrimaryKeywords[i]), sentence).None?
  {
    match FirstCaseMatch(AllPrimaryKeywords, k => PrimarySpellings(tr, language, k), sentence)
    case None => None
    case Some(m) => Some(KeywordMatch(Primary(m.0), m.1))
  }

  /** `LocalizableKeywordMatcher<StepKeyword>`. */
  function MatchStep(sentence: string, language: string, tr: Translations): (r: Option<KeywordMatch>)
    ensures r.Some? ==> r.value.keyword.Step? && StartsWith(sentence, r.value.value)
    ensures r.Some? ==> r.value.value in StepSpellings(tr, language, r.value.keyword.step)
    ensures r.None? <==> forall i | 0 <= i < |AllStepKeywords| ::
      FirstPrefix(StepSpellings(tr, language, AllStepKeywords[i]), sentence).None?
  {
    match FirstCaseMatch(AllStepKeywords, k => StepSpellings(tr, language, k), sentence)
    case None => None
    case Some(m) => Some(KeywordMatch(Step(m.0), m.1))
  }

  /** The number of leading spaces. */
  function LeadingSpaces(s: string): (n: nat)
    ensures n <= |s|
    ensures forall i | 0 <= i < n :: s[i] == ' '
    ensures n < |s| ==> s[n] != ' '
  {
    if s != [] && s[0] == ' ' then 1 + LeadingSpaces(s[1..]) else 0
  }

  /** The number of characters before the first space, or all of them. */
  function WordLength(s: string): (n: nat)
    ensures n <= |s|
    ensures forall i | 0 <= i < n :: s[i] != ' '
    ensures n < |s| ==> s[n] == ' '
  {
    if s != [] && s[0] != ' ' then 1 + WordLength(s[1..]) else 0
  }

  /**
   * `split(separator: " ").first`: Swift omits empty pieces, so this is the
   * first maximal run of non-space characters, if any.
   */
  function FirstPiece(s: string): (r: Option<string>)
    ensures r.None? <==> forall i | 0 <= i < |s| :: s[i] == ' '
    ensures r.Some? ==> r.value != [] && forall i | 0 <= i < |r.value| :: r.value[i] != ' '
    ensures r.Some? ==>
      var k := LeadingSpaces(s);
      k + |r.value| <= |s| && s[k..k + |r.value|] == r.value
      && (k + |r.value| == |s| || s[k + |r.value|] == ' ')
  {
    var k := LeadingSpaces(s);
    if k == |s| then None
    else
      var n := WordLength(s[k..]);
      assert s[k..][0] == s[k];
      Some(s[k..k + n])
  }

  /** `extractDocStringKeyword`: the fence and the mark that follows it, if any. */
  function ExtractDocStringKeyword(sentence: string, fence: DocFence): (d: DocStringKeyword)
    requires |sentence| >= KeyCount
    ensures d.keyword == fence
    ensures |sentence| == KeyCount ==> d.mark.None?
    ensures d.mark.None? ==> forall i | KeyCount <= i < |sentence| :: sentence[i] == ' '
    ensures d.mark.Some? ==> d.mark == FirstPiece(sentence[KeyCount..]) && d.mark.value != []
  {
    if |sentence| == KeyCount then DocStringKeyword(None, fence)
    else
      match FirstPiece(sentence[KeyCount..])
      case Some(mark) => DocStringKeyword(Some(mark), fence)
      case None =>
        assert forall i | KeyCount <= i < |sentence| :: sentence[KeyCount..][i - KeyCount] == sentence[i];
        DocStringKeyword(None, fence)
  }

  /**
   * `NextContentMatcher.matches`: a sentence starting with a fence matches as
   * a doc-string keyword whose text is the fence followed by the mark.
   */
  function MatchNextContent(sentence: string): (r: Option<KeywordMatch>)
    ensures r.None? <==> ParseFence(sentence).None?
    ensures r.Some? ==>
      && r.value.keyword.DocString?
      && r.value.keyword.docString.keyword == ParseFence(sentence).value
      && r.value.value == FenceRawValue(ParseFence(sentence).value) + r.value.keyword.docString.mark.GetOr("")
      && |r.value.value| == Length(r.value.keyword.docString)
      && KeyCount <= |r.value.value| <= |sentence|
  {
    match ParseFence(sentence)
    case None => None
    case Some(fence) =>
      var d := ExtractDocStringKeyword(sentence, fence);
      Some(KeywordMatch(DocString(d), FenceRawValue(fence) + d.mark.GetOr("")))
  }

  /**
   * The text of a doc-string match is the start of the sentence when the mark,
   * if there is one, follows the fence directly.
   */
  lemma NextContentValueIsPrefix(sentence: string)
    requires MatchNextContent(sentence).Some?
    requires |sentence| == KeyCount || sentence[KeyCount] != ' '
    ensures StartsWith(sentence, MatchNextContent(sentence).value.value)
  {
    var fence := ParseFence(sentence).value;
    var d := ExtractDocStringKeyword(sentence, fence);
    if d.mark.Some? {
      var rest := sentence[KeyCount..];
      assert LeadingSpaces(rest) == 0 by {
        assert rest[0] == sentence[KeyCount];
      }
      assert sentence[..KeyCount + |d.mark.value|] == sentence[..KeyCount] + rest[..|d.mark.value|];
    }
  }

  /** The matchers of `Config.matchers`. */
  datatype Matcher = PrimaryMatcher | StepMatcher | NextContentMatcher

  const ConfigMatchers: seq<Matcher> := [PrimaryMatcher, StepMatcher, NextContentMatcher]

  function Matches(m: Matcher, sentence: string, language: string, tr: Translations): Option<KeywordMatch> {
    match m
    case PrimaryMatcher => MatchPrimary(sentence, language, tr)
    case StepMatcher => MatchStep(sentence, language, tr)
    case NextContentMatcher => MatchNextContent(sentence)
  }

  /** The reduce of `findKeyword`: the first non-nil answer, asking the matchers in order. */
  function FirstMatch<M, R>(matchers: seq<M>, ask: M -> Option<R>): Option<R> {
    if matchers == [] then None
    else
      match ask(matchers[0])
      case Some(m) => Some(m)
      case None => FirstMatch(matchers[1..], ask)
  }

  /**
   * The reduce finds nothing exactly when no matcher answers, and what it
   * finds is the answer of one of the matchers.
   */
  lemma {:induction false} FirstMatchAnswers<M, R>(matchers: seq<M>, ask: M -> Option<R>)
    ensures FirstMatch(matchers, ask).None? <==> forall i | 0 <= i < |matchers| :: ask(matchers[i]).None?
    ensures FirstMatch(matchers, ask).Some? ==> exists i | 0 <= i < |matchers| :: FirstMatch(matchers, ask) == ask(matchers[i])
  {
    if matchers != [] && ask(matchers[0]).None? {
      FirstMatchAnswers(matchers[1..], ask);
      var r := FirstMatch(matchers[1..], ask);
      assert FirstMatch(matchers, ask) == r;
      forall i | 0 < i < |matchers| ensures matchers[i] == matchers[1..][i - 1] {
      }
      if r.Some? {
        var i :| 0 <= i < |matchers[1..]| && r == ask(matchers[1..][i]);
        assert r == ask(matchers[i + 1]);
      }
    }
  }

  /**
   * The first matcher that answers decides, and the matchers after it are
   * never consulted: replacing them changes nothing.
   */
  lemma {:induction false} FirstHitDecides<M, R>(matchers: seq<M>, ask: M -> Option<R>, i: nat, later: seq<M>)
    requires i < |matchers| && ask(matchers[i]).Some?
    requires forall i' | 0 <= i' < i :: ask(matchers[i']).None?
    ensures FirstMatch(matchers, ask) == ask(matchers[i])
    ensures FirstMatch(matchers[..i + 1] + later, ask) == ask(matchers[i])
  {
    var front := matchers[..i + 1] + later;
    assert front[0] == matchers[0];
    if i > 0 {
      var rest := matchers[1..];
      assert ask(matchers[0]).None?;
      forall i' | 0 <= i' < i - 1 ensures ask(rest[i']).None? {
        assert rest[i'] == matchers[i' + 1];
      }
      assert front[1..] == rest[..i] + later;
      FirstHitDecides(rest, ask, i - 1, later);
    }
  }

  /** Over three matchers, the reduce takes the first answer, else the second, else the third. */
  lemma FirstOfThree<M, R>(a: M, b: M, c: M, ask: M -> Option<R>)
    ensures FirstMatch([a, b, c], ask) ==
      if ask(a).Some? then ask(a) else if ask(b).Some? then ask(b) else ask(c)
  {
    assert [c][1..] == [];
    assert FirstMatch([c], ask) == ask(c);
    assert [b, c][1..] == [c];
    assert FirstMatch([b, c], ask) == if ask(b).Some? then ask(b) else ask(c);
    assert [a, b, c][1..] == [b, c];
  }

  /** `KeywordFinder(line:language:matchers:).findKeyword()`; no language means English. */
  function FindKeyword(line: string, language: Option<string>, matchers: seq<Matcher>, tr: Translations): Option<KeywordMatch> {
    var lang := language.GetOr("en");
    FirstMatch(matchers, m => Matches(m, line, lang, tr))
  }

  /** The finder finds nothing exactly when none of its matchers answers in its language. */
  lemma NothingFoundMeansNoMatcherAnswers(line: string, language: Option<string>, matchers: seq<Matcher>, tr: Translations)
    ensures FindKeyword(line, language, matchers, tr).None? <==>
      forall i | 0 <= i < |matchers| :: Matches(matchers[i], line, language.GetOr("en"), tr).None?
  {
    var lang := language.GetOr("en");
    FirstMatchAnswers(matchers, m => Matches(m, line, lang, tr));
  }

  /** A finder created without a language looks keywords up in English. */
  lemma DefaultLanguageIsEnglish(line: string, matchers: seq<Matcher>, tr: Translations)
    ensures FindKeyword(line, None, matchers, tr) == FindKeyword(line, Some("en"), matchers, tr)
  {
  }

  /** A primary keyword found with a table without empty translations is a non-empty prefix of the line. */
  lemma PrimaryMatchFits(line: string, lang: string, tr: Translations)
    requires WellFormedTable(tr) && MatchPrimary(line, lang, tr).Some?
    ensures var m := MatchPrimary(line, lang, tr).value; 0 < |m.value| <= |line| && StartsWith(line, m.value)
  {
    var m := MatchPrimary(line, lang, tr).value;
    var k := m.keyword.primary;
    var sp := PrimarySpellings(tr, lang, k);
    var j :| 0 <= j < |sp| && sp[j] == m.value;
    assert tr(lang, PrimaryRawValue(k))[j] != "";
  }

  /** A step keyword found with a table without empty translations is a non-empty prefix of the line. */
  lemma StepMatchFits(line: string, lang: string, tr: Translations)
    requires WellFormedTable(tr) && MatchStep(line, lang, tr).Some?
    ensures var m := MatchStep(line, lang, tr).value; 0 < |m.value| <= |line| && StartsWith(line, m.value)
  {
    var m := MatchStep(line, lang, tr).value;
    var k := m.keyword.step;
    var sp := StepSpellings(tr, lang, k);
    var j :| 0 <= j < |sp| && sp[j] == m.value;
    assert tr(lang, StepRawValue(k))[j] != "";
  }

  /**
   * The configured finder asks the primary matcher first, then the step
   * matcher, then the doc-string matcher.
   */
  lemma ConfiguredOrder(line: string, language: Option<string>, tr: Translations)
    ensures var lang := language.GetOr("en");
      FindKeyword(line, language, ConfigMatchers, tr) ==
        if MatchPrimary(line, lang, tr).Some? then MatchPrimary(line, lang, tr)
        else if MatchStep(line, lang, tr).Some? then MatchStep(line, lang, tr)
        else MatchNextContent(line)
  {
    var lang := language.GetOr("en");
    var ask := m => Matches(m, line, lang, tr);
    FirstOfThree(PrimaryMatcher, StepMatcher, NextContentMatcher, ask);
    assert ask(PrimaryMatcher) == MatchPrimary(line, lang, tr);
    assert ask(StepMatcher) == MatchStep(line, lang, tr);
    assert ask(NextContentMatcher) == MatchNextContent(line);
  }

  /**
   * With the configured matchers and a table without empty translations,
   * a keyword found on a line is spelled by a non-empty part of that line.
   */
  lemma {:induction false} FoundKeywordFitsLine(line: string, language: Option<string>, tr: Translations)
    requires WellFormedTable(tr)
    requires FindKeyword(line, language, ConfigMatchers, tr).Some?
    ensures var m := FindKeyword(line, language, ConfigMatchers, tr).value;
      0 < |m.value| <= |line| && (m.keyword.DocString? || StartsWith(line, m.value))
  {
    var lang := language.GetOr("en");
    ConfiguredOrder(line, language, tr);
    if MatchPrimary(line, lang, tr).Some? {
      PrimaryMatchFits(line, lang, tr);
    } else if MatchStep(line, lang, tr).Some? {
      StepMatchFits(line, lang, tr);
    }
  }
}
