/**
 * The tokens of the older lexer: section keys and step keywords recognised
 * by their exact spelling, parameters, tags, punctuation, runs of spaces
 * and words, with the text each token stands for.
 */
module LegacyTokens {
  import opened Common

  /** `ScenarioKey`: the section words, spelled with their colon. */
  datatype ScenarioKey = Scenario | Example | Examples | Feature | Outline | Template | Background

  function ScenarioKeyRaw(k: ScenarioKey): (r: string)
    ensures |r| >= 2 && r[|r| - 1] == ':'
  {
    match k
    case Scenario => "Scenario:"
    case Example => "Example:"
    case Examples => "Examples:"
    case Feature => "Feature:"
    case Outline => "Outline:"
    case Template => "Template:"
    case Background => "Background:"
  }

  /** `isScenarioOutlineKey`. */
  predicate IsOutlineKey(k: ScenarioKey) {
    k == Outline || k == Template
  }

  /** `ScenarioKey(rawValue:)`: the key spelled exactly as the word, if any. */
  function ParseScenarioKey(w: string): (r: Option<ScenarioKey>)
    ensures r.Some? ==> ScenarioKeyRaw(r.value) == w
    ensures r.None? ==> forall k: ScenarioKey :: ScenarioKeyRaw(k) != w
  {
    if w == "Scenario:" then Some(Scenario)
    else if w == "Example:" then Some(Example)
    else if w == "Examples:" then Some(Examples)
    else if w == "Feature:" then Some(Feature)
    else if w == "Outline:" then Some(Outline)
    else if w == "Template:" then Some(Template)
    else if w == "Background:" then Some(Background)
    else None
  }

  /** The step keywords of the older lexer, capitalised and without suffix. */
  datatype StepKeyword = Given | When | Then | And | But

  function StepKeywordRaw(k: StepKeyword): string {
    match k
    case Given => "Given"
    case When => "When"
    case Then => "Then"
    case And => "And"
    case But => "But"
  }

  /** `StepKeyword(rawValue:)`. */
  function ParseStepKeyword(w: string): (r: Option<StepKeyword>)
    ensures r.Some? ==> StepKeywordRaw(r.value) == w
    ensures r.None? ==> forall k: StepKeyword :: StepKeywordRaw(k) != w
  {
    if w == "Given" then Some(Given)
    else if w == "When" then Some(When)
    else if w == "Then" then Some(Then)
    else if w == "And" then Some(And)
    else if w == "But" then Some(But)
    else None
  }

  /** The older `Token` enum. */
  datatype Token =
    | Colon
    | ExampleParameter(value: string)
    | NewLine
    | Parameter(value: string)
    | Pipe
    | ScenarioKeyToken(key: ScenarioKey)
    | StepKeywordToken(step: StepKeyword)
    | Tag(value: string)
    | Whitespaces(count: nat)
    | Word(value: string)
    | Eof

  /** `n` spaces. */
  function Spaces(n: nat): (s: string)
    ensures |s| == n && forall i | 0 <= i < n :: s[i] == ' '
  {
    if n == 0 then [] else Spaces(n - 1) + [' ']
  }

  /**
   * `representation`: the text a token stands for. Outline and template
   * keys are written out in full; EOF stands for nothing.
   */
  function Representation(t: Token): string {
    match t
    case Colon => ":"
    case ExampleParameter(v) => "<" + v + ">"
    case NewLine => "\n"
    case Parameter(v) => "\"" + v + "\""
    case Pipe => "|"
    case ScenarioKeyToken(k) =>
      (match k
       case Outline => "Scenario Outline:"
       case Template => "Scenario Template:"
       case _ => ScenarioKeyRaw(k))
    case StepKeywordToken(k) => StepKeywordRaw(k)
    case Tag(v) => "@" + v
    case Whitespaces(n) => Spaces(n)
    case Word(v) => v
    case Eof => ""
  }

  /**
   * The classification of a word the older lexer has read: a section key
   * when the word is one spelled exactly, else a step keyword, else a word.
   */
  function ClassifyWord(w: string): (t: Token)
    ensures t.ScenarioKeyToken? || t.StepKeywordToken? || t.Word?
    ensures t.ScenarioKeyToken? <==> exists k: ScenarioKey :: ScenarioKeyRaw(k) == w
    ensures t.ScenarioKeyToken? ==> ScenarioKeyRaw(t.key) == w
    ensures t.StepKeywordToken? <==>
      (forall k: ScenarioKey :: ScenarioKeyRaw(k) != w) && exists k: StepKeyword :: StepKeywordRaw(k) == w
    ensures t.StepKeywordToken? ==> StepKeywordRaw(t.step) == w
    ensures t.Word? ==> t.value == w
  {
    match ParseScenarioKey(w)
    case Some(k) => ScenarioKeyToken(k)
    case None =>
      match ParseStepKeyword(w)
      case Some(k) => StepKeywordToken(k)
      case None => Word(w)
  }

  /**
   * Rendering a classified word gives the word back, except that outline
   * and template keys are rendered with "Scenario " in front.
   */
  lemma ClassifiedWordRendersBack(w: string)
    ensures var t := ClassifyWord(w);
      if t.ScenarioKeyToken? && IsOutlineKey(t.key) then Representation(t) == "Scenario " + w
      else Representation(t) == w
  {
    var t := ClassifyWord(w);
    if t.StepKeywordToken? {
      assert Representation(t) == StepKeywordRaw(t.step);
    }
  }

  /** `isWhitespaceOrNewLine`. */
  predicate IsWhitespaceOrNewLine(t: Token) {
    t.Whitespaces? || t == NewLine
  }

  /** `descriptionValue`: how an error names a token; only words carry their text. */
  function DescriptionValue(t: Token): (r: string)
    ensures r != []
    ensures t.Word? ==> r == "word '" + t.value + "'"
  {
    match t
    case Colon => ":"
    case ExampleParameter(_) => "<parameter>"
    case NewLine => "newline"
    case Parameter(_) => "\"parameter\""
    case Pipe => "|"
    case ScenarioKeyToken(_) => "Scenario:, Example:, Examples:, Feature:, Outline:, Template:, Background:"
    case StepKeywordToken(_) => "Given, When, Then, And, But"
    case Tag(_) => "@tag"
    case Whitespaces(_) => "'whitespace'"
    case Word(v) => "word '" + v + "'"
    case Eof => "end of file"
  }
}
