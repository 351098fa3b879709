# parrot-gherkin front end, modelled in Dafny

This project models the front end of the parrot Gherkin parser. The parser
reads `.feature` files, the plain-text test specifications of Cucumber. The
model covers these parts:

- **Two lexers.**
  - The newer `CucumberLexer` works on classified characters (`LexerCharacter`).
    It emits `Token`s: expressions, keywords found by a `KeywordFinder`,
    and EOF, each with its location.
  - The older `Lexer` emits the older `Token` enum: words, scenario keys,
    step keywords, tags, pipes, parameters, whitespace runs, newlines and EOF.
- **The keyword machinery.**
  - The localisable matchers for section and step keywords, with their
    suffixes.
  - The `NextContentMatcher` for doc-string fences.
  - `SecondaryKeyword` and `KeywordFinder`, which asks the matchers of
    `Config.matchers` in order.
- **`CucumberScanner`.**
  - It splits the lexer's tokens into lines.
  - It recognises each line through a chain of scanner elements and indexes
    the lines by number, filling gaps with empty lines.
  - It renders the lines through the elements' descriptions.
- **The elements and their checks.** `ScannerLineType` classifies elements.
  `ScannerFSM` is the automaton that accepts or rejects a sequence of
  elements.
- **`CucumberInterpreter`.** This is the recursive-descent reader over the
  older tokens: `eat`, `sentence`, `tags`, `titleDescription`, `scenario`,
  `examples`, `dataTable` and `wordsBetweenPipes`.
- **The model constructors and their validation.** These cover the
  syntax-tree `DataTable`, `Scenario` and `Step`, the older `DataTable` and
  `ExamplesTable`, `FeatureValidator`, and the `ParseError` accumulator.

The lexers, the interpreter, the scanner, the automaton and the error
accumulator change state in the source. Here they are classes whose methods
are proved against specification functions: `Scan`, `ReadAt`,
`TitleDescriptionOf`, `ScenarioOf`, `LinesOf`, `Next` and others. The
properties of those functions are then proved as lemmas. Everything else is
datatypes and functions. Swift `throws` becomes a `Result`. A run-time trap
of the source (an out-of-range subscript, a duplicate dictionary key) is
modelled explicitly where the code as written reaches one.

Three facts about the source shape the model:

- `ScannerFSM.changeState` refuses the end of input after scenario tags,
  after feature tags and inside a doc string, and accepts it inside a table
  (`ScannerStateMachine.EndOfFileAcceptance`). Its `isEOFAmmissible`
  names only the scenario-tag state.
- In `CucumberScanner.parseLine` a line that starts with EOF yields no
  element. An empty line that follows free text stays a line of its own.
- `CucumberScanner.parseLines` never calls `ScannerFSM`. The automaton is
  modelled on its own (`ScannerStateMachine.Run`).

## Model

| member | source | states |
|---|---|---|
| Common.Option.GetOr | Sources/parrot/Helpers/KeywordFinder.swift:13 | `??`: the wrapped value when present, the default otherwise |
| Common.Trim | Sources/parrot/Models/Tokens/GherkinKeyword.swift:119 | `trimmingCharacters(in: .whitespaces)`: the result is empty exactly when the text is all whitespace, and otherwise neither starts nor ends with whitespace |
| Common.TrimIsMiddle | Sources/parrot/Models/Tokens/GherkinKeyword.swift:119 | the trimmed text is a middle slice of the input with only whitespace before and after it, so with the clauses of `Trim` it is the input minus exactly its leading and trailing whitespace |
| Common.IntToString | Sources/parrot/Protocols/ScannerElement.swift:31-33 | decimal rendering of a line or column; it starts with `-` exactly for negative numbers |
| Common.DigitValue | Sources/parrot/Protocols/ScannerElement.swift:31-33 | the value of a decimal digit, below 10, whose digit character is the given one |
| Common.NatToString | Sources/parrot/Protocols/ScannerElement.swift:31-33 | the decimal rendering of a natural number is a non-empty string of digits |
| Common.NatToStringRoundTrip | Sources/parrot/Protocols/ScannerElement.swift:31-33 | reading the digits back gives the number, and the rendering starts with `0` exactly for zero (no leading zero) |
| Common.IntToStringRoundTrip | Sources/parrot/Protocols/ScannerElement.swift:31-33 | the rendering is digits, after a `-` exactly for negative numbers; reading it back gives the number; there is no leading zero |
| Common.Join | Sources/parrot/CucumberScanner.swift:94 | `joined(separator:)`: no parts give the empty text, one part gives that part |
| Common.JoinAppend | Sources/parrot/CucumberScanner.swift:94 | joining one more part appends the separator and that part to the joined text |
| Common.SortedKeys | Sources/parrot/CucumberScanner.swift:88-90 | the keys sorted ascending: the same elements, strictly increasing |
| Keywords.FenceRawValue | Sources/parrot/Models/Tokens/Keywords/DocStringKeyword.swift:4-8 | each fence's raw value is `keyCount` (3) characters long |
| Keywords.ParseFence | Sources/parrot/Models/Tokens/Keywords/DocStringKeyword.swift:10-22 | `"""` is recognised first, then a backtick fence, otherwise nothing; a recognised fence is a prefix of the text |
| Keywords.Length | Sources/parrot/Models/Tokens/Keywords/DocStringKeyword.swift:28-30 | `lenght` is the length of the fence followed by its mark |
| Keywords.ParseSecondary | Sources/parrot/Models/Tokens/GherkinKeyword.swift:110-144 | `#` and `\|` give comment and pipe keys; a text starting with `"""` is a doc string; a text starting with `@` whose trimming is longer than 1 is a tag; nothing else is a secondary keyword (both directions) |
| Keywords.TrimKeepsPrefix | Sources/parrot/Models/Tokens/GherkinKeyword.swift:119-122 | trimming a text keeps a prefix whose ends are not whitespace, so the `"""` found in the keyword is still found in the trimmed text |
| Keywords.TrimUnchanged | Sources/parrot/Models/Tokens/GherkinKeyword.swift:119 | a text without whitespace at either end is its own trimming |
| Keywords.DocStringRoundTrip | Sources/parrot/Models/Tokens/GherkinKeyword.swift:121-129 | a doc-string keyword renders back, as the fence followed by its content, to the trimmed keyword |
| Keywords.TagRoundTrip | Sources/parrot/Models/Tokens/GherkinKeyword.swift:133-139 | a tag keyword renders back, as `@` followed by its content, to the trimmed keyword |
| Keywords.SecondaryRoundTrip | Sources/parrot/Models/Tokens/GherkinKeyword.swift:110-144 | every parsed secondary keyword renders back to its trimmed spelling |
| Keywords.Suffix | Sources/parrot/Models/Tokens/GherkinKeyword.swift:82-84 | primary keywords (the six cases of `Keywords/PrimaryKeyword.swift`) carry a discardable `:`; doc-string fences and tags carry a suffix that is part of the keyword; the others carry none (both directions) |
| Keywords.SuffixText | Sources/parrot/Models/Tokens/Keywords/GherkinKeyword.swift:3-13 | `stringValue`: `:` for primary keywords and the empty text for all others |
| Matchers.Spellings | Sources/parrot/Protocols/KeywordLocalizable.swift:9-13 | one spelling per translation, in order, each followed by the keyword's suffix text |
| Matchers.FirstPrefix | Sources/parrot/Models/Tokens/Keywords/Matchers/LocalizableKeywordMatcher.swift:13-18 | the spelling returned is listed and is a prefix of the sentence; none is returned exactly when no spelling is a prefix |
| Matchers.FirstListedSpellingWins | Sources/parrot/Models/Tokens/Keywords/Matchers/LocalizableKeywordMatcher.swift:13-18 | when several spellings match, the first listed one is returned |
| Matchers.FirstCaseMatch | Sources/parrot/Models/Tokens/Keywords/Matchers/LocalizableKeywordMatcher.swift:8-22 | the keyword case answered has a matching spelling; none is answered exactly when no case has one |
| Matchers.EarliestCaseWins | Sources/parrot/Models/Tokens/Keywords/Matchers/LocalizableKeywordMatcher.swift:8-22 | the first case in `allCases` order that matches decides the answer |
| Matchers.MatchPrimary | Sources/parrot/Models/Tokens/Keywords/Matchers/LocalizableKeywordMatcher.swift:5-29 | a found section keyword is one of its spellings and a prefix of the line; nothing is found exactly when no section keyword has a matching spelling |
| Matchers.MatchStep | Sources/parrot/Models/Tokens/Keywords/Matchers/LocalizableKeywordMatcher.swift:5-29 | the same for step keywords |
| Matchers.LeadingSpaces | Sources/parrot/Models/Tokens/Keywords/Matchers/NextContentMatcher.swift:13-21 | the number of leading spaces: every one counted is a space and the next character is not |
| Matchers.WordLength | Sources/parrot/Models/Tokens/Keywords/Matchers/NextContentMatcher.swift:13-21 | the length of the first space-free piece: no space inside it, and a space or the end after it |
| Matchers.FirstPiece | Sources/parrot/Models/Tokens/Keywords/Matchers/NextContentMatcher.swift:13-21 | `split(separator: " ").first`: none exactly when the text is all spaces, otherwise a non-empty space-free piece that follows only spaces |
| Matchers.ExtractDocStringKeyword | Sources/parrot/Models/Tokens/Keywords/Matchers/NextContentMatcher.swift:13-21 | the fence is kept; no mark when nothing but spaces follows the fence, otherwise the first piece after it |
| Matchers.MatchNextContent | Sources/parrot/Models/Tokens/Keywords/Matchers/NextContentMatcher.swift:5-11 | a doc-string keyword is found exactly when the sentence starts with a fence; the match carries that fence and its mark |
| Matchers.NextContentValueIsPrefix | Sources/parrot/Models/Tokens/Keywords/Matchers/NextContentMatcher.swift:5-11 | when the mark follows the fence directly, the matched text is a prefix of the sentence |
| Matchers.FirstMatchAnswers | Sources/parrot/Helpers/KeywordFinder.swift:16-28 | the reduce answers nothing exactly when no matcher answers, and otherwise answers what some matcher answered |
| Matchers.FirstHitDecides | Sources/parrot/Helpers/KeywordFinder.swift:16-28 | the first matcher that answers decides the result, whatever the matchers after it would answer |
| Matchers.FirstOfThree | Sources/parrot/Config.swift:2-8 | over three matchers, the result is the first answer, else the second, else the third |
| Matchers.NothingFoundMeansNoMatcherAnswers | Sources/parrot/Helpers/KeywordFinder.swift:10-28 | the finder finds nothing exactly when none of its matchers answers in its language |
| Matchers.DefaultLanguageIsEnglish | Sources/parrot/Helpers/KeywordFinder.swift:13 | a finder created without a language behaves as one created with `en` |
| Matchers.PrimaryMatchFits | Sources/parrot/Models/Tokens/Keywords/Matchers/LocalizableKeywordMatcher.swift:13-18 | a found section keyword is a non-empty prefix of the line |
| Matchers.StepMatchFits | Sources/parrot/Models/Tokens/Keywords/Matchers/LocalizableKeywordMatcher.swift:13-18 | a found step keyword is a non-empty prefix of the line |
| Matchers.ConfiguredOrder | Sources/parrot/Config.swift:2-8 | with the configured matchers, the finder answers a section keyword first, else a step keyword, else a doc-string fence |
| Matchers.FoundKeywordFitsLine | Sources/parrot/Helpers/KeywordFinder.swift:16-28 | whatever the configured finder returns is non-empty and no longer than the line; unless it is a doc-string fence, it is a prefix of the line |
| LexerCharacters.FromCharAsWritten | Sources/parrot/Models/LexerCharacter.swift:15-38 | the classification as written: only a missing character is `.none`, every other character ends up `.generic` |
| LexerCharacters.FromChar | Sources/parrot/Models/LexerCharacter.swift:15-36 | the classification as intended: special characters get their own class, `\r` counts as a line break, and every character but `\r` is represented back by itself |
| LexerCharacters.Representation | Sources/parrot/Models/LexerCharacter.swift:40-52 | a generic class stands for its character, `.none` for U+0000 |
| LexerCharacters.ClassifyRepresentation | Sources/parrot/Models/LexerCharacter.swift:15-52 | classifying the character a class stands for gives that class back |
| LexerCharacters.AsWrittenMissesNewLine | Sources/parrot/Models/LexerCharacter.swift:37 | as written, `\n` is classified generic and no character is ever a line break; as intended, `\n` is a line break |
| LegacyTokens.ScenarioKeyRaw | Sources/parrot/Models/ScenarioKeyword.swift:10-21 | every scenario key is spelled with a trailing colon |
| LegacyTokens.ParseScenarioKey | Sources/parrot/Models/ScenarioKeyword.swift:10-21 | `ScenarioKey(rawValue:)`: a key is returned exactly when the word spells it |
| LegacyTokens.ParseStepKeyword | Sources/parrot/Models/StepKeyword.swift:10-16 | `StepKeyword(rawValue:)`: a keyword is returned exactly when the word spells it |
| LegacyTokens.Spaces | Sources/parrot/Models/Token.swift:24-43 | the whitespace token renders as exactly `count` spaces |
| LegacyTokens.ClassifyWord | Sources/parrot/Lexer.swift:194-206 | a word is a scenario key when it spells one, else a step keyword when it spells one, else a plain word with that text |
| LegacyTokens.ClassifiedWordRendersBack | Sources/parrot/Models/Token.swift:24-43 | the classified word's `representation` is the word itself, except that the outline and template keys render as `"Scenario "` followed by the word |
| LegacyTokens.DescriptionValue | Sources/parrot/CucumberInterpreter.swift:298-312 | an error names every token with a non-empty text, and a word as `word '<text>'` |
| CucumberLexing.CharAt | Sources/parrot/CucumberLexer.swift:42-56 | the class under the cursor is `.none` exactly past the end of the text |
| CucumberLexing.Moved | Sources/parrot/CucumberLexer.swift:51-55 | a move onto a line break goes to column 0 of the next line; any other move adds to the column |
| CucumberLexing.LocationAt | Sources/parrot/CucumberLexer.swift:42-56 | the location reached by single steps from the start is on line 1 or later, at a column of 0 or more |
| CucumberLexing.LinesNeverDecrease | Sources/parrot/CucumberLexer.swift:51-55 | moving forward never lowers the line |
| CucumberLexing.JumpWithinLine | Sources/parrot/CucumberLexer.swift:42-56 | a jump of `k` that crosses no line break lands where `k` single steps would |
| CucumberLexing.LineEnd | Sources/parrot/CucumberLexer.swift:98-118 | the end of the current line is the first line break from the cursor, or the end of the text |
| CucumberLexing.RunEnd | Sources/parrot/CucumberLexer.swift:137-146 | `extractAllAvoiding` stops at the first character in the avoided set or at the limit, and at none before it |
| CucumberLexing.Rendered | Sources/parrot/CucumberLexer.swift:137-146 | the extracted text has one character per position passed over |
| CucumberLexing.RenderedIsText | Sources/parrot/CucumberLexer.swift:137-146 | away from line breaks, the extracted representations are the source text itself |
| CucumberLexing.Scan | Sources/parrot/CucumberLexer.swift:173-212 | the token read at a non-blank character: never EOF, never across a line break, and (outside a doc string) it always advances the cursor |
| CucumberLexing.ReadAt | Sources/parrot/CucumberLexer.swift:188-208 | the free-text branch advances within the line, and every token but a doc-string fence carries the source text it covers |
| CucumberLexing.FoundKeywordLiesOnLine | Sources/parrot/CucumberLexer.swift:192-204 | the keyword found in the rest of the line fits in that line |
| CucumberLexing.PrefixFitsLine | Sources/parrot/CucumberLexer.swift:192-204 | a non-empty prefix of the rest of the line fits in that line |
| CucumberLexing.PipeIsOneCharacter | Sources/parrot/CucumberLexer.swift:185-187 | a pipe is a keyword token of its own, one character long |
| CucumberLexing.TableCellStopsAtPipe | Sources/parrot/CucumberLexer.swift:190-191 | inside a table, text is an expression that holds no pipe or line break and stops at one or at the end |
| CucumberLexing.JumpWithinLineEnd | Sources/parrot/CucumberLexer.swift:196-203 | skipping a keyword that lies within the line ends at the location single steps would reach |
| CucumberLexing.KeywordValueIsSourceText | Sources/parrot/CucumberLexer.swift:192-204 | a found keyword other than a doc-string fence carries the text it was spelled with at the cursor |
| CucumberLexing.ValueIsSourceText | Sources/parrot/CucumberLexer.swift:177-208 | every token except comments and doc-string fences carries exactly the source text it covers |
| CucumberLexing.ResetAsWritten | Sources/parrot/CucumberLexer.swift:222 | as written, the reset in `parse` moves only the position back to 0 |
| CucumberLexing.ResetCursor | Sources/parrot/CucumberLexer.swift:31-36 | the intended reset is the cursor `init` creates: in step with the text, at position 0, with no context |
| CucumberLexing.ResetAsWrittenDesynchronises | Sources/parrot/CucumberLexer.swift:219-238 | on "a\nb" the as-written reset leaves the current character out of step with the position; the intended reset does not |
| CucumberLexing.PeekLineAsWritten | Sources/parrot/CucumberLexer.swift:98-118 | as written, at a character that is not a line break the `repeat ... while` loop stops after one step, and the peek returns the text from the start of the document through the current character; it returns nothing only at the end of the text |
| CucumberLexing.PeekLineAsWrittenCounterexamples | Sources/parrot/CucumberLexer.swift:102-117 | on "AB\n" at the start the as-written peek gives "A" where the line is "AB"; on the second line of "A\nB" it gives "A\nB" where the line is "B" |
| CucumberLexing.CucumberLexer.constructor | Sources/parrot/CucumberLexer.swift:31-36 | a new lexer is on the first character of the feature, at line 1 and column 0, with no context |
| CucumberLexing.CucumberLexer.Advance | Sources/parrot/CucumberLexer.swift:42-56 | moves the position by the count; the current character and the location follow |
| CucumberLexing.CucumberLexer.Skip | Sources/parrot/CucumberLexer.swift:125-129 | passes over exactly the characters of the given classes, and at least one when it starts on one |
| CucumberLexing.CucumberLexer.ExtractAllAvoiding | Sources/parrot/CucumberLexer.swift:137-146 | stops where `RunEnd` says and returns the representations of the characters passed over |
| CucumberLexing.CucumberLexer.Sentence | Sources/parrot/CucumberLexer.swift:148-150 | returns the source text up to the line break, the end or the limit |
| CucumberLexing.CucumberLexer.Word | Sources/parrot/CucumberLexer.swift:152-154 | returns the source text up to a blank, a line break, the end or the limit |
| CucumberLexing.CucumberLexer.PeekLine | Sources/parrot/CucumberLexer.swift:98-118 | the intended peek: the rest of the current line, with no cursor movement |
| CucumberLexing.CucumberLexer.ReadKeywordOrSentence | Sources/parrot/CucumberLexer.swift:192-204 | reads a found keyword, or else the rest of the line, as the specification function says |
| CucumberLexing.CucumberLexer.ReadFound | Sources/parrot/CucumberLexer.swift:192-207 | turns the keyword found, if any, into the token and the cursor movement `ReadAt` describes |
| CucumberLexing.CucumberLexer.ReadToken | Sources/parrot/CucumberLexer.swift:173-212 | reads the token `Scan` describes, at the location of its first character |
| CucumberLexing.CucumberLexer.SkipBlanks | Sources/parrot/CucumberLexer.swift:161-172 | skips only blanks, tabs and line breaks, stops at something else or at the end, and drops the table context at a line break |
| CucumberLexing.CucumberLexer.GetNextToken | Sources/parrot/CucumberLexer.swift:156-217 | after the blanks, EOF exactly at the end of the text (every time it is asked), otherwise the token `Scan` reads at its own location |
| CucumberLexing.BlanksEnd | Sources/parrot/CucumberLexer.swift:157-172 | the first position from the cursor that is not a blank, tab or line break: every one before it is, and it is not |
| CucumberLexing.LexStep | Sources/parrot/CucumberLexer.swift:156-217 | one `getNextToken` call, as its contract states it, is the head of the token list and leaves the cursor where the rest of the list starts |
| CucumberLexing.LexEndsWithEof | Sources/parrot/CucumberLexer.swift:219-238 | the token list ends with one EOF, located at the end of the text, and has no EOF before it |
| CucumberLexing.LexLinesInOrder | Sources/parrot/CucumberLexer.swift:219-238 | every token lies on the starting line or later, and token lines never decrease |
| CucumberLexing.ScannedTokenCarriesText | Sources/parrot/CucumberLexer.swift:177-208 | the token read at a character lies at that character and carries the source text it covers |
| CucumberLexing.LexValuesAreSourceText | Sources/parrot/CucumberLexer.swift:219-238 | every token of the list but EOF and doc-string fences carries the source text of a range at or after the start: its own text, or the text after the `#` of a comment |
| CucumberLexing.CucumberLexer.TokensUntilEof | Sources/parrot/CucumberLexer.swift:226-233 | the loop of `parse` collects exactly the token list `Lex` gives from the cursor |
| CucumberLexing.CucumberLexer.Parse | Sources/parrot/CucumberLexer.swift:219-238 | returns the token list `Lex` gives from the start of the text, which ends with its one EOF at the end of the text and has token lines that never decrease; the cursor is restored |
| LegacyLexing.CurrentAt | Sources/parrot/Lexer.swift:34-41 | the current character is missing exactly past the end |
| LegacyLexing.IndexOfFrom | Sources/parrot/Lexer.swift:43-51 | the first position holding the character, or the end |
| LegacyLexing.SpacesEnd | Sources/parrot/Lexer.swift:61-68 | the first position that is not a space |
| LegacyLexing.WordEnd | Sources/parrot/Lexer.swift:81-90 | the first position holding a space or a line break |
| LegacyLexing.PeekEnd | Sources/parrot/Lexer.swift:101-107 | the first position holding the closing character or a line break |
| LegacyLexing.PeekUntilAsWritten | Sources/parrot/Lexer.swift:92-118 | as written, the peek traps exactly when nothing closes the text before its end |
| LegacyLexing.PeekResult | Sources/parrot/Lexer.swift:92-118 | the intended peek never traps; it throws exactly where the written one traps, and otherwise answers the text up to the closing character |
| LegacyLexing.PeekDiffersOnlyByTrap | Sources/parrot/Lexer.swift:109 | the written and the intended peek agree everywhere except where one traps and the other throws |
| LegacyLexing.PeekAsWrittenTrapsOnUnclosedParameter | Sources/parrot/Lexer.swift:109 | on an unclosed `<ab` at the end of the text the written peek traps; the intended one throws, so the lexer falls back to a word |
| LegacyLexing.ParameterAttempt | Sources/parrot/Lexer.swift:177-192 | a parameter opener yields an example parameter exactly for `<` and a parameter for `"`, moving the cursor forward; a failed attempt leaves the cursor, or moves it to the end |
| LegacyLexing.WordAt | Sources/parrot/Lexer.swift:194-206 | a classified word that stays within the text |
| LegacyLexing.ReadAt | Sources/parrot/Lexer.swift:145-206 | the token read at a non-space character always advances the cursor |
| LegacyLexing.CommentRunsToLineBreak | Sources/parrot/Lexer.swift:145-153 | a comment consumes its line and yields a newline, or EOF on the last line |
| LegacyLexing.PlainTextIsClassifiedWord | Sources/parrot/Lexer.swift:194-206 | ordinary text becomes the word up to the next space or line break, classified |
| LegacyLexing.RestoreAsWritten | Sources/parrot/Lexer.swift:228 | as written, `parse` restores the saved position while keeping the finished current character |
| LegacyLexing.RestoreAsWrittenLosesText | Sources/parrot/Lexer.swift:212-231 | after the restore as written, the current character no longer matches the position |
| LegacyLexing.Lexer.constructor | Sources/parrot/Lexer.swift:24-28 | a new lexer is on the first character, counting no whitespace |
| LegacyLexing.Lexer.Advance | Sources/parrot/Lexer.swift:34-41 | one character on, with the current character following |
| LegacyLexing.Lexer.AdvanceUntil | Sources/parrot/Lexer.swift:43-51 | moves to the first occurrence of the character, or to the end; it throws exactly at the end when EOF is not allowed |
| LegacyLexing.Lexer.SkipWhitespaces | Sources/parrot/Lexer.swift:61-68 | passes over the spaces and returns how many |
| LegacyLexing.Lexer.Word | Sources/parrot/Lexer.swift:81-90 | returns the text up to a space, a line break or the end; it holds neither |
| LegacyLexing.Lexer.PeekUntil | Sources/parrot/Lexer.swift:92-118 | the intended peek, with no cursor movement |
| LegacyLexing.Lexer.TryParameter | Sources/parrot/Lexer.swift:177-192 | the parameter branch, as `ParameterAttempt` describes |
| LegacyLexing.Lexer.ReadToken | Sources/parrot/Lexer.swift:145-206 | the token-reading branches, as `ReadAt` describes; whitespace counting stops at a line break |
| LegacyLexing.Lexer.GetNextToken | Sources/parrot/Lexer.swift:124-210 | skips spaces, reports the counted ones as one whitespace token of positive length, otherwise reads a token; every token but EOF makes progress |
| LegacyLexing.LexStep | Sources/parrot/Lexer.swift:124-210 | one `getNextToken` call, as its contract states it, is the head of the token list and leaves the cursor and counters where the rest of the list starts |
| LegacyLexing.SpacesEndIsFirst | Sources/parrot/Lexer.swift:125-134 | the position after a run of spaces that is followed by no space is where the skipping stops |
| LegacyLexing.LexWellShaped | Sources/parrot/Lexer.swift:212-231 | whatever the counters, the token list ends with its one EOF and every whitespace token counts at least one space |
| LegacyLexing.ReadNeverWhitespace | Sources/parrot/Lexer.swift:145-206 | only the counting makes whitespace tokens: a token read at a character never is one |
| LegacyLexing.StaleCountersAddWhitespace | Sources/parrot/Lexer.swift:127-142 | on "a " a fresh lexer gives the word and EOF; with the counters a first parse leaves behind (counting, one space pending) the same text opens with a whitespace token |
| LegacyLexing.Lexer.TokensUntilEof | Sources/parrot/Lexer.swift:219-226 | the loop of `parse` collects exactly the token list `Lex` gives from the cursor and the counters |
| LegacyLexing.Lexer.Parse | Sources/parrot/Lexer.swift:212-231 | returns the token list `Lex` gives from the start with the counters of a fresh lexer, which ends with its one EOF and has no empty whitespace token; the cursor and the counters are restored as intended |
| LegacyModels.LaterRowsAgree | Sources/parrot/Models/DataTable.swift:30-34 | the rows from the given one on all have as many values as the first |
| LegacyModels.NewDataTable | Sources/parrot/Models/DataTable.swift:17-37 | no rows is refused; a single row is accepted; otherwise the table is accepted exactly when every row has the first row's length |
| LegacyModels.FirstRowCount | Sources/parrot/Models/ExamplesTable.swift:30 | the first row's length, none without rows |
| LegacyModels.NewExamplesTable | Sources/parrot/Models/ExamplesTable.swift:21-37 | a blank title, no columns, or a column count differing from the first row's (or no rows) are refused in that order; otherwise the table is built |
| LegacyModels.ExamplesRowsMatchColumns | Sources/parrot/Models/ExamplesTable.swift:30-32 | in an accepted examples table, every row has one value per column |
| ParseErrors.ParseError.constructor | Sources/parrot/Models/Errors/ParseError.swift:3-5 | a new accumulator holds no errors |
| ParseErrors.ParseError.Add | Sources/parrot/Models/Errors/ParseError.swift:6-8 | appends the error after the earlier ones, which keep their order |
| ParseErrors.ParseError.HasNoErrors | Sources/parrot/Models/Errors/ParseError.swift:10-12 | true exactly when no error was added |
| Ast.StringValue | Sources/parrot/Models/AST/DataTable.swift:14-19 | a cell reads as its text; it reads as "" exactly when empty or holding "" |
| Ast.FirstMismatch | Sources/parrot/Models/AST/DataTable.swift:48-58 | the first row whose cell count differs from the header's; none exactly when all agree |
| Ast.NewDataTableAsWritten | Sources/parrot/Models/AST/DataTable.swift:48-58 | as written, the constructor traps exactly on an empty table |
| Ast.NewDataTable | Sources/parrot/Models/AST/DataTable.swift:48-58 | as intended: no rows is `dataTableWithoutValues`; otherwise the table is accepted exactly when rectangular, else the first mismatching row is reported |
| Ast.DataTableAgreesOnRows | Sources/parrot/Models/AST/DataTable.swift:48-58 | on a non-empty table the written and the intended constructors agree |
| Ast.EmptyDataTableTraps | Sources/parrot/Models/AST/DataTable.swift:51 | on no rows the written constructor traps where the intended one throws `dataTableWithoutValues` |
| Ast.Header | Sources/parrot/Models/AST/DataTable.swift:36-38 | the header is a row of the table with the first row's width |
| Ast.BodyAsWritten | Sources/parrot/Models/AST/DataTable.swift:40-46 | as written, `body` traps exactly on a table of two or more rows, and is empty otherwise |
| Ast.Body | Sources/parrot/Models/AST/DataTable.swift:40-46 | as intended, `body` is every row after the header, in order |
| Ast.HeaderThenBody | Sources/parrot/Models/AST/DataTable.swift:36-46 | the header followed by the body is the whole table |
| Ast.BodyMatchesHeader | Sources/parrot/Models/AST/DataTable.swift:48-58 | in an accepted table, every body row has as many cells as the header |
| Ast.NewScenario | Sources/parrot/Models/AST/Scenario.swift:22-40 | an empty title, an empty description or no steps are refused in that order; otherwise the scenario is built from its parts |
| Ast.EmptyStepsNeverThrown | Sources/parrot/Models/AST/Scenario.swift:3-8 | the constructor never reports `emptySteps` |
| Ast.NewStep | Sources/parrot/Models/AST/Step.swift:15-25 | a step is refused with `emptyStepText` exactly when its text is blank |
| Ast.Validate | Sources/parrot/Models/Validator/FeatureValidator.swift:5-19 | an empty title, an empty description or no scenarios are refused in that order; otherwise the feature is valid |
| Interpreting.LineEnd | Sources/parrot/CucumberInterpreter.swift:44-51 | `sentence` stops at the first read that holds a newline or EOF |
| Interpreting.LineEndIsFirst | Sources/parrot/CucumberInterpreter.swift:46 | no read before that one ends the line |
| Interpreting.TextSplit | Sources/parrot/CucumberInterpreter.swift:44-51 | the text read over a range is the text of its two halves |
| Interpreting.SentenceOf | Sources/parrot/CucumberInterpreter.swift:44-51 | the representations up to the end of the line, or none when they are empty |
| Interpreting.KeyStartsSentence | Sources/parrot/CucumberInterpreter.swift:44-51 | a sentence starting at a scenario key exists and starts with the key's text |
| Interpreting.TagsEnd | Sources/parrot/CucumberInterpreter.swift:100-109 | `tags` stops at the first read that does not hold a tag |
| Interpreting.TagsEndIsFirst | Sources/parrot/CucumberInterpreter.swift:103 | every read before that one holds a tag |
| Interpreting.TagsAreRead | Sources/parrot/CucumberInterpreter.swift:100-109 | one tag per token, with that token's name, in order |
| Interpreting.OneCellPerPipe | Sources/parrot/CucumberInterpreter.swift:216-224 | each pipe on the line closes exactly one cell |
| Interpreting.TrimmedAppend | Sources/parrot/CucumberInterpreter.swift:218 | appending a trimmed cell keeps every cell trimmed |
| Interpreting.CellsAreTrimmed | Sources/parrot/CucumberInterpreter.swift:218 | every cell is trimmed |
| Interpreting.TableRows | Sources/parrot/CucumberInterpreter.swift:184-196 | `dataTable` stops at the first row that does not start with a pipe |
| Interpreting.RowsKeepEarlierRows | Sources/parrot/CucumberInterpreter.swift:187-193 | rows read earlier stay in front, in order |
| Interpreting.NextRow | Sources/parrot/CucumberInterpreter.swift:190-192 | the next row always starts after the current one |
| Interpreting.RowsCountPipes | Sources/parrot/CucumberInterpreter.swift:184-196 | the first row has as many cells as its line has pipes after the first |
| Interpreting.LiftScenario | Sources/parrot/CucumberInterpreter.swift:149-155 | the scenario constructor's result, or its error passed on |
| Interpreting.LiftDataTable | Sources/parrot/CucumberInterpreter.swift:195 | the data table constructor's result, or its error passed on |
| Interpreting.LiftExamples | Sources/parrot/CucumberInterpreter.swift:176-180 | the examples table constructor's result, or its error passed on |
| Interpreting.TitleDescriptionOf | Sources/parrot/CucumberInterpreter.swift:78-97 | with no title sentence it throws `titleExpectedNothingFound`; for a scenario or step factor it succeeds exactly when the title is there; a title and a description, when present, are never empty |
| Interpreting.WordsBetweenPipesCells | Sources/parrot/CucumberInterpreter.swift:206-227 | after a pipe it returns one trimmed cell per later pipe on the line and leaves the line end held |
| Interpreting.ExamplesNeverReturnTable | Sources/parrot/CucumberInterpreter.swift:159-181 | `examples` returns nothing without the `Examples:` key, and otherwise always throws `unexpectedTerm` at the line end, because the column titles never see a pipe |
| Interpreting.ScenarioNeverReturns | Sources/parrot/CucumberInterpreter.swift:123-156 | `scenario` always throws: `unexpectedTerm` without a scenario key, `noStepsFound` for a plain scenario, `scenarioOutlineWithoutExamples` for an outline not followed by `Examples:` |
| Interpreting.CucumberInterpreter.constructor | Sources/parrot/CucumberInterpreter.swift:21-27 | a new interpreter holds EOF, has read nothing and is on line 0 |
| Interpreting.CucumberInterpreter.Eat | Sources/parrot/CucumberInterpreter.swift:34-42 | reads and holds the next token; the line count goes up exactly on a newline |
| Interpreting.CucumberInterpreter.Sentence | Sources/parrot/CucumberInterpreter.swift:44-51 | returns `SentenceOf` and stops at the line end |
| Interpreting.CucumberInterpreter.Tags | Sources/parrot/CucumberInterpreter.swift:100-109 | returns the tags held one after the other and stops at the first token that is not a tag |
| Interpreting.CucumberInterpreter.TitleDescription | Sources/parrot/CucumberInterpreter.swift:78-97 | returns and stops where `TitleDescriptionOf` says |
| Interpreting.CucumberInterpreter.Steps | Sources/parrot/CucumberInterpreter.swift:198-200 | returns no steps |
| Interpreting.CucumberInterpreter.CellsToLineEnd | Sources/parrot/CucumberInterpreter.swift:213-226 | the loop of `wordsBetweenPipes`: the cells up to the line end |
| Interpreting.CucumberInterpreter.WordsBetweenPipes | Sources/parrot/CucumberInterpreter.swift:202-227 | refuses anything but a pipe; otherwise the cells up to the line end, as `WordsOf` says |
| Interpreting.CucumberInterpreter.DataTable | Sources/parrot/CucumberInterpreter.swift:184-196 | returns and stops where `DataTableOf` says |
| Interpreting.CucumberInterpreter.Examples | Sources/parrot/CucumberInterpreter.swift:159-181 | returns and stops where `ExamplesOf` says |
| Interpreting.CucumberInterpreter.Scenario | Sources/parrot/CucumberInterpreter.swift:123-156 | returns and stops where `ScenarioOf` says |
| ScannerElements.ItemDescriptions | Sources/parrot/Protocols/ScannerElement.swift:63-69 | one `column:value` per item, in order |
| ScannerElements.Description | Sources/parrot/Protocols/ScannerElement.swift:28-45 | an element renders as "EOF" exactly when it is the EOF element; every other element's description opens with `(` |
| ScannerElements.PlainDescription | Sources/parrot/Protocols/ScannerElement.swift:49-61 | an element with default fields renders as its location and type followed by `://` |
| ScannerElements.DefaultFieldsRender | Sources/parrot/Protocols/ScannerElement.swift:36-41 | empty keyword, text and items contribute only their separators |
| ScannerElements.EmptyDescription | Sources/parrot/Models/ScannerElements/EmptyScannerElement.swift:3-12 | an empty line renders as `(line:column)Empty://` |
| ScannerElements.SingleItemDescription | Sources/parrot/Protocols/ScannerElement.swift:63-69 | an element with one item ends its description with that item's `column:value` |
| ScannerElements.Values | Sources/parrot/Models/ScannerElements/TableRowScannerElement.swift:26-28 | the text of each token, a missing one as "" |
| ScannerElements.RemovingColon | Sources/parrot/Models/ScannerElements/FirstToken/FeatureLineScannerElement.swift:16 | a trailing colon is removed and nothing else changes |
| ScannerElements.Padded | Sources/parrot/Models/ScannerElements/OtherScannerElement.swift:19 | `n` spaces before the text, none when `n` is not positive |
| ScannerElements.PipePairs | Sources/parrot/Models/ScannerElements/TableRowScannerElement.swift:24 | the number of adjacent pipe pairs is at most the row's length |
| ScannerElements.Fill | Sources/parrot/Models/ScannerElements/TableRowScannerElement.swift:24 | one empty expression goes between every two adjacent pipes: no adjacent pipes remain, the row grows by their count, and its ends are kept |
| ScannerElements.FillRoundTrip | Sources/parrot/Models/ScannerElements/TableRowScannerElement.swift:24 | removing the inserted fillers gives back the row the lexer produced |
| ScannerElements.FillWithoutEmptyCells | Sources/parrot/Models/ScannerElements/TableRowScannerElement.swift:24 | a row without empty cells is left as it is |
| ScannerElements.ExpressionItems | Sources/parrot/Models/ScannerElements/TableRowScannerElement.swift:26-28 | at most one item per token |
| ScannerElements.ExpressionItemsAppend | Sources/parrot/Models/ScannerElements/TableRowScannerElement.swift:26-28 | filter and map distribute over concatenation |
| ScannerElements.TableRowLine | Sources/parrot/Models/ScannerElements/TableRowScannerElement.swift:10-29 | a table row exists exactly when the line starts and ends with a pipe; it sits at the first pipe and holds the filled expressions as items |
| ScannerElements.TableRowCellCount | Sources/parrot/Models/ScannerElements/TableRowScannerElement.swift:24-28 | a row has one cell per expression plus one per empty cell |
| ScannerElements.TableRowItemsAreExpressions | Sources/parrot/Models/ScannerElements/TableRowScannerElement.swift:24-28 | without empty cells, the items are the row's expressions |
| ScannerElements.TagItems | Sources/parrot/Models/ScannerElements/TagLineScannerElement.swift:17-19 | at most one item per token |
| ScannerElements.TagLineLine | Sources/parrot/Models/ScannerElements/TagLineScannerElement.swift:10-20 | a tag line exists exactly when the line starts with a tag; it sits at that tag and lists the line's tags |
| ScannerElements.AllTagsBecomeItems | Sources/parrot/Models/ScannerElements/TagLineScannerElement.swift:17-19 | on a line of tags, item `i` is tag `i` at its own location |
| ScannerElements.NonTagsAddNoItems | Sources/parrot/Models/ScannerElements/TagLineScannerElement.swift:17 | tokens other than tags add no item |
| ScannerElements.DocStringSeparatorLine | Sources/parrot/Models/ScannerElements/DocStringSeparatorScannerElement.swift:10-18 | a separator exists exactly for a line of one doc-string keyword; it carries the fence as keyword and the mark, or "", as text |
| ScannerElements.SeparatorKeepsMatchedText | Sources/parrot/Models/ScannerElements/DocStringSeparatorScannerElement.swift:10-18 | the separator built from a matched fence keeps that fence and mark |
| ScannerElements.KeywordLine | Sources/parrot/Models/ScannerElements/FirstToken/ScenarioLineScannerElement.swift:11-20 | a keyword line sits at its first token and carries no items |
| ScannerElements.Recognise | Sources/parrot/CucumberScanner.swift:59-65 | each element type accepts a line exactly under its own condition; the result is of that type, on the line of the first token, and only rows and tag lines carry items |
| ScannerElements.DefaultFields | Sources/parrot/Protocols/ScannerElement.swift:49-61 | the fields an element does not set keep the default "" or [] |
| ScannerElements.FromIdentifier | Sources/parrot/Models/ScannerElements/ScannerLineType.swift:17-32 | every line type other than `eof` is recognised only by its own identifier |
| ScannerElements.IdentifierRoundTrip | Sources/parrot/Models/ScannerElements/ScannerLineType.swift:17-32 | each line type is recognised from its own identifier |
| ScannerElements.UnlistedElementsAreEof | Sources/parrot/Models/ScannerElements/ScannerLineType.swift:17-32 | comments, empty lines, rules and EOF all classify as `eof` |
| ScannerElements.ShortIdentifierIsEof | Sources/parrot/Models/ScannerElements/ScannerLineType.swift:17-32 | an identifier shorter than five characters classifies as `eof` |
| ScannerElements.IsOf | Sources/parrot/Models/ScannerElements/ScannerLineType.swift:37-39 | a line is of a type other than `eof` exactly when their identifiers agree |
| ScannerElements.OneTypePerLine | Sources/parrot/Models/ScannerElements/ScannerLineType.swift:37-39 | a line is of at most one line type |
| ScannerElements.Eq | Sources/parrot/Models/ScannerElements/ScannerLineType.swift:41-43 | `==` is `isOf` |
| ScannerElements.NotEq | Sources/parrot/Models/ScannerElements/ScannerLineType.swift:45-47 | `!=` is the negation of `==` |
| Scanning.SplitByLines | Sources/parrot/CucumberScanner.swift:70-85 | the groups start with an empty one, every later group is non-empty, and the last token ends the last group |
| Scanning.SplitFlattens | Sources/parrot/CucumberScanner.swift:70-85 | the groups put together are the tokens, in order |
| Scanning.SplitGroupsOneLine | Sources/parrot/CucumberScanner.swift:77-83 | every group lies on one line |
| Scanning.SplitGroupsApart | Sources/parrot/CucumberScanner.swift:77-78 | consecutive groups start on different lines |
| Scanning.SplitOfOrderedTokens | Sources/parrot/CucumberScanner.swift:70-85 | for tokens in line order, the groups start on strictly increasing lines of at least 1 |
| Scanning.FirstRecognisedAnswers | Sources/parrot/CucumberScanner.swift:59-65 | the chain answers the result of some element type, or nothing exactly when none accepts |
| Scanning.FirstAcceptingDecides | Sources/parrot/CucumberScanner.swift:59-65 | the first element type in chain order that accepts the line decides it |
| Scanning.ParseLine | Sources/parrot/CucumberScanner.swift:37-68 | no element exactly for an empty group or one that starts with EOF; otherwise an element of the chain on the first token's line |
| Scanning.ChainIndex | Sources/parrot/CucumberScanner.swift:42-55 | every element type has its place in the chain |
| Scanning.ParseLineKind | Sources/parrot/CucumberScanner.swift:42-67 | the chain classifies a line as `KindOf` does |
| Scanning.KindOfByFirstToken | Sources/parrot/CucumberScanner.swift:42-55 | each kind is chosen exactly when its condition on the first token holds and no earlier type accepted |
| Scanning.KindOfOther | Sources/parrot/CucumberScanner.swift:54 | `Other` is chosen exactly when no earlier element type accepts the line |
| Scanning.ClassificationByFirstToken | Sources/parrot/CucumberScanner.swift:37-68 | the element kind of a line is decided by its first token, and for rows and separators by the line's shape |
| Scanning.Rows | Sources/parrot/CucumberScanner.swift:20-22 | `compactMap` keeps at most one row per group |
| Scanning.LineNumbers | Sources/parrot/CucumberScanner.swift:22 | the line numbers are exactly those of the rows |
| Scanning.MaxLine | Sources/parrot/CucumberScanner.swift:27 | `keys.max()` is the largest line number |
| Scanning.Range | Sources/parrot/CucumberScanner.swift:27 | the integers in the half-open range |
| Scanning.IndexRows | Sources/parrot/CucumberScanner.swift:24 | traps exactly on a repeated line number; otherwise each row sits under its own line number |
| Scanning.FillGaps | Sources/parrot/CucumberScanner.swift:26-32 | adds an empty line at column 1 for each missing number from 1 to the maximum, and keeps the others |
| Scanning.LinesOf | Sources/parrot/CucumberScanner.swift:15-35 | traps exactly on a repeated line number or a maximum below 1; otherwise the rows by number plus empty lines for the gaps |
| Scanning.RowLinesBelow | Sources/parrot/CucumberScanner.swift:20-22 | every row's number is the line of its group's first token |
| Scanning.PrefixStarts | Sources/parrot/CucumberScanner.swift:70-85 | dropping the last group keeps the starts increasing and below the last one |
| Scanning.RowsOfOrderedGroups | Sources/parrot/CucumberScanner.swift:20-22 | groups on increasing lines give rows on increasing lines |
| Scanning.AppendRow | Sources/parrot/CucumberScanner.swift:20-22 | appending a row on a later line, if any, keeps the rows increasing |
| Scanning.AppendIncreasing | Sources/parrot/CucumberScanner.swift:20-22 | appending a row on a later line keeps the rows increasing |
| Scanning.OrderedTokensNeverTrap | Sources/parrot/CucumberScanner.swift:24-27 | on tokens in line order the dictionary never traps and the maximum is at least 1 |
| Scanning.OrderedTokensFillRange | Sources/parrot/CucumberScanner.swift:26-32 | on tokens in line order the numbered lines are exactly `1...max` |
| Scanning.Descriptions | Sources/parrot/CucumberScanner.swift:88-92 | one description per line |
| Scanning.DescriptionsInKeyOrder | Sources/parrot/CucumberScanner.swift:88-92 | item `i` renders the line under the `i`-th key in strictly increasing order |
| Scanning.IncreasingOverRange | Sources/parrot/CucumberScanner.swift:27 | a strictly increasing list that holds exactly the numbers from `lo` below `hi` is `lo, lo + 1, ...` |
| Scanning.NumberedDescriptions | Sources/parrot/CucumberScanner.swift:88-92 | for lines numbered `1...max`, the descriptions are `max` long and item `n - 1` renders line `n` |
| Scanning.JoinAsLines | Sources/parrot/CucumberScanner.swift:94 | joining parts with line breaks and adding a final one puts every part on a line of its own |
| Scanning.RenderIsTerminatedLines | Sources/parrot/CucumberScanner.swift:87-95 | the rendering is every description followed by a line break, then `EOF\n` |
| Scanning.IndexedOrderedRows | Sources/parrot/CucumberScanner.swift:24-32 | the dictionary built from ordered rows holds each row under its number and empty lines at column 1 in the gaps, numbered from 1 with no gap |
| Scanning.JoinEndsWithLast | Sources/parrot/CucumberScanner.swift:94 | a joined text ends with its last part |
| Scanning.RenderTail | Sources/parrot/CucumberScanner.swift:92-94 | with the final `EOF` part and newline, the text ends in `EOF\n` |
| Scanning.Render | Sources/parrot/CucumberScanner.swift:87-95 | the rendering always ends in `EOF\n` |
| Scanning.CucumberScanner.constructor | Sources/parrot/CucumberScanner.swift:11-13 | the scanner holds its lexer |
| Scanning.CucumberScanner.ParseLines | Sources/parrot/CucumberScanner.swift:15-35 | every recognised line of the lexer's tokens sits under its own number, every other number up to the largest holds an empty line at column 1, the numbers run from 1 with no gap, and the lexer's cursor is left as it was |
| Scanning.CucumberScanner.StringLines | Sources/parrot/CucumberScanner.swift:87-95 | the text is the rendering of the lines `parseLines` returns, indexed as there, and ends in `EOF\n` |
| ScannerStateMachine.Transition | Sources/parrot/Helpers/ScannerFSM.swift:30-121 | an unexpected-element error names the element and a non-empty list of expected types; an inconsistent cell count arises only for a row inside a table |
| ScannerStateMachine.Next | Sources/parrot/Helpers/ScannerFSM.swift:30-121 | the intended transitions, with scenario, background and rule lines matching the first-level cases; the same error shapes |
| ScannerStateMachine.NextAsWritten | Sources/parrot/Helpers/ScannerFSM.swift:3-5 | the transitions as written, where no element matches the first-level cases; the same error shapes |
| ScannerStateMachine.AsWrittenRefusesFirstLevel | Sources/parrot/Helpers/ScannerFSM.swift:57-118 | as written, a scenario, background or rule line is refused in every state |
| ScannerStateMachine.AsWrittenRefusesFirstScenario | Sources/parrot/Helpers/ScannerFSM.swift:53-60 | a feature line followed by a scenario line is accepted by the intended automaton and refused as written |
| ScannerStateMachine.FirstLevelOpensScenario | Sources/parrot/Helpers/ScannerFSM.swift:53-119 | as intended, a scenario, background or rule line is accepted exactly after the feature line and outside a doc string, and always opens a scenario |
| ScannerStateMachine.RunAsWritten | Sources/parrot/Helpers/ScannerFSM.swift:30-121 | a run of no elements as written keeps the state |
| ScannerStateMachine.ScannerFSM.constructor | Sources/parrot/Helpers/ScannerFSM.swift:26-28 | the automaton starts before the feature |
| ScannerStateMachine.ScannerFSM.IsEOFAdmissible | Sources/parrot/Helpers/ScannerFSM.swift:22-24 | the end of input is admissible everywhere except after scenario tags |
| ScannerStateMachine.ScannerFSM.ChangeState | Sources/parrot/Helpers/ScannerFSM.swift:30-121 | on an accepted element the state becomes `Next`'s; on a refused one the error is returned and the state is kept |
| ScannerStateMachine.TransparentLinesKeepState | Sources/parrot/Helpers/ScannerFSM.swift:31-36 | comments and empty lines never change the state and never fail |
| ScannerStateMachine.BeforeFeatureTransitions | Sources/parrot/Helpers/ScannerFSM.swift:39-46 | before the feature: language lines and EOF stay, tags go to feature tags, the feature line enters the feature, and nothing else is accepted |
| ScannerStateMachine.FeatureTagTransitions | Sources/parrot/Helpers/ScannerFSM.swift:47-52 | after feature tags only more tags or the feature line are accepted |
| ScannerStateMachine.TableRowOpensTable | Sources/parrot/Helpers/ScannerFSM.swift:82 | after a step or an examples line, a row opens a table with that row's cell count |
| ScannerStateMachine.TableChecksCellCount | Sources/parrot/Helpers/ScannerFSM.swift:94-103 | in a table a row is accepted exactly when its cell count matches, and otherwise is an inconsistent cell count |
| ScannerStateMachine.DocStringTransitions | Sources/parrot/Helpers/ScannerFSM.swift:87-93 | inside a doc string only the closing separator (back to the step) or free text is accepted |
| ScannerStateMachine.EndOfFileAcceptance | Sources/parrot/Helpers/ScannerFSM.swift:30-121 | the end of input is accepted exactly outside scenario tags, feature tags and doc strings, and keeps the state |
| ScannerStateMachine.Significant | Sources/parrot/Helpers/ScannerFSM.swift:31-36 | the elements kept are the ones that are not comments or empty lines |
| ScannerStateMachine.TransparentLinesDoNotMatter | Sources/parrot/Helpers/ScannerFSM.swift:31-36 | dropping comments and empty lines never changes the outcome of a run |
| ScannerStateMachine.NoWayBackToPreamble | Sources/parrot/Helpers/ScannerFSM.swift:53-119 | once inside the feature, no sequence of elements leads back before it |
| ScannerStateMachine.TableRowsAgree | Sources/parrot/Helpers/ScannerFSM.swift:94-103 | a run of rows in a table succeeds exactly when every row has the table's cell count, and stays in that table |

## Left out

- `feature`, `scenarios`, `ensureResidualTokensAreWhitespacesAndNewlines`, `skipWhitespaces` and `currentLine` of `CucumberInterpreter` are not modelled. `scenario` never returns a scenario (`Interpreting.ScenarioNeverReturns`), so `scenarios` and `feature` never get past their first scenario. `columnsTitles` is one call to `wordsBetweenPipes` and is folded into it.
- The interpreter reads from a list of tokens rather than calling a lexer. A lexer's `throws` on `getNextToken` is not modelled there.
- The `fatalError` branch of `CucumberLexer.getNextToken` is left out. The classes of characters that reach it all have branches of their own.
- `CucumberLexer.advance(until:)`, `peek(count:)`, `peek(until: Character)` and `peek()` are not modelled because `getNextToken` never calls them. Neither are `sentence`, `peek()` and `peekWord` of the older `Lexer`, for the same reason.
- In `CucumberLexer.getNextToken`, the `else` after the tag test (a lone `@`) is dead code. The tag branch is modelled as reached.
- `LanguageDictionary` and the bundled `gherkin-languages.json` are not modelled. The translations are an abstract function of language and keyword, so the `en` fallback of `translations(keyword:)` and the `invalidLanguage` error are not modelled either.
- `TokenExporter`, the `Exportable` conformances and all JSON export are not part of this model.
- The syntax-tree `Rule`, `DocString`, `Feature` and `ExamplesTable` are plain records here. They have no validation of their own.
- The `FirstToken` scanner elements (background, examples, feature, language, rule, scenario and step lines) are modelled together through `ScannerElements.KeywordLine` and `ScannerElements.Recognise`, not one by one.
- The token-list extensions that define `value`, `valueExcludingFirst`, `removingColon`, `padded(leading:)`, `resettingColumn` and `fillWithEmptyExpressionsBetweenDoublePipes` are not among the files of this model. Their behaviour is modelled from their names and from how the elements use them.
- The debug `print` in `TableRowScannerElement.init?` is left out because it is output only.
- Swift strings are modelled as sequences of characters indexed by integers. Grapheme clusters, `String.Index` and Unicode normalisation are not modelled. `Int` is unbounded.
- `LegacyLexing.Lexer.constructor` requires a non-empty text, because `text[position]` in `init(feature:)` traps on an empty one.
- Several `getNextToken` branches are split out as methods of their own so that they can be proved one at a time: `SkipBlanks`, `ReadToken`, `ReadFound`, `ReadKeywordOrSentence`, `TryParameter`, and `CellsToLineEnd` for the loop of `wordsBetweenPipes`. The source has no such methods.
- `Interpreting.CucumberInterpreter.Steps`: `steps()` is an unfinished stub in the source and always returns no steps. The model keeps that behaviour.
- `ScannerStateMachine.Next`: its own contract states only the shape of the errors. The transitions are stated by the lemmas beside it.
- `ScannerStateMachine.Next` and `ScannerStateMachine.ScannerFSM.ChangeState` take the intended transitions, where scenario, background and rule lines match the `is FirstLevelScannerElement` cases. As written no element matches them (see Findings); `ScannerStateMachine.NextAsWritten` models that.
- Keywords.PrimaryKeyword: the source declares `PrimaryKeyword` twice. The model follows the six-case enum of `Sources/parrot/Models/Tokens/Keywords/PrimaryKeyword.swift`, whose raw values are the translation keys. The eight-case enum of `Sources/parrot/Models/Tokens/GherkinKeyword.swift`, with `example` and `scenarioTemplate` and English raw values, is not modelled. Its discardable `:` suffix is the one `Keywords.Suffix` gives every primary keyword.
- CucumberLexing.KeywordOrSentence: `getNextToken` builds the finder with `KeywordFinder(line:)`, but the only initialiser also takes `language:`. The model reads this as a finder with no language, which falls back to `en`.
- CucumberLexing.ReadAt: `getNextToken` advances by `keyword.lenght`, which only `Expression` and `DocStringKeyword` define. The model advances by the length of the text the finder matched.
- CucumberLexing.PeekLineAsWritten: it is not defined at a line break, where the `repeat ... while` loop never ends. `getNextToken` never peeks there.
- LegacyLexing.Lexer.Parse: besides the cursor, it resets `shouldCountWhitespaces` and `skippedWhitespaces` to a fresh lexer's values, and restores them afterwards. The source touches neither. As written this has no effect, because the second parse stops at once (see Findings). Once the cursor is kept in step, the counters that the first parse leaves behind would add a whitespace token at the start (`LegacyLexing.StaleCountersAddWhitespace`).
- `CucumberLexing.CucumberLexer.Parse` states the corrected reset and restore (`ResetCursor`), not the reset as written (see Findings).

## Findings

| source | as written | input that shows it | evidently intended | confidence | as-written member | corrected member |
|---|---|---|---|---|---|---|
| Sources/parrot/Models/LexerCharacter.swift:15-38 | the last assignment of `init(char:)`, at line 37, sets `.generic` unconditionally and overwrites every class found before it | `"\n"` is classified `.generic("\n")`, so no line break, blank, pipe or tag is ever recognised | special characters keep their class | not executed | LexerCharacters.AsWrittenMissesNewLine | LexerCharacters.FromChar |
| Sources/parrot/CucumberLexer.swift:98-118 | the `repeat ... while conditionResult` loop goes round again only while the line-break test holds, so at any other character it stops after one step; line 117 then returns `text.prefix(upTo:)`, which starts at the beginning of the document | on "AB\n" at the start it yields "A"; on the second line of "A\nB" it yields "A\nB" | the rest of the current line, as the `.none` in the test at line 193 suggests; the corrected peek also returns a last line without a line break, where the guard at line 105 would still give nil and `getNextToken` would emit EOF (line 194), so fixing the loop alone does not give it | not executed | CucumberLexing.PeekLineAsWrittenCounterexamples | CucumberLexing.CucumberLexer.PeekLine |
| Sources/parrot/Helpers/ScannerFSM.swift:57-118 | only `FirstLevelScannerElemenDescriptor` conforms to `FirstLevelScannerElement` (lines 4-5), so the `case is FirstLevelScannerElement` branches match no element | a feature line followed by a scenario line: the scenario line is refused | scenario, background and rule lines open a scenario | not executed | ScannerStateMachine.AsWrittenRefusesFirstScenario | ScannerStateMachine.FirstLevelOpensScenario |
| Sources/parrot/Lexer.swift:92-118 | when no closing character or line break follows, line 109 reads `text[text.endIndex]` and traps | the text `<ab` | throw, so that the caller falls back to a word | not executed | LegacyLexing.PeekAsWrittenTrapsOnUnclosedParameter | LegacyLexing.Lexer.PeekUntil |
| Sources/parrot/Models/AST/DataTable.swift:40-46 | `body` slices the closed range `rows[1...rows.count]` (line 45), which reaches one past the last row | any table with a header and one body row | every row after the header | not executed | Ast.BodyAsWritten | Ast.Body |
| Sources/parrot/Models/AST/DataTable.swift:48-58 | the constructor forms the closed range `0...(rows.count-1)` before any check (line 51) | a table with no rows traps, because the range `0...-1` cannot be formed | throw `dataTableWithoutValues`, as `DataTableValidator` does | not executed | Ast.EmptyDataTableTraps | Ast.NewDataTable |
| Sources/parrot/CucumberLexer.swift:219-238 | `parse` resets only the position (line 222); the current character and the location keep their values | on "a\nb", `parse` called after one `getNextToken` (cursor on the line break) starts at position 0 with the line break as current character, so the expression "a" is never emitted; after a complete parse the current character is `.none` and a second parse gives only EOF | reset the whole cursor, as `init(feature:)` does | not executed | CucumberLexing.ResetAsWrittenDesynchronises | CucumberLexing.CucumberLexer.Parse |
| Sources/parrot/Lexer.swift:212-231 | `parse` moves the position to the start (line 215) and back (line 228) without updating the current character | after a parse, the current character is the one at the end of the text, not the one at the restored position | keep the current character in step with the position | not executed | LegacyLexing.RestoreAsWrittenLosesText | LegacyLexing.Lexer.Parse |
